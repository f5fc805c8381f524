/** The repository layer of the upload server (repo/repo.go): a registry of
    upload files that are open for appending, and the JSON post-processing
    that filters and rewrites the entries of an uploaded JSON array. */
module Repo {
  import opened Wrappers

  /** A Go byte. */
  newtype byte = x: int | 0 <= x < 0x100

  /** The errors the repository, and the service built on it, report. */
  datatype Error =
    | CreateFailed(filename: string)      // os.OpenFile(..., O_APPEND|O_WRONLY|O_CREATE) failed
    | NotFound                            // SaveChunk on a name that has no open handle
    | SaveFailed                          // the handle's Write failed
    | SourceOpenFailed(filename: string)  // ProcessJSON could not open its source
    | NameGenFailed                       // uuid.NewRandom failed
    | DecodeFailed(reason: string)        // one array element did not decode
    | MarshalFailed
    | WriteFailed                         // the single write of the processed JSON failed

  /** One Init, SaveChunk or Close call on the registry. The registry's ghost
      history lists them in call order; ProcessJSON is not logged. */
  datatype Op =
    | InitOp(filename: string)
    | SaveOp(filename: string, chunk: seq<byte>)
    | CloseOp(filename: string)

  /** The bytes a directory holds under `name`; a missing file reads as empty. */
  function OnDisk(dir: map<string, seq<byte>>, name: string): seq<byte>
  {
    if name in dir then dir[name] else []
  }

  /** One element of the uploaded JSON array. A field absent from the input
      decodes to Go's zero value: the empty string or 0. */
  datatype Entry = Entry(
    playerName: seq<byte>,
    avatarName: seq<byte>,
    playerScore: int,
    lifeCount: int,
    game: seq<byte>)

  /** What the streaming decoder yields for one array element, in order. */
  datatype Decoded = Element(entry: Entry) | Malformed(reason: string)

  // ---------------------------------------------------------------------
  // The per-entry rule
  // ---------------------------------------------------------------------

  /** The bytes of the ASCII vowels, upper and lower case. */
  const VowelBytes: set<byte> := {0x41, 0x45, 0x49, 0x4F, 0x55, 0x61, 0x65, 0x69, 0x6F, 0x75}

  /** A text field is dropped when its first byte is an ASCII vowel, in either case. */
  predicate IsVowelLed(s: seq<byte>)
  {
    |s| > 0 && s[0] in VowelBytes
  }

  /** The one-byte strings skipEntry compares against: "a", "e", "i", "o", "u". */
  const SkipList: seq<seq<byte>> := [[0x61], [0x65], [0x69], [0x6F], [0x75]]

  /** strings.ToLower(entry[0:1]): the first byte as a one-byte string, lower-cased.
      ASCII upper-case letters are folded; any other ASCII byte is kept; a byte
      of 0x80 or above is not valid UTF-8 on its own and becomes the
      replacement character U+FFFD, whose encoding is EF BF BD. */
  function LowerFirst(entry: seq<byte>): (r: seq<byte>)
    requires |entry| > 0
  {
    var b := entry[0];
    if 0x41 <= b <= 0x5A then [b + 0x20]
    else if b < 0x80 then [b]
    else [0xEF, 0xBF, 0xBD]
  }

  /** skipEntry: false for the empty string; otherwise scans the skip list
      for the lower-cased first byte. */
  method SkipEntry(entry: seq<byte>) returns (skip: bool)
    ensures skip == IsVowelLed(entry)
  {
    if entry == [] {
      return false;
    }
    var firstChar := LowerFirst(entry);
    skip := false;
    var i := 0;
    while i < |SkipList|
      invariant 0 <= i <= |SkipList|
      invariant !skip
      invariant forall j :: 0 <= j < i ==> SkipList[j] != firstChar
    {
      if firstChar == SkipList[i] {
        skip := true;
        break;
      }
      i := i + 1;
    }
    assert skip <==> firstChar in SkipList;
  }

  /** Go's `%` truncates toward zero: the remainder takes the sign of the dividend. */
  function GoRem(a: int, b: int): int
    requires b != 0
  {
    var m := (if a < 0 then -a else a) % (if b < 0 then -b else b);
    if a < 0 then -m else m
  }

  /** shouldIncrement: `val%2 == 0` in Go, which holds exactly for the even
      numbers, negative ones and zero included. */
  function ShouldIncrement(val: int): (r: bool)
    ensures r <==> val % 2 == 0
  {
    GoRem(val, 2) == 0
  }

  /** increment: adds the configured constant (1000 per the interface's doc comment). */
  function Increment(val: int, increment: int): int
  {
    val + increment
  }

  /** The rewrite ProcessJSON applies to each decoded entry. */
  function TransformEntry(e: Entry, increment: int): (r: Entry)
    ensures r.playerName == e.playerName <==> !IsVowelLed(e.playerName)
    ensures r.avatarName == e.avatarName <==> !IsVowelLed(e.avatarName)
    ensures r.game == e.game <==> !IsVowelLed(e.game)
    ensures r.playerName != e.playerName ==> r.playerName == []
    ensures r.avatarName != e.avatarName ==> r.avatarName == []
    ensures r.game != e.game ==> r.game == []
    ensures r.playerScore == if e.playerScore % 2 == 0 then e.playerScore + increment else e.playerScore
    ensures r.lifeCount == if e.lifeCount % 2 == 0 then e.lifeCount + increment else e.lifeCount
  {
    Entry(
      if !IsVowelLed(e.playerName) then e.playerName else [],
      if !IsVowelLed(e.avatarName) then e.avatarName else [],
      if ShouldIncrement(e.playerScore) then Increment(e.playerScore, increment) else e.playerScore,
      if ShouldIncrement(e.lifeCount) then Increment(e.lifeCount, increment) else e.lifeCount,
      if !IsVowelLed(e.game) then e.game else [])
  }

  /** The decode loop of ProcessJSON as a value: elements are transformed in
      order, and the first element that fails to decode aborts the run. */
  function Transform(items: seq<Decoded>, increment: int): Result<seq<Entry>, Error>
  {
    if items == [] then Success([])
    else match items[0]
      case Malformed(reason) => Failure(DecodeFailed(reason))
      case Element(e) =>
        match Transform(items[1..], increment)
        case Success(rest) => Success([TransformEntry(e, increment)] + rest)
        case Failure(err) => Failure(err)
  }

  /** The transform succeeds exactly when every element decoded, and then it
      keeps the length and the order of the input. */
  lemma {:induction false} TransformKeepsOrder(items: seq<Decoded>, increment: int)
    ensures Transform(items, increment).Success? <==> forall k :: 0 <= k < |items| ==> items[k].Element?
    ensures Transform(items, increment).Success? ==>
      var out := Transform(items, increment).value;
      |out| == |items| &&
      forall k :: 0 <= k < |items| ==> out[k] == TransformEntry(items[k].entry, increment)
  {
    if items != [] {
      TransformKeepsOrder(items[1..], increment);
      if items[0].Element? && Transform(items[1..], increment).Success? {
        var out := Transform(items, increment).value;
        forall k | 0 <= k < |items|
          ensures out[k] == TransformEntry(items[k].entry, increment)
        {
          if k > 0 {
            assert items[k] == items[1..][k - 1];
          }
        }
      }
      if !items[0].Element? {
        assert !(forall k :: 0 <= k < |items| ==> items[k].Element?);
      } else if !(forall k :: 0 <= k < |items[1..]| ==> items[1..][k].Element?) {
        var k :| 0 <= k < |items[1..]| && !items[1..][k].Element?;
        assert !items[k + 1].Element?;
      }
    }
  }

  /** The error of an aborted run is the one of the first malformed element. */
  lemma {:induction false} TransformFailsAtFirst(items: seq<Decoded>, increment: int, k: nat)
    requires k < |items| && items[k].Malformed?
    requires forall j :: 0 <= j < k ==> items[j].Element?
    ensures Transform(items, increment) == Failure(DecodeFailed(items[k].reason))
  {
    if k > 0 {
      assert items[1..][k - 1] == items[k];
      TransformFailsAtFirst(items[1..], increment, k - 1);
    }
  }

  // ---------------------------------------------------------------------
  // The registry
  // ---------------------------------------------------------------------

  /** The repository: the upload directory, the processed-JSON directory, and
      the map from file name to open append-mode handle (its key set). */
  class Registry {
    /** Upload directory on disk: file name to contents. */
    var uploads: map<string, seq<byte>>
    /** Names that have an open handle (the keys of fileData). */
    var open: set<string>
    /** Processed-JSON directory on disk. */
    var processed: map<string, seq<byte>>
    /** Every Init, SaveChunk and Close made so far, in order. */
    ghost var history: seq<Op>

    /** A handle is only ever held for a file that exists. */
    ghost predicate Valid()
      reads this
    {
      open <= uploads.Keys
    }

    /** NewRepo: an empty registry over two existing directories. */
    constructor (uploadDir: map<string, seq<byte>>, jsonDir: map<string, seq<byte>>)
      ensures Valid()
      ensures uploads == uploadDir && processed == jsonDir && open == {} && history == []
    {
      uploads := uploadDir;
      processed := jsonDir;
      open := {};
      history := [];
    }

    /** Init: a name that is already open is left alone; otherwise the file is
        opened in append mode, created if missing and never truncated. */
    method Init(filename: string, openOk: bool) returns (err: Option<Error>)
      requires Valid()
      modifies this
      ensures Valid()
      ensures history == old(history) + [InitOp(filename)] && processed == old(processed)
      ensures filename in old(open) ==>
        err == None && open == old(open) && uploads == old(uploads)
      ensures filename !in old(open) && openOk ==>
        && err == None
        && open == old(open) + {filename}
        && uploads == old(uploads)[filename := OnDisk(old(uploads), filename)]
      ensures filename !in old(open) && !openOk ==>
        err == Some(CreateFailed(filename)) && open == old(open) && uploads == old(uploads)
    {
      history := history + [InitOp(filename)];
      if filename in open {
        return None;
      }
      if !openOk {
        return Some(CreateFailed(filename));
      }
      uploads := uploads[filename := OnDisk(uploads, filename)];
      open := open + {filename};
      return None;
    }

    /** Close: closes the handle if there is one and forgets the name; an
        unknown name is a no-op. The file stays on disk. */
    method Close(filename: string)
      requires Valid()
      modifies this
      ensures Valid()
      ensures open == old(open) - {filename}
      ensures uploads == old(uploads) && processed == old(processed)
      ensures history == old(history) + [CloseOp(filename)]
    {
      history := history + [CloseOp(filename)];
      open := open - {filename};
    }

    /** SaveChunk: appends through the open handle of `filename`. */
    method SaveChunk(filename: string, chunk: seq<byte>, writeOk: bool) returns (err: Option<Error>)
      requires Valid()
      modifies this
      ensures Valid()
      ensures open == old(open) && processed == old(processed)
      ensures history == old(history) + [SaveOp(filename, chunk)]
      ensures filename !in open ==> err == Some(NotFound) && uploads == old(uploads)
      ensures filename in open && !writeOk ==> err == Some(SaveFailed) && uploads == old(uploads)
      ensures filename in open && writeOk ==>
        err == None && uploads == old(uploads)[filename := old(uploads)[filename] + chunk]
    {
      history := history + [SaveOp(filename, chunk)];
      if filename !in open {
        return Some(NotFound);
      }
      if !writeOk {
        return Some(SaveFailed);
      }
      uploads := uploads[filename := uploads[filename] + chunk];
      return None;
    }

    /** ProcessJSON: reads the uploaded `srcFile` as a JSON array, rewrites
        every entry, and writes the resulting array with one write to a new
        file `<id>.json` of the processed directory. The output file is
        created before the decode loop, so an aborted run leaves it as it was
        (empty when it is new). */
    method ProcessJSON(
      srcFile: string,
      id: Option<string>,
      openOk: bool,
      decode: seq<byte> -> seq<Decoded>,
      marshal: seq<Entry> -> Option<seq<byte>>,
      writeOk: bool,
      increment: int)
      returns (filename: string, err: Option<Error>)
      requires Valid()
      modifies this
      ensures Valid()
      ensures uploads == old(uploads) && open == old(open) && history == old(history)
      ensures err.Some? <==> filename == ""
      ensures srcFile !in old(uploads) ==>
        err == Some(SourceOpenFailed(srcFile)) && processed == old(processed)
      ensures srcFile in old(uploads) && id.None? ==>
        err == Some(NameGenFailed) && processed == old(processed)
      ensures srcFile in old(uploads) && id.Some? && !openOk ==>
        err == Some(CreateFailed(id.value + ".json")) && processed == old(processed)
      ensures srcFile in old(uploads) && id.Some? && openOk ==>
        var out := id.value + ".json";
        var created := old(processed)[out := OnDisk(old(processed), out)];
        match Transform(decode(old(uploads)[srcFile]), increment)
        case Failure(e) =>
          err == Some(e) && processed == created
        case Success(entries) =>
          if marshal(entries).None? then
            err == Some(MarshalFailed) && processed == created
          else if !writeOk then
            err == Some(WriteFailed) && processed == created
          else
            && filename == out && err == None
            && processed == old(processed)[out := OnDisk(old(processed), out) + marshal(entries).value]
    {
      if srcFile !in uploads {
        return "", Some(SourceOpenFailed(srcFile));
      }
      if id.None? {
        return "", Some(NameGenFailed);
      }
      var out := id.value + ".json";
      if !openOk {
        return "", Some(CreateFailed(out));
      }
      processed := processed[out := OnDisk(processed, out)];
      var items := decode(uploads[srcFile]);
      var newJson: seq<Entry> := [];
      var i := 0;
      while i < |items|
        invariant 0 <= i <= |items|
        invariant forall j :: 0 <= j < i ==> items[j].Element?
        invariant |newJson| == i
        invariant forall j :: 0 <= j < i ==> newJson[j] == TransformEntry(items[j].entry, increment)
        invariant processed == old(processed)[out := OnDisk(old(processed), out)]
        invariant uploads == old(uploads) && open == old(open) && history == old(history)
      {
        match items[i]
        case Malformed(reason) =>
          TransformFailsAtFirst(items, increment, i);
          return "", Some(DecodeFailed(reason));
        case Element(entry) =>
          var newEntry := Entry([], [], 0, 0, []);
          var skipName := SkipEntry(entry.playerName);
          if !skipName {
            newEntry := newEntry.(playerName := entry.playerName);
          }
          var skipAvatar := SkipEntry(entry.avatarName);
          if !skipAvatar {
            newEntry := newEntry.(avatarName := entry.avatarName);
          }
          var skipGame := SkipEntry(entry.game);
          if !skipGame {
            newEntry := newEntry.(game := entry.game);
          }
          if ShouldIncrement(entry.playerScore) {
            newEntry := newEntry.(playerScore := Increment(entry.playerScore, increment));
          } else {
            newEntry := newEntry.(playerScore := entry.playerScore);
          }
          if ShouldIncrement(entry.lifeCount) {
            newEntry := newEntry.(lifeCount := Increment(entry.lifeCount, increment));
          } else {
            newEntry := newEntry.(lifeCount := entry.lifeCount);
          }
          assert newEntry == TransformEntry(entry, increment);
          newJson := newJson + [newEntry];
          i := i + 1;
      }
      TransformKeepsOrder(items, increment);
      assert Transform(items, increment).value == newJson;
      var encoded := marshal(newJson);
      if encoded.None? {
        return "", Some(MarshalFailed);
      }
      if !writeOk {
        return "", Some(WriteFailed);
      }
      processed := processed[out := processed[out] + encoded.value];
      return out, None;
    }
  }
}
