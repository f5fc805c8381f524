/** The service layer (service/service.go): names a new upload, forwards
    chunks to the repository, and on close decides whether the file goes to
    JSON post-processing. */
module Service {
  import opened Wrappers
  import opened Repo

  /** The on-disk name of an upload: the generated id with the declared file
      type appended verbatim. */
  function StoredName(id: string, fileType: string): string
  {
    id + fileType
  }

  /** filepath.Ext on a slash-separated path: the suffix from the final '.'
      of the last path element, or "" when that element has no '.'. */
  function Ext(path: string): (ext: string)
    ensures |ext| <= |path| && ext == path[|path| - |ext|..]
    ensures ext != "" ==> ext[0] == '.' && forall k :: 0 < k < |ext| ==> ext[k] != '.' && ext[k] != '/'
    ensures ext == "" ==>
      forall k :: 0 <= k < |path| && path[k] == '.' ==> exists j :: k < j < |path| && path[j] == '/'
    decreases |path|
  {
    if |path| == 0 then ""
    else
      var c := path[|path| - 1];
      if c == '/' then ""
      else if c == '.' then "."
      else
        var prefix := path[..|path| - 1];
        var e := Ext(prefix);
        if e == "" then
          assert forall k :: 0 <= k < |prefix| ==> prefix[k] == path[k];
          ""
        else e + [c]
  }

  /** A file type that is itself an extension ('.' followed by no further
      '.' or '/') is exactly the extension of the name it is stored under,
      whatever the generated id. */
  lemma {:induction false} ExtOfStoredName(id: string, fileType: string)
    requires fileType != "" && fileType[0] == '.'
    requires forall k :: 0 < k < |fileType| ==> fileType[k] != '.' && fileType[k] != '/'
    ensures Ext(StoredName(id, fileType)) == fileType
  {
    var path := StoredName(id, fileType);
    if |fileType| == 1 {
      assert path[|path| - 1] == '.';
    } else {
      var shorter := fileType[..|fileType| - 1];
      assert path[..|path| - 1] == StoredName(id, shorter);
      ExtOfStoredName(id, shorter);
      assert path[|path| - 1] == fileType[|fileType| - 1];
      assert shorter + [fileType[|fileType| - 1]] == fileType;
    }
  }

  /** For such a file type, post-processing is dispatched exactly when the
      declared type is the JSON extension. */
  lemma DispatchFollowsFileType(id: string, fileType: string, jsonExt: string)
    requires fileType != "" && fileType[0] == '.'
    requires forall k :: 0 < k < |fileType| ==> fileType[k] != '.' && fileType[k] != '/'
    ensures Ext(StoredName(id, fileType)) == jsonExt <==> fileType == jsonExt
  {
    ExtOfStoredName(id, fileType);
  }

  /** The service: a thin layer over one repository. */
  class UploadService {
    const repo: Registry

    constructor (repo: Registry)
      ensures this.repo == repo
    {
      this.repo := repo;
    }

    /** Init: generates the name (the injected `id` stands for
        uuid.NewRandom, None for its failure) and opens it in the repository. */
    method Init(fileType: string, id: Option<string>, openOk: bool) returns (filename: string, err: Option<Error>)
      requires repo.Valid()
      modifies repo
      ensures repo.Valid() && repo.processed == old(repo.processed)
      ensures id.None? ==>
        && filename == "" && err == Some(NameGenFailed)
        && repo.uploads == old(repo.uploads) && repo.open == old(repo.open)
        && repo.history == old(repo.history)
      ensures id.Some? ==>
        var name := StoredName(id.value, fileType);
        && repo.history == old(repo.history) + [InitOp(name)]
        && if name in old(repo.open) || openOk then
             && filename == name && err == None
             && repo.open == old(repo.open) + {name}
             && repo.uploads == old(repo.uploads)[name := OnDisk(old(repo.uploads), name)]
           else
             && filename == "" && err == Some(CreateFailed(name))
             && repo.open == old(repo.open) && repo.uploads == old(repo.uploads)
    {
      if id.None? {
        return "", Some(NameGenFailed);
      }
      filename := StoredName(id.value, fileType);
      err := repo.Init(filename, openOk);
      if err.Some? {
        return "", err;
      }
    }

    /** SaveChunk: passes the call through to the repository unchanged. */
    method SaveChunk(filename: string, chunk: seq<byte>, writeOk: bool) returns (err: Option<Error>)
      requires repo.Valid()
      modifies repo
      ensures repo.Valid()
      ensures repo.open == old(repo.open) && repo.processed == old(repo.processed)
      ensures repo.history == old(repo.history) + [SaveOp(filename, chunk)]
      ensures filename !in repo.open ==> err == Some(NotFound) && repo.uploads == old(repo.uploads)
      ensures filename in repo.open && !writeOk ==> err == Some(SaveFailed) && repo.uploads == old(repo.uploads)
      ensures filename in repo.open && writeOk ==>
        err == None && repo.uploads == old(repo.uploads)[filename := old(repo.uploads)[filename] + chunk]
    {
      err := repo.SaveChunk(filename, chunk, writeOk);
    }

    /** Close: closes the repository entry first, then reports whether JSON
        post-processing is dispatched for the file (the detached goroutine
        itself is not modelled). */
    method Close(filename: string, jsonExt: string) returns (dispatched: bool)
      requires repo.Valid()
      modifies repo
      ensures repo.Valid()
      ensures repo.open == old(repo.open) - {filename}
      ensures repo.uploads == old(repo.uploads) && repo.processed == old(repo.processed)
      ensures repo.history == old(repo.history) + [CloseOp(filename)]
      ensures dispatched <==> Ext(filename) == jsonExt
    {
      repo.Close(filename);
      dispatched := Ext(filename) == jsonExt;
    }
  }
}
