/** The client half of the delta protocol (cmd/mcp/main.go). */
module Client {
  import opened Domain
  import opened Text
  import opened State
  import opened MemoryStore
  import opened Archive
  import opened Service

  /** clientState: the last acknowledged checkpoint and the path -> blob name
      mapping it covers. */
  datatype ClientState = ClientState(checkpointID: string, blobs: map<string, string>)

  const FRESH := ClientState("", map[])

  /** Walking a directory tree yields each path once. */
  ghost predicate DistinctPaths(files: seq<FileInput>) {
    forall i, j :: 0 <= i < j < |files| ==> files[i].path != files[j].path
  }

  function Current(cfg: Config, files: seq<FileInput>): map<string, string> {
    if files == [] then map[]
    else
      var last := files[|files| - 1];
      Current(cfg, files[..|files| - 1])[last.path := BlobName(cfg, last)]
  }

  /** The name saved for a path; Go's zero string when there is none. */
  function Saved(blobs: map<string, string>, path: string): string {
    if path in blobs then blobs[path] else ""
  }

  /** The files whose name differs from the saved one. */
  function Changed(cfg: Config, files: seq<FileInput>, blobs: map<string, string>): seq<FileInput> {
    if files == [] then []
    else
      var last := files[|files| - 1];
      Changed(cfg, files[..|files| - 1], blobs)
      + if Saved(blobs, last.path) != BlobName(cfg, last) then [last] else []
  }

  /** The saved names no current file has. */
  function Stale(cfg: Config, files: seq<FileInput>, blobs: map<string, string>): set<string> {
    blobs.Values - Elements(FileNames(cfg, files))
  }

  /** searchDelta: upload what changed, then retrieve with the delta. */
  ghost function Attempt(cfg: Config, st: Store, user: string, ws: Workspace, files: seq<FileInput>, cs: ClientState,
                         jobID: string): (Store, Option<ClientState>)
  {
    var changed := Changed(cfg, files, cs.blobs);
    var s := if changed == [] then st else Uploaded(cfg, st, changed);
    match Retrieved(cfg, s, user, cs.checkpointID, Elements(FileNames(cfg, changed)), Stale(cfg, files, cs.blobs), ws, jobID)
    case Gone => (s, None)
    case Resolved(id, s') => (s', Some(ClientState(id, Current(cfg, files))))
  }

  /** search: on 410 forget the saved state and start over. */
  ghost function Searched(cfg: Config, st: Store, user: string, ws: Workspace, files: seq<FileInput>, cs: ClientState,
                          jobID: string): (Store, Option<ClientState>)
  {
    var first := Attempt(cfg, st, user, ws, files, cs, jobID);
    if first.1.Some? then first else Attempt(cfg, first.0, user, ws, files, FRESH, jobID)
  }

  lemma {:induction false} CurrentAt(cfg: Config, files: seq<FileInput>)
    requires DistinctPaths(files)
    ensures forall p :: p in Current(cfg, files) ==> exists i :: 0 <= i < |files| && files[i].path == p
    ensures forall i :: 0 <= i < |files| ==> files[i].path in Current(cfg, files) &&
                                             Current(cfg, files)[files[i].path] == BlobName(cfg, files[i])
  {
    if files != [] {
      var init := files[..|files| - 1];
      CurrentAt(cfg, init);
      assert forall i :: 0 <= i < |init| ==> init[i] == files[i];
    }
  }

  lemma CurrentValues(cfg: Config, files: seq<FileInput>)
    requires DistinctPaths(files)
    ensures Current(cfg, files).Values == Elements(FileNames(cfg, files))
  {
    CurrentAt(cfg, files);
    var m, names := Current(cfg, files), FileNames(cfg, files);
    forall v ensures v in m.Values <==> v in Elements(names) {
      if v in m.Values {
        var p :| p in m && m[p] == v;
        var i :| 0 <= i < |files| && files[i].path == p;
        assert names[i] == v;
      }
      if v in names {
        var i :| 0 <= i < |names| && names[i] == v;
        assert m[files[i].path] == v;
      }
    }
  }

  lemma {:induction false} ChangedNames(cfg: Config, files: seq<FileInput>, blobs: map<string, string>)
    ensures forall f :: f in Changed(cfg, files, blobs) <==> f in files && Saved(blobs, f.path) != BlobName(cfg, f)
  {
    if files != [] {
      var init, last := files[..|files| - 1], files[|files| - 1];
      ChangedNames(cfg, init, blobs);
      assert files == init + [last];
    }
  }

  /** The delta is exact: taking the stale names out of the saved ones and adding
      the changed ones gives the names of the current files. */
  lemma DeltaExact(cfg: Config, files: seq<FileInput>, blobs: map<string, string>)
    requires forall f :: f in files ==> BlobName(cfg, f) != ""
    ensures blobs.Values - Stale(cfg, files, blobs) + Elements(FileNames(cfg, Changed(cfg, files, blobs)))
            == Elements(FileNames(cfg, files))
  {
    var changed, now := Changed(cfg, files, blobs), Elements(FileNames(cfg, files));
    ChangedNames(cfg, files, blobs);
    var r := blobs.Values - Stale(cfg, files, blobs) + Elements(FileNames(cfg, changed));
    forall n | n in r ensures n in now {
      if n in FileNames(cfg, changed) {
        var i :| 0 <= i < |changed| && BlobName(cfg, changed[i]) == n;
        assert changed[i] in files;
        var k :| 0 <= k < |files| && files[k] == changed[i];
        assert FileNames(cfg, files)[k] == n;
      }
    }
    forall n | n in now ensures n in r {
      var k :| 0 <= k < |files| && FileNames(cfg, files)[k] == n;
      var f := files[k];
      if f in changed {
        var i :| 0 <= i < |changed| && changed[i] == f;
        assert FileNames(cfg, changed)[i] == n;
      } else {
        assert blobs[f.path] == n;
      }
    }
  }

  /** One workspace's client: the state it keeps on disk. */
  class McpClient {
    const user: string
    var saved: ClientState

    constructor (user: string)
      ensures saved == FRESH && this.user == user
    {
      this.user := user;
      saved := FRESH;
    }

    method SearchDelta(cfg: Config, src: Source, mem: Memory, ws: Workspace, files: seq<FileInput>, cs: ClientState, jobID: string)
      returns (next: Option<ClientState>)
      requires IndexesBy(cfg, src) && DistinctPaths(files)
      modifies mem
      ensures (mem.View(), next) == Attempt(cfg, old(mem.View()), user, ws, files, cs, jobID)
    {
      var current: map<string, string> := map[];
      var added: seq<FileInput> := [];
      for i := 0 to |files|
        invariant current == Current(cfg, files[..i])
        invariant added == Changed(cfg, files[..i], cs.blobs)
      {
        var name := BlobName(cfg, files[i]);
        assert files[..i + 1][..i] == files[..i];
        current := current[files[i].path := name];
        if Saved(cs.blobs, files[i].path) != name { added := added + [files[i]]; }
      }
      assert files[..|files|] == files;
      var deleted := StaleNames(cs.blobs, current);
      CurrentValues(cfg, files);
      var addedNames := Sort(FileNames(cfg, added));
      SortElements(FileNames(cfg, added));
      if |added| > 0 { var _ := UploadBlobs(cfg, src, mem, added); }
      var id := Retrieval(cfg, mem, user, cs.checkpointID, addedNames, deleted, ws, jobID);
      next := if id.None? then None else Some(ClientState(id.value, current));
    }

    method StaleNames(known: map<string, string>, current: map<string, string>) returns (deleted: seq<string>)
      ensures Elements(deleted) == known.Values - current.Values
    {
      deleted := [];
      var rest, done := known.Keys, {};
      while rest != {}
        invariant rest !! done && rest + done == known.Keys
        invariant forall n :: n in deleted <==> n !in current.Values && exists p :: p in done && known[p] == n
      {
        var p :| p in rest;
        if known[p] !in current.Values { deleted := deleted + [known[p]]; }
        rest, done := rest - {p}, done + {p};
      }
      SortElements(deleted);
      deleted := Sort(deleted);
    }

    /** search: the state advances only when a response arrives. */
    method Search(cfg: Config, src: Source, mem: Memory, ws: Workspace, files: seq<FileInput>, jobID: string) returns (ok: bool)
      requires IndexesBy(cfg, src) && DistinctPaths(files)
      modifies this, mem
      ensures var r := Searched(cfg, old(mem.View()), user, ws, files, old(saved), jobID);
              && mem.View() == r.0 && ok == r.1.Some? && saved == if ok then r.1.value else old(saved)
    {
      var next := SearchDelta(cfg, src, mem, ws, files, saved, jobID);
      if next.None? { next := SearchDelta(cfg, src, mem, ws, files, FRESH, jobID); }
      ok := next.Some?;
      if ok { saved := next.value; }
    }
  }
}
