/** Which row an upload lands in and which rows fold into it
    (internal/indexer/aceproject.go). */
module Archive {
  import opened Domain
  import opened Text
  import opened State
  import opened MemoryStore
  import opened SourceLines

  const MAX_NAME := 128

  /** What a client reports about its workspace. */
  datatype Workspace = Workspace(name: string, branch: string, worktree: bool, git: bool)

  function TrimRight(s: string): string {
    if s != [] && IsSpace(s[|s| - 1]) then TrimRight(s[..|s| - 1]) else s
  }

  /** clipName. */
  function Clip(v: string): string {
    var t := TrimRight(TrimLeft(v));
    if |t| > MAX_NAME then t[..MAX_NAME] else t
  }

  const AUTO := "project-"

  /** isAutoName: the name was minted from a checkpoint id, or looks so. */
  predicate IsAuto(name: string) {
    AUTO <= name
  }

  /** The name minted for a snapshot nobody named. */
  function Minted(id: string): string {
    var short := if "ckpt_" <= id then id[5..] else id;
    AUTO + if |short| > 8 then short[..8] else short
  }

  // ----------------------------------------------------------------- matching

  /** A matched row with the score of its overlap. */
  datatype Match = Match(score: real, name: string, branch: string)

  predicate KeyLess(a: Match, b: Match) {
    Less(a.name, b.name) || (a.name == b.name && Less(a.branch, b.branch))
  }

  /** a comes before b: closer, ties in name, branch order. */
  predicate Ranks(a: Match, b: Match) {
    a.score > b.score || (a.score == b.score && KeyLess(a, b))
  }

  lemma RanksTransitive(a: Match, b: Match, c: Match)
    requires Ranks(a, b) && Ranks(b, c)
    ensures Ranks(a, c)
  {
    if a.score == b.score == c.score {
      if Less(a.name, b.name) && Less(b.name, c.name) { LessTransitive(a.name, b.name, c.name); }
      if Less(a.branch, b.branch) && Less(b.branch, c.branch) { LessTransitive(a.branch, b.branch, c.branch); }
    }
  }

  lemma RanksTotal(a: Match, b: Match)
    ensures a == b || Ranks(a, b) || Ranks(b, a)
    ensures !(Ranks(a, b) && Ranks(b, a))
  {
    LessTotal(a.name, b.name);
    LessTotal(a.branch, b.branch);
    LessIrreflexive(a.name);
    LessIrreflexive(a.branch);
    if Less(a.name, b.name) { LessAsymmetric(a.name, b.name); }
    if Less(a.branch, b.branch) { LessAsymmetric(a.branch, b.branch); }
  }

  /** The score of one row against the new snapshot: 2 for the same snapshot,
      otherwise the shared part of the smaller side; nothing below one half. */
  function Score(st: Store, rowSnapshot: string, id: string): Option<real> {
    if rowSnapshot == id then Some(2.0)
    else if rowSnapshot !in st.snapshots then None
    else
      var names, target := st.snapshots[rowSnapshot].blobNames, Elements(NamesOf(st, id));
      var smaller := if |target| < |names| then |target| else |names|;
      if smaller == 0 then None
      else
        var score := Shared(names, target) as real / smaller as real;
        if score >= 0.5 then Some(score) else None
  }

  predicate Matches(st: Store, user: string, id: string, m: Match) {
    var key := RowKey(user, m.name, m.branch);
    id in st.snapshots && key in st.projects && Score(st, st.projects[key].snapshotID, id) == Some(m.score)
  }

  /** matchingACEProjects, as a set; the list is this set in rank order. */
  ghost function MatchSet(st: Store, user: string, id: string): (r: set<Match>)
    ensures forall m :: m in r <==> Matches(st, user, id, m)
  {
    if id !in st.snapshots then {}
    else
      var r := set k | k in st.projects && k.user == user && Score(st, st.projects[k].snapshotID, id).Some?
                     :: Match(Score(st, st.projects[k].snapshotID, id).value, k.name, k.branch);
      MatchesListed(st, user, id, r);
      r
  }

  lemma MatchesListed(st: Store, user: string, id: string, r: set<Match>)
    requires id in st.snapshots
    requires r == set k | k in st.projects && k.user == user && Score(st, st.projects[k].snapshotID, id).Some?
                        :: Match(Score(st, st.projects[k].snapshotID, id).value, k.name, k.branch)
    ensures forall m :: m in r <==> Matches(st, user, id, m)
  {
    forall m | Matches(st, user, id, m) ensures m in r {
      var key := RowKey(user, m.name, m.branch);
      assert key in st.projects && Score(st, st.projects[key].snapshotID, id).Some?;
    }
  }

  /** In rank order: sort.SliceStable leaves exactly this, the order being strict
      and total. */
  ghost predicate Ranked(ms: seq<Match>) {
    forall i, j :: 0 <= i < j < |ms| ==> Ranks(ms[i], ms[j])
  }

  function InsertMatch(m: Match, ms: seq<Match>): seq<Match> {
    if ms == [] || Ranks(m, ms[0]) then [m] + ms else [ms[0]] + InsertMatch(m, ms[1..])
  }

  lemma {:induction false} InsertRanked(m: Match, ms: seq<Match>)
    requires Ranked(ms) && m !in ms
    ensures Ranked(InsertMatch(m, ms))
    ensures forall x :: x in InsertMatch(m, ms) <==> x == m || x in ms
  {
    var r := InsertMatch(m, ms);
    if ms == [] {
    } else if Ranks(m, ms[0]) {
      forall i, j | 0 <= i < j < |r| ensures Ranks(r[i], r[j]) {
        if i == 0 && j > 1 { RanksTransitive(m, ms[0], ms[j - 1]); }
      }
    } else {
      RanksTotal(m, ms[0]);
      InsertRanked(m, ms[1..]);
      var t := InsertMatch(m, ms[1..]);
      assert ms == [ms[0]] + ms[1..];
      forall i, j | 0 <= i < j < |r| ensures Ranks(r[i], r[j]) {
        if i == 0 {
          assert t[j - 1] in t;
        } else {
          assert r[i] == t[i - 1] && r[j] == t[j - 1];
        }
      }
    }
  }

  // ------------------------------------------------------------------ landing

  /** Which matched rows a client without full git facts may adopt. */
  datatype Filter = AnyRow | NamedRow | BranchRow

  predicate Admits(f: Filter, m: Match) {
    match f
    case AnyRow => true
    case NamedRow => !IsAuto(m.name)
    case BranchRow => m.branch != ""
  }

  /** m is the closest match the filter admits. */
  ghost predicate IsClosest(s: set<Match>, f: Filter, m: Match) {
    m in s && Admits(f, m) && forall x :: x in s && Admits(f, x) && x != m ==> Ranks(m, x)
  }

  lemma ClosestUnique(s: set<Match>, f: Filter, a: Match, b: Match)
    requires IsClosest(s, f, a) && IsClosest(s, f, b)
    ensures a == b
  {
    RanksTotal(a, b);
  }

  lemma {:induction false} ClosestExists(s: set<Match>, f: Filter) returns (m: Match)
    requires exists x :: x in s && Admits(f, x)
    ensures IsClosest(s, f, m)
    decreases |s|
  {
    m :| m in s && Admits(f, m);
    var rest := s - {m};
    if exists x :: x in rest && Admits(f, x) {
      var n := ClosestExists(rest, f);
      RanksTotal(m, n);
      if Ranks(n, m) {
        m := n;
      } else {
        forall x | x in s && Admits(f, x) && x != m ensures Ranks(m, x) {
          if x != n { RanksTransitive(m, n, x); }
        }
      }
    }
  }

  ghost function Closest(s: set<Match>, f: Filter): (r: Option<Match>)
    ensures r.None? <==> forall x :: x in s ==> !Admits(f, x)
    ensures r.Some? ==> IsClosest(s, f, r.value)
  {
    if exists x :: x in s && Admits(f, x) then
      assert exists m :: IsClosest(s, f, m) by { var m := ClosestExists(s, f); }
      var m :| IsClosest(s, f, m);
      Some(m)
    else None
  }

  /** The row an upload lands in. */
  datatype Landing = Landing(name: string, branch: string, worktree: bool)

  /** The landing a client asks for with what it reports. */
  function Reported(ws: Workspace): Landing {
    Landing(Clip(ws.name), if ws.git then Clip(ws.branch) else "", ws.git && ws.worktree)
  }

  function Adopt(st: Store, user: string, m: Option<Match>, otherwise: Landing): Landing {
    if m.None? then otherwise
    else
      var key := RowKey(user, m.value.name, m.value.branch);
      Landing(key.name, key.branch, key in st.projects && st.projects[key].worktree)
  }

  ghost function Landed(st: Store, user: string, id: string, ws: Workspace): Landing {
    var own, s := Reported(ws), MatchSet(st, user, id);
    if own.name == "" then
      if Closest(s, NamedRow).Some? then Adopt(st, user, Closest(s, NamedRow), own)
      else Adopt(st, user, Closest(s, AnyRow), own.(name := Minted(id)))
    else if !ws.git then Adopt(st, user, Closest(s, BranchRow), own)
    else own
  }

  /** A matched row, other than the landing, that folds into it. */
  predicate Folds(ws: Workspace, landing: Landing, m: Match) {
    !(m.name == landing.name && m.branch == landing.branch) && (IsAuto(m.name) || (ws.git && m.branch == ""))
  }

  ghost function FoldedKeys(st: Store, user: string, id: string, ws: Workspace): (r: set<RowKey>)
    ensures forall k :: k in r ==> k in st.projects && k.user == user
  {
    var landing := Landed(st, user, id, ws);
    set m | m in MatchSet(st, user, id) && Folds(ws, landing, m) :: RowKey(user, m.name, m.branch)
  }

  function Title(key: RowKey): string {
    ProjectLabel(key.name, key.branch)
  }

  /** The jobs after those of the folded rows follow to the landing's label. */
  ghost function Relabelled(jobs: map<string, Job>, user: string, from: set<RowKey>, to: string): map<string, Job> {
    map j | j in jobs ::
      if exists k :: k in from && Labelled(jobs[j], user, Title(k)) then jobs[j].(repository := to) else jobs[j]
  }

  /** ArchiveACEProject: `changed` when the request added or deleted a name. */
  ghost function Archived(st: Store, user: string, id: string, ws: Workspace, changed: bool, jobID: string): Store {
    var landing, folded := Landed(st, user, id, ws), FoldedKeys(st, user, id, ws);
    var key := RowKey(user, landing.name, landing.branch);
    var jobs := Relabelled(st.jobs, user, folded, Title(key));
    st.(projects := (st.projects - folded)[key := Row(landing.worktree, id)],
        jobs := if changed then jobs[jobID := Job(user, Title(key), "")] else jobs)
  }

  // --------------------------------------------------------------- properties

  /** Archival folds only what it should. One row, the landing, holds the new
      snapshot; the rows that go are exactly the other matched rows that are
      auto-named or, for a git-aware client, branch-less; every other row stays
      as it was; and no job is lost. */
  lemma ArchivalFolds(st: Store, user: string, id: string, ws: Workspace, changed: bool, jobID: string)
    requires jobID !in st.jobs
    ensures var st', l := Archived(st, user, id, ws, changed, jobID), Landed(st, user, id, ws);
            var key := RowKey(user, l.name, l.branch);
            && key in st'.projects && st'.projects[key] == Row(l.worktree, id)
            && (forall k :: k in st.projects && k !in st'.projects <==>
                  k in st.projects && k != key && k.user == user &&
                  (exists m :: Matches(st, user, id, m) && RowKey(user, m.name, m.branch) == k) &&
                  (IsAuto(k.name) || (ws.git && k.branch == "")))
            && (forall k :: k in st'.projects && k != key ==> k in st.projects && st'.projects[k] == st.projects[k])
            && st'.jobs.Keys == st.jobs.Keys + if changed then {jobID} else {}
  {
    var l, folded := Landed(st, user, id, ws), FoldedKeys(st, user, id, ws);
    var key := RowKey(user, l.name, l.branch);
    forall k | k in st.projects
      ensures k in folded <==> (k != key && k.user == user &&
                                (exists m :: Matches(st, user, id, m) && RowKey(user, m.name, m.branch) == k) &&
                                (IsAuto(k.name) || (ws.git && k.branch == "")))
    {
      if m :| Matches(st, user, id, m) && RowKey(user, m.name, m.branch) == k {
        assert m in MatchSet(st, user, id);
        assert Folds(ws, l, m) ==> k in folded;
      }
    }
    assert key !in folded;
  }

  /** A branch row goes exactly when it is a matched row of the user, is not the
      landing, and has a name of the auto-minted form. */
  lemma BranchRowGoes(st: Store, user: string, id: string, ws: Workspace, changed: bool, jobID: string, k: RowKey)
    requires jobID !in st.jobs && k in st.projects && k.branch != ""
    ensures var l := Landed(st, user, id, ws);
            k !in Archived(st, user, id, ws, changed, jobID).projects <==>
            && k.user == user && IsAuto(k.name) && !(k.name == l.name && k.branch == l.branch)
            && exists m :: Matches(st, user, id, m) && RowKey(user, m.name, m.branch) == k
  {
    ArchivalFolds(st, user, id, ws, changed, jobID);
  }

  /** No client version collapses a branch row somebody named: a row with a
      branch and a name that is not of the auto-minted form is never removed by
      an archival. */
  lemma BranchRowsSurvive(st: Store, user: string, id: string, ws: Workspace, changed: bool, jobID: string, k: RowKey)
    requires jobID !in st.jobs && k in st.projects && k.branch != "" && !IsAuto(k.name)
    ensures k in Archived(st, user, id, ws, changed, jobID).projects
  {
    BranchRowGoes(st, user, id, ws, changed, jobID, k);
  }

  /** A branch row somebody called "project-x" goes when a client with git facts
      archives the same snapshot from its directory "repo". */
  lemma NamedBranchRowLost(st: Store, user: string, id: string, changed: bool, jobID: string)
    requires var k := RowKey(user, "project-x", "main");
             jobID !in st.jobs && id in st.snapshots && k in st.projects && st.projects[k].snapshotID == id
    ensures var ws, k := Workspace("repo", "main", false, true), RowKey(user, "project-x", "main");
            k !in Archived(st, user, id, ws, changed, jobID).projects
  {
    var ws, k := Workspace("repo", "main", false, true), RowKey(user, "project-x", "main");
    assert Clip("repo") == "repo";
    assert Matches(st, user, id, Match(2.0, "project-x", "main"));
    assert RowKey(user, "project-x", "main") == k;
    BranchRowGoes(st, user, id, ws, changed, jobID, k);
  }

  /** A client that reports no name never adds a row as long as one of its rows
      matches. */
  lemma NamelessAddsNoRow(st: Store, user: string, id: string, ws: Workspace, changed: bool, jobID: string, m: Match)
    requires jobID !in st.jobs && Clip(ws.name) == "" && Matches(st, user, id, m)
    ensures Archived(st, user, id, ws, changed, jobID).projects.Keys <= st.projects.Keys
  {
    ArchivalFolds(st, user, id, ws, changed, jobID);
    assert m in MatchSet(st, user, id) && Admits(AnyRow, m);
  }

  // ----------------------------------------------- the rules, without the functions

  /** A row matches on the same snapshot, with score 2, or when at least half of the
      names of the smaller one of its and the new snapshot are shared, with that part. */
  lemma MatchesByHalf(st: Store, user: string, id: string, m: Match)
    requires id in st.snapshots && RowKey(user, m.name, m.branch) in st.projects
    requires NoDuplicates(NamesOf(st, st.projects[RowKey(user, m.name, m.branch)].snapshotID))
    ensures var own := st.projects[RowKey(user, m.name, m.branch)].snapshotID;
            var names := if own in st.snapshots then set n | n in st.snapshots[own].blobNames else {};
            var target := set n | n in st.snapshots[id].blobNames;
            var smaller := if |target| < |names| then |target| else |names|;
            Matches(st, user, id, m) <==>
            if own == id then m.score == 2.0
            else smaller > 0 && 2 * |names * target| >= smaller && m.score == |names * target| as real / smaller as real
  {
    var own := st.projects[RowKey(user, m.name, m.branch)].snapshotID;
    var target := Elements(NamesOf(st, id));
    assert target == set n | n in st.snapshots[id].blobNames;
    if own in st.snapshots {
      var names := st.snapshots[own].blobNames;
      SharedIsIntersection(names, target);
      assert Elements(names) == set n | n in names;
      var smaller := if |target| < |names| then |target| else |names|;
      if smaller > 0 { HalfAsReal(Shared(names, target), smaller); }
    }
  }

  lemma HalfAsReal(a: nat, b: nat)
    requires b > 0
    ensures a as real / b as real >= 0.5 <==> 2 * a >= b
  {
  }

  /** A named client with git facts lands in the row of its name and branch, trimmed and
      clipped, with its own worktree flag. */
  lemma GitLanding(st: Store, user: string, id: string, ws: Workspace)
    requires ws.git && Clip(ws.name) != ""
    ensures var l := Landed(st, user, id, ws); l.name == Clip(ws.name) && l.branch == Clip(ws.branch) && l.worktree == ws.worktree
  {
  }

  /** The row of one of the matches. */
  ghost predicate AtMatch(st: Store, user: string, l: Landing, m: Match) {
    var key := RowKey(user, m.name, m.branch);
    l.name == m.name && l.branch == m.branch && key in st.projects && l.worktree == st.projects[key].worktree
  }

  /** No other match that p admits is closer, or as close and earlier by name and branch. */
  ghost predicate Nearest(st: Store, user: string, id: string, m: Match, p: Match -> bool) {
    && Matches(st, user, id, m) && p(m)
    && forall x :: Matches(st, user, id, x) && p(x) && x != m ==>
         x.score < m.score || (x.score == m.score &&
           (Less(m.name, x.name) || (m.name == x.name && Less(m.branch, x.branch))))
  }

  lemma NearestIsClosest(st: Store, user: string, id: string, f: Filter)
    ensures var p := (x: Match) => Admits(f, x);
            match Closest(MatchSet(st, user, id), f)
            case None => forall x :: Matches(st, user, id, x) ==> !p(x)
            case Some(m) => Nearest(st, user, id, m, p)
  {
    var s, p := MatchSet(st, user, id), (x: Match) => Admits(f, x);
    var r := Closest(s, f);
    if r.Some? {
      forall x | Matches(st, user, id, x) && p(x) && x != r.value ensures Ranks(r.value, x) { assert x in s; }
    } else {
      forall x | Matches(st, user, id, x) ensures !p(x) { assert x in s; }
    }
  }

  /** A named client without git facts lands in the nearest match that has a branch, or
      else in the branch-less row of its name, which is then no worktree. */
  lemma PlainLanding(st: Store, user: string, id: string, ws: Workspace)
    requires !ws.git && Clip(ws.name) != ""
    ensures var l, p := Landed(st, user, id, ws), (x: Match) => x.branch != "";
            if forall x :: Matches(st, user, id, x) ==> !p(x) then l == Landing(Clip(ws.name), "", false)
            else exists m :: Nearest(st, user, id, m, p) && AtMatch(st, user, l, m)
  {
    var p, r := (x: Match) => x.branch != "", Closest(MatchSet(st, user, id), BranchRow);
    NearestIsClosest(st, user, id, BranchRow);
    if r.Some? { assert Nearest(st, user, id, r.value, p) && AtMatch(st, user, Landed(st, user, id, ws), r.value); }
  }

  /** A client without a name lands in the nearest match whose name does not start with
      "project-", else in the nearest match, else in a row minted for the checkpoint. */
  lemma NamelessLanding(st: Store, user: string, id: string, ws: Workspace)
    requires Clip(ws.name) == ""
    ensures var l := Landed(st, user, id, ws);
            var named, any := (x: Match) => !("project-" <= x.name), (x: Match) => true;
            if !(forall x :: Matches(st, user, id, x) ==> !named(x)) then
              exists m :: Nearest(st, user, id, m, named) && AtMatch(st, user, l, m)
            else if !(forall x :: Matches(st, user, id, x) ==> !any(x)) then
              exists m :: Nearest(st, user, id, m, any) && AtMatch(st, user, l, m)
            else l.name == Minted(id) && l.branch == (if ws.git then Clip(ws.branch) else "") && l.worktree == (ws.git && ws.worktree)
  {
    var s := MatchSet(st, user, id);
    var l, a, b := Landed(st, user, id, ws), Closest(s, NamedRow), Closest(s, AnyRow);
    var named, any := (x: Match) => !("project-" <= x.name), (x: Match) => true;
    NearestIsClosest(st, user, id, NamedRow);
    NearestIsClosest(st, user, id, AnyRow);
    if a.Some? {
      assert Nearest(st, user, id, a.value, named) && AtMatch(st, user, l, a.value);
    } else if b.Some? {
      assert Nearest(st, user, id, b.value, any) && AtMatch(st, user, l, b.value);
    }
  }

  /** A minted name is "project-" and the first eight digits of the checkpoint's hash. */
  lemma MintedIsPrefix(digest: string)
    requires |digest| >= 8
    ensures Minted("ckpt_" + digest) == "project-" + digest[..8]
  {
    assert ("ckpt_" + digest)[5..] == digest;
  }

  lemma {:induction false} TrimLeftIs(s: string) returns (k: nat)
    ensures k <= |s| && TrimLeft(s) == s[k..] && (forall i :: 0 <= i < k ==> IsSpace(s[i])) && (k < |s| ==> !IsSpace(s[k]))
  {
    k := 0;
    if s != "" && IsSpace(s[0]) {
      k := TrimLeftIs(s[1..]);
      assert s[1..][k..] == s[k + 1..];
      assert forall i :: 0 < i < k + 1 ==> s[i] == s[1..][i - 1];
      k := k + 1;
    }
  }

  lemma {:induction false} TrimRightIs(s: string) returns (k: nat)
    ensures k <= |s| && TrimRight(s) == s[..k] && (forall i :: k <= i < |s| ==> IsSpace(s[i])) && (k > 0 ==> !IsSpace(s[k - 1]))
  {
    k := |s|;
    if s != "" && IsSpace(s[|s| - 1]) {
      var init := s[..|s| - 1];
      k := TrimRightIs(init);
      assert init[..k] == s[..k];
      assert forall i :: 0 <= i < |init| ==> init[i] == s[i];
    }
  }

  /** A name is cut at white space on both sides and to 128 characters; nothing else
      of it is lost. */
  lemma ClipIs(v: string) returns (i: nat, j: nat)
    ensures i <= j <= |v| && Clip(v) == v[i..if j - i > 128 then i + 128 else j]
    ensures (forall k :: 0 <= k < i || j <= k < |v| ==> IsSpace(v[k])) && (i < j ==> !IsSpace(v[i]) && !IsSpace(v[j - 1]))
  {
    i := TrimLeftIs(v);
    var k := TrimRightIs(v[i..]);
    j := i + k;
    assert v[i..][..k] == v[i..j];
    assert forall x :: 0 <= x < |v[i..]| ==> v[i..][x] == v[i + x];
    assert forall x :: j <= x < |v| ==> v[x] == v[i..][x - i];
    if j - i > 128 { assert v[i..j][..128] == v[i..i + 128]; }
  }

  /** The activity jobs of a removed row follow to the landing's label; every other job,
      and every job of another user or of a repository, stays as it was. */
  lemma JobsFollow(st: Store, user: string, id: string, ws: Workspace, changed: bool, jobID: string, j: string)
    requires jobID !in st.jobs && j in st.jobs
    ensures var t, l := Archived(st, user, id, ws, changed, jobID), Landed(st, user, id, ws);
            && j in t.jobs && t.jobs[j].owner == st.jobs[j].owner && t.jobs[j].repositoryID == st.jobs[j].repositoryID
            && t.jobs[j].repository ==
               if st.jobs[j].owner == user && st.jobs[j].repositoryID == "" &&
                  exists k :: k in st.projects && k !in t.projects && LabelOf(k) == st.jobs[j].repository
               then LabelOf(RowKey(user, l.name, l.branch)) else st.jobs[j].repository
  {
    ArchivalFolds(st, user, id, ws, changed, jobID);
    FoldedAreGone(st, user, id, ws, changed, jobID);
  }

  /** The job an archival records is the user's, under the label of the landing. */
  lemma JobRecorded(st: Store, user: string, id: string, ws: Workspace, jobID: string)
    ensures var t, l := Archived(st, user, id, ws, true, jobID), Landed(st, user, id, ws);
            jobID in t.jobs && t.jobs[jobID].owner == user && t.jobs[jobID].repositoryID == "" &&
            t.jobs[jobID].repository == LabelOf(RowKey(user, l.name, l.branch))
  {
  }

  function LabelOf(k: RowKey): string { if k.branch == "" then k.name else k.name + " (" + k.branch + ")" }

  lemma FoldedAreGone(st: Store, user: string, id: string, ws: Workspace, changed: bool, jobID: string)
    requires jobID !in st.jobs
    ensures forall k :: k in FoldedKeys(st, user, id, ws) <==>
              k in st.projects && k !in Archived(st, user, id, ws, changed, jobID).projects
  {
    var l := Landed(st, user, id, ws);
    var key, folded := RowKey(user, l.name, l.branch), FoldedKeys(st, user, id, ws);
    assert key !in folded;
  }

  lemma ArchiveKeepsOthers(st: Store, user: string, id: string, ws: Workspace, changed: bool, jobID: string)
    ensures var t := Archived(st, user, id, ws, changed, jobID);
            forall k: RowKey :: k.user != user ==>
              (k in t.projects <==> k in st.projects) && (k in st.projects && k in t.projects ==> t.projects[k] == st.projects[k])
  {
  }

  // ---------------------------------------------------- archiving the same again

  lemma {:induction false} SharedBounded(names: seq<string>, target: set<string>)
    requires NoDuplicates(names)
    ensures Shared(names, target) <= |names| && Shared(names, target) <= |target|
  {
    SharedIsIntersection(names, target);
    var both, e := Elements(names) * target, Elements(names);
    assert target == both + (target - both) && e == both + (e - both);
  }

  /** The user's rows point at checkpoints, which list each name once. */
  ghost predicate RowsListOnce(st: Store) {
    forall k :: k in st.projects ==> NoDuplicates(NamesOf(st, st.projects[k].snapshotID))
  }

  lemma PartAtMostWhole(a: nat, b: nat)
    requires a <= b && b > 0
    ensures a as real / b as real <= 1.0
  {
  }

  /** No overlap scores above the score of the same snapshot. */
  lemma ScoreBounded(st: Store, rowSnapshot: string, id: string)
    requires NoDuplicates(NamesOf(st, rowSnapshot))
    ensures Score(st, rowSnapshot, id).Some? ==> Score(st, rowSnapshot, id).value <= 2.0
  {
    if rowSnapshot != id && rowSnapshot in st.snapshots {
      var names, target := st.snapshots[rowSnapshot].blobNames, Elements(NamesOf(st, id));
      SharedBounded(names, target);
      var smaller := if |target| < |names| then |target| else |names|;
      if smaller > 0 { PartAtMostWhole(Shared(names, target), smaller); }
    }
  }

  /** After an archival the landing matches best of all; of the other rows, those
      match that matched before and did not fold. */
  lemma MatchesAfter(st: Store, user: string, id: string, ws: Workspace, changed: bool, jobID: string, m: Match)
    requires id in st.snapshots && jobID !in st.jobs
    ensures var st', l := Archived(st, user, id, ws, changed, jobID), Landed(st, user, id, ws);
            Matches(st', user, id, m) <==>
            if m.name == l.name && m.branch == l.branch then m.score == 2.0
            else Matches(st, user, id, m) && RowKey(user, m.name, m.branch) !in FoldedKeys(st, user, id, ws)
  {
    var st', l := Archived(st, user, id, ws, changed, jobID), Landed(st, user, id, ws);
    var key, landing := RowKey(user, m.name, m.branch), RowKey(user, l.name, l.branch);
    if key != landing && key in st.projects && key in st'.projects {
      assert Score(st', st'.projects[key].snapshotID, id) == Score(st, st.projects[key].snapshotID, id);
    }
  }

  /** A closest match stays closest when it becomes the landing. */
  lemma LandingStaysClosest(st: Store, user: string, id: string, ws: Workspace, changed: bool, jobID: string,
                            f: Filter, m: Match)
    requires id in st.snapshots && jobID !in st.jobs && RowsListOnce(st)
    requires IsClosest(MatchSet(st, user, id), f, m)
    requires Landed(st, user, id, ws).name == m.name && Landed(st, user, id, ws).branch == m.branch
    ensures Closest(MatchSet(Archived(st, user, id, ws, changed, jobID), user, id), f) == Some(m.(score := 2.0))
  {
    var st' := Archived(st, user, id, ws, changed, jobID);
    var s', top := MatchSet(st', user, id), m.(score := 2.0);
    MatchesAfter(st, user, id, ws, changed, jobID, top);
    ScoreBounded(st, st.projects[RowKey(user, m.name, m.branch)].snapshotID, id);
    forall x | x in s' && Admits(f, x) && x != top ensures Ranks(top, x) {
      MatchesAfter(st, user, id, ws, changed, jobID, x);
      assert x in MatchSet(st, user, id) && x != m;
      assert Ranks(m, x);
    }
    assert IsClosest(s', f, top);
    ClosestUnique(s', f, top, Closest(s', f).value);
  }

  /** No match admitted before, and a landing the filter refuses: none after. */
  lemma NoneStaysNone(st: Store, user: string, id: string, ws: Workspace, changed: bool, jobID: string, f: Filter)
    requires id in st.snapshots && jobID !in st.jobs
    requires Closest(MatchSet(st, user, id), f).None?
    requires var l := Landed(st, user, id, ws); !Admits(f, Match(2.0, l.name, l.branch))
    ensures Closest(MatchSet(Archived(st, user, id, ws, changed, jobID), user, id), f).None?
  {
    var s' := MatchSet(Archived(st, user, id, ws, changed, jobID), user, id);
    forall x | x in s' ensures !Admits(f, x) {
      MatchesAfter(st, user, id, ws, changed, jobID, x);
      assert Matches(st, user, id, x) ==> x in MatchSet(st, user, id);
    }
  }

  lemma MintedIsAuto(id: string)
    ensures IsAuto(Minted(id))
  {
  }

  /** The next archival of the same snapshot by the same client lands in the same
      row: an unedited workspace does not wander between rows. */
  lemma LandingIsStable(st: Store, user: string, id: string, ws: Workspace, changed: bool, jobID: string)
    requires id in st.snapshots && jobID !in st.jobs && RowsListOnce(st)
    ensures Landed(Archived(st, user, id, ws, changed, jobID), user, id, ws) == Landed(st, user, id, ws)
  {
    var st', own := Archived(st, user, id, ws, changed, jobID), Reported(ws);
    var s, l := MatchSet(st, user, id), Landed(st, user, id, ws);
    ArchivalFolds(st, user, id, ws, changed, jobID);
    if own.name == "" {
      MintedIsAuto(id);
      var named, any := Closest(s, NamedRow), Closest(s, AnyRow);
      if named.Some? {
        LandingStaysClosest(st, user, id, ws, changed, jobID, NamedRow, named.value);
      } else {
        if any.Some? {
          LandingStaysClosest(st, user, id, ws, changed, jobID, AnyRow, any.value);
        } else {
          MintedStaysClosest(st, user, id, ws, changed, jobID);
        }
        NoneStaysNone(st, user, id, ws, changed, jobID, NamedRow);
      }
    } else if !ws.git {
      var branch := Closest(s, BranchRow);
      if branch.Some? {
        LandingStaysClosest(st, user, id, ws, changed, jobID, BranchRow, branch.value);
      } else {
        NoneStaysNone(st, user, id, ws, changed, jobID, BranchRow);
      }
    }
  }

  /** A minted row is its snapshot's only match. */
  lemma MintedStaysClosest(st: Store, user: string, id: string, ws: Workspace, changed: bool, jobID: string)
    requires id in st.snapshots && jobID !in st.jobs && Clip(ws.name) == ""
    requires Closest(MatchSet(st, user, id), AnyRow).None?
    ensures var l := Landed(st, user, id, ws);
            Closest(MatchSet(Archived(st, user, id, ws, changed, jobID), user, id), AnyRow) ==
            Some(Match(2.0, l.name, l.branch))
  {
    var s, s' := MatchSet(st, user, id), MatchSet(Archived(st, user, id, ws, changed, jobID), user, id);
    var l := Landed(st, user, id, ws);
    var top := Match(2.0, l.name, l.branch);
    MatchesAfter(st, user, id, ws, changed, jobID, top);
    assert top in s' && Admits(AnyRow, top);
    var r := Closest(s', AnyRow).value;
    MatchesAfter(st, user, id, ws, changed, jobID, r);
    assert Matches(st, user, id, r) ==> r in s && Admits(AnyRow, r);
  }

  /** Archiving the same snapshot again changes nothing. */
  lemma ArchivalIdempotent(st: Store, user: string, id: string, ws: Workspace, changed: bool, jobID: string, jobID': string)
    requires id in st.snapshots && jobID !in st.jobs && RowsListOnce(st)
    ensures var st' := Archived(st, user, id, ws, changed, jobID);
            Archived(st', user, id, ws, false, jobID') == st'
  {
    var st', l := Archived(st, user, id, ws, changed, jobID), Landed(st, user, id, ws);
    LandingIsStable(st, user, id, ws, changed, jobID);
    forall m | m in MatchSet(st', user, id) ensures !Folds(ws, l, m) {
      MatchesAfter(st, user, id, ws, changed, jobID, m);
      assert Matches(st, user, id, m) ==> m in MatchSet(st, user, id);
    }
    var key := RowKey(user, l.name, l.branch);
    NothingFolds(st', user, id, ws);
    assert st'.projects[key := Row(l.worktree, id)] == st'.projects;
  }

  lemma NothingFolds(st: Store, user: string, id: string, ws: Workspace)
    requires forall m :: m in MatchSet(st, user, id) ==> !Folds(ws, Landed(st, user, id, ws), m)
    ensures var l := Landed(st, user, id, ws);
            Archived(st, user, id, ws, false, "") ==
            st.(projects := st.projects[RowKey(user, l.name, l.branch) := Row(l.worktree, id)])
    ensures forall jobID :: Archived(st, user, id, ws, false, jobID) == Archived(st, user, id, ws, false, "")
  {
    var l := Landed(st, user, id, ws);
    assert FoldedKeys(st, user, id, ws) == {};
    assert st.projects - {} == st.projects;
    assert Relabelled(st.jobs, user, {}, Title(RowKey(user, l.name, l.branch))) == st.jobs;
  }

  // ------------------------------------------------------------- the procedure

  /** matchingACEProjects. */
  method MatchingACEProjects(mem: Memory, user: string, id: string) returns (ms: seq<Match>)
    ensures Ranked(ms) && forall m :: m in ms <==> Matches(mem.View(), user, id, m)
  {
    ms := [];
    if id !in mem.snapshots { return; }
    var rest, done := mem.projects.Keys, {};
    while rest != {}
      invariant rest !! done && rest + done == mem.projects.Keys
      invariant Ranked(ms)
      invariant forall m :: m in ms <==> Matches(mem.View(), user, id, m) && RowKey(user, m.name, m.branch) in done
    {
      var k :| k in rest;
      if k.user == user {
        var score := ScoreRow(mem, mem.projects[k].snapshotID, id);
        if score.Some? {
          var m := Match(score.value, k.name, k.branch);
          InsertRanked(m, ms);
          ms := InsertMatch(m, ms);
        }
      }
      rest, done := rest - {k}, done + {k};
    }
  }

  method ScoreRow(mem: Memory, rowSnapshot: string, id: string) returns (r: Option<real>)
    ensures r == Score(mem.View(), rowSnapshot, id)
  {
    if rowSnapshot == id { return Some(2.0); }
    if rowSnapshot !in mem.snapshots { return None; }
    var names := mem.snapshots[rowSnapshot].blobNames;
    var target := if id in mem.snapshots then Elements(mem.snapshots[id].blobNames) else {};
    var overlap := mem.CountShared(names, target);
    var smaller := |names|;
    if |target| < smaller { smaller := |target|; }
    if smaller == 0 { return None; }
    var score := overlap as real / smaller as real;
    return if score >= 0.5 then Some(score) else None;
  }

  /** The adopt closure: the first match the filter keeps. */
  method FirstAdmitted(ms: seq<Match>, f: Filter, ghost s: set<Match>) returns (r: Option<Match>)
    requires Ranked(ms) && forall m :: m in ms <==> m in s
    ensures r == Closest(s, f)
  {
    for i := 0 to |ms|
      invariant forall j :: 0 <= j < i ==> !Admits(f, ms[j])
    {
      if Admits(f, ms[i]) {
        assert IsClosest(s, f, ms[i]);
        ClosestUnique(s, f, ms[i], Closest(s, f).value);
        return Some(ms[i]);
      }
    }
    return None;
  }

  method LandingOf(mem: Memory, user: string, id: string, ws: Workspace, ms: seq<Match>) returns (l: Landing)
    requires Ranked(ms) && forall m :: m in ms <==> Matches(mem.View(), user, id, m)
    ensures l == Landed(mem.View(), user, id, ws)
  {
    ghost var s := MatchSet(mem.View(), user, id);
    l := Reported(ws);
    var m: Option<Match> := None;
    if l.name == "" {
      m := FirstAdmitted(ms, NamedRow, s);
      if m.None? { m := FirstAdmitted(ms, AnyRow, s); }
      if m.None? { l := l.(name := Minted(id)); }
    } else if !ws.git {
      m := FirstAdmitted(ms, BranchRow, s);
    }
    if m.Some? {
      assert m.value in s;
      l := Landing(m.value.name, m.value.branch, mem.projects[RowKey(user, m.value.name, m.value.branch)].worktree);
    }
  }

  /** ArchiveACEProject. */
  method ArchiveACEProject(mem: Memory, user: string, id: string, ws: Workspace, changed: bool, jobID: string)
    modifies mem
    ensures mem.View() == Archived(old(mem.View()), user, id, ws, changed, jobID)
  {
    var ms := MatchingACEProjects(mem, user, id);
    var l := LandingOf(mem, user, id, ws, ms);
    ghost var st := mem.View();
    var key := RowKey(user, l.name, l.branch);
    FoldRows(mem, user, ws, l, ms);
    assert FoldedKeys(st, user, id, ws) == FoldedAmong(user, ws, l, ms);
    mem.SaveACEProject(key, Row(l.worktree, id));
    if changed { mem.CreateJob(jobID, Job(user, Title(key), "")); }
  }

  ghost function FoldedAmong(user: string, ws: Workspace, l: Landing, ms: seq<Match>): set<RowKey> {
    set m | m in ms && Folds(ws, l, m) :: RowKey(user, m.name, m.branch)
  }

  /** Delete each folding row and let its jobs follow to the landing's label. */
  method FoldRows(mem: Memory, user: string, ws: Workspace, l: Landing, ms: seq<Match>)
    modifies mem
    ensures var folded, st := FoldedAmong(user, ws, l, ms), old(mem.View());
            mem.View() == st.(projects := st.projects - folded,
                              jobs := Relabelled(st.jobs, user, folded, ProjectLabel(l.name, l.branch)))
  {
    var to := ProjectLabel(l.name, l.branch);
    ghost var st := mem.View();
    assert Relabelled(st.jobs, user, FoldedAmong(user, ws, l, ms[..0]), to) == st.jobs;
    for i := 0 to |ms|
      invariant mem.View() == st.(projects := st.projects - FoldedAmong(user, ws, l, ms[..i]),
                                  jobs := Relabelled(st.jobs, user, FoldedAmong(user, ws, l, ms[..i]), to))
    {
      var m := ms[i];
      var k := RowKey(user, m.name, m.branch);
      assert ms[..i + 1] == ms[..i] + [m];
      ghost var before := FoldedAmong(user, ws, l, ms[..i]);
      if !(m.name == l.name && m.branch == l.branch) && (IsAuto(m.name) || (ws.git && m.branch == "")) {
        assert FoldedAmong(user, ws, l, ms[..i + 1]) == before + {k};
        mem.DeleteACEProject(k);
        mem.RenameACEJobs(user, Title(k), to);
        RelabelOne(st.jobs, user, before, k, to);
      } else {
        assert FoldedAmong(user, ws, l, ms[..i + 1]) == before;
      }
    }
    assert ms[..|ms|] == ms;
  }

  lemma RelabelOne(jobs: map<string, Job>, user: string, from: set<RowKey>, k: RowKey, to: string)
    ensures Renamed(Relabelled(jobs, user, from, to), user, Title(k), to) == Relabelled(jobs, user, from + {k}, to)
  {
  }
}
