/** The daily upload volume (internal/httpapi/server.go): what an upload is charged,
    when it is refused, and what deleting a project gives back. */
module Ledger {
  import opened Text
  import opened Sums
  import opened State
  import opened Domain
  import opened MemoryStore
  import opened Archive
  import opened Service
  import opened Safety

  // ------------------------------------------------------------------- charges

  /** EstimatedStoredSize. */
  function EstimatedStoredSize(plain: nat): nat {
    (4 * (plain + 28) + 2) / 3 + 7
  }

  /** Unpadded base64: four characters for three bytes, n + 1 for the last n. */
  function RawBase64Length(n: nat): nat {
    if n == 0 then 0 else if n < 3 then n + 1 else 4 + RawBase64Length(n - 3)
  }

  const PREFIX: nat := 7
  const NONCE: nat := 12
  const TAG: nat := 16

  /** The estimate is the stored size: the prefix, and nonce, ciphertext and tag in
      unpadded base64. */
  lemma EstimateIsStoredSize(plain: nat)
    ensures EstimatedStoredSize(plain) == PREFIX + RawBase64Length(NONCE + plain + TAG)
  {
    Base64Length(plain + 28);
  }

  lemma {:induction false} Base64Length(n: nat)
    ensures RawBase64Length(n) == (4 * n + 2) / 3
  {
    if n >= 3 { Base64Length(n - 3); }
  }

  /** What the files the user does not hold are charged; a file sent twice counts
      twice. */
  function Charge(cfg: Config, held: set<string>, fs: seq<FileInput>): nat {
    if fs == [] then 0
    else Charge(cfg, held, fs[..|fs| - 1]) +
         if BlobName(cfg, fs[|fs| - 1]) in held then 0 else EstimatedStoredSize(|fs[|fs| - 1].content|)
  }

  ghost function ChargeOf(cfg: Config, st: Store, user: string, fs: seq<FileInput>): nat {
    Charge(cfg, HeldNames(st, user), fs)
  }

  /** Files already held by a row of the user are free. */
  lemma {:induction false} HeldIsFree(cfg: Config, held: set<string>, fs: seq<FileInput>)
    ensures (forall i :: 0 <= i < |fs| ==> BlobName(cfg, fs[i]) in held) <==> Charge(cfg, held, fs) == 0
  {
    if fs != [] {
      var init := fs[..|fs| - 1];
      HeldIsFree(cfg, held, init);
      assert forall i :: 0 <= i < |init| ==> init[i] == fs[i];
    }
  }

  // ------------------------------------------------------------------- refunds

  /** The names the row holds and no other row of its user does. */
  ghost function Freed(st: Store, key: RowKey): set<string> {
    set n | n in HeldNames(st, key.user) && forall k :: RowHolds(st, key.user, k, n) ==> k == key
  }

  ghost function Refund(st: Store, key: RowKey, size: Measure): int {
    Sum(Freed(st, key), SizeIn(st.blobs, size))
  }

  /** A remaining row's snapshot is as it was. */
  lemma NamesStand(st: Store, key: RowKey, k: RowKey)
    requires key in st.projects && k in st.projects && k != key
    ensures var id := st.projects[k].snapshotID; NamesOf(Purged(st, key), id) == NamesOf(st, id)
  {
    var id := st.projects[k].snapshotID;
    if id in st.snapshots { PurgeSparesNeeded(st, key, id); }
    PurgeRemovesExactly(st, key, id);
  }

  lemma RowsLeft(st: Store, key: RowKey)
    requires key in st.projects
    ensures Purged(st, key).projects == st.projects - {key}
  {
  }

  lemma RowStands(st: Store, key: RowKey, k: RowKey, n: string)
    requires key in st.projects
    ensures RowHolds(Purged(st, key), key.user, k, n) <==> RowHolds(st, key.user, k, n) && k != key
  {
    RowsLeft(st, key);
    if k in st.projects && k != key { NamesStand(st, key, k); }
  }

  lemma PurgeHeldNames(st: Store, key: RowKey)
    requires key in st.projects
    ensures HeldNames(Purged(st, key), key.user) == HeldNames(st, key.user) - Freed(st, key)
  {
    forall n ensures n in HeldNames(Purged(st, key), key.user) <==> n in HeldNames(st, key.user) - Freed(st, key) {
      forall k ensures RowHolds(Purged(st, key), key.user, k, n) <==> RowHolds(st, key.user, k, n) && k != key {
        RowStands(st, key, k, n);
      }
    }
  }

  /** A name a remaining row holds keeps its bytes. */
  lemma HeldKeepsSize(st: Store, key: RowKey, size: Measure, n: string)
    requires key in st.projects && n in HeldNames(Purged(st, key), key.user)
    ensures SizeIn(Purged(st, key).blobs, size)(n) == SizeIn(st.blobs, size)(n)
  {
    var st' := Purged(st, key);
    var k :| RowHolds(st', key.user, k, n);
    var id := st'.projects[k].snapshotID;
    PurgeRemovesExactly(st, key, id);
    assert Lists(st, id, n);
    PurgeRemovesDeadBlobs(st, key, n);
  }

  /** Deleting a project frees exactly the stored sizes of the names no other row of the
      user holds: the storage total moves by that and nothing else. */
  lemma DeleteFreesExactly(st: Store, key: RowKey, size: Measure)
    requires key in st.projects
    ensures StorageBytes(st, key.user, size) - StorageBytes(Purged(st, key), key.user, size) == Refund(st, key, size)
    ensures Refund(st, key, size) >= 0
  {
    var st' := Purged(st, key);
    var left := HeldNames(st', key.user);
    PurgeHeldNames(st, key);
    forall n | n in left ensures SizeIn(st'.blobs, size)(n) == SizeIn(st.blobs, size)(n) { HeldKeepsSize(st, key, size, n); }
    SumEqual(left, SizeIn(st'.blobs, size), SizeIn(st.blobs, size));
    assert HeldNames(st, key.user) == left + Freed(st, key);
    SumUnion(left, Freed(st, key), SizeIn(st.blobs, size));
    SumNonNegative(Freed(st, key), SizeIn(st.blobs, size));
  }

  /** Content a sibling row still holds refunds nothing. */
  lemma SharedRefundsNothing(st: Store, key: RowKey, size: Measure, sibling: RowKey)
    requires key in st.projects && sibling in st.projects && sibling != key && sibling.user == key.user
    requires Elements(NamesOf(st, st.projects[key].snapshotID)) <= Elements(NamesOf(st, st.projects[sibling].snapshotID))
    ensures Refund(st, key, size) == 0
  {
    forall n | n in HeldNames(st, key.user) ensures n !in Freed(st, key) {
      if RowHolds(st, key.user, key, n) {
        assert n in Elements(NamesOf(st, st.projects[key].snapshotID));
        assert RowHolds(st, key.user, sibling, n);
      }
    }
    assert Freed(st, key) == {};
  }

  // -------------------------------------------------------------------- the day

  /** The kinds of a day's counters that concern uploads. */
  datatype Kind = UploadBytes | UploadCalls

  type Counters = map<(string, Kind), int>

  /** The store, and each user's counters of one day. */
  datatype Book = Book(store: Store, quota: Counters)

  datatype Limits = Limits(volume: int, calls: int)

  function CountIn(quota: Counters, user: string, kind: Kind): int {
    if (user, kind) in quota then quota[(user, kind)] else 0
  }

  /** AddQuotaUsage: a counter never goes below zero. */
  function Moved(quota: Counters, user: string, kind: Kind, n: int): Counters {
    var sum := CountIn(quota, user, kind) + n;
    quota[(user, kind) := if sum > 0 then sum else 0]
  }

  function Used(b: Book, user: string): int { CountIn(b.quota, user, UploadBytes) }

  function Calls(b: Book, user: string): int { CountIn(b.quota, user, UploadCalls) }

  lemma CountMoved(quota: Counters, user: string, kind: Kind, n: int, u: string, k: Kind)
    ensures CountIn(Moved(quota, user, kind, n), u, k) ==
            if u == user && k == kind then Max(CountIn(quota, user, kind) + n, 0) else CountIn(quota, u, k)
  {
  }

  function Max(a: int, b: int): int { if a < b then b else a }

  /** EnsurePendingACEProject: a first upload shows the project it names. */
  function WithPending(st: Store, user: string, ws: Workspace): Store {
    var l := Reported(ws);
    var key := RowKey(user, l.name, l.branch);
    if user == "" || l.name == "" || key in st.projects then st
    else st.(projects := st.projects[key := Row(l.worktree, "")])
  }

  /** The pending row is that of the reported name and branch, trimmed and clipped, with
      no snapshot; a row that is there stays, and nothing else moves. */
  lemma PendingIs(st: Store, user: string, ws: Workspace)
    ensures var t := WithPending(st, user, ws);
            var key := RowKey(user, Clip(ws.name), if ws.git then Clip(ws.branch) else "");
            && (forall k :: k in st.projects ==> k in t.projects && t.projects[k] == st.projects[k])
            && (forall k :: k in t.projects && k !in st.projects ==> k == key && t.projects[k] == Row(ws.git && ws.worktree, ""))
            && (key in t.projects || user == "" || Clip(ws.name) == "")
            && (user == "" || Clip(ws.name) == "" ==> t == st)
  {
  }

  lemma PendingKeepsRest(st: Store, user: string, ws: Workspace)
    ensures var t := WithPending(st, user, ws);
            && t.blobs == st.blobs && t.chunks == st.chunks && t.postings == st.postings && t.snapshots == st.snapshots
            && t.checkpoints == st.checkpoints && t.files == st.files && t.jobs == st.jobs
  {
  }

  /** One request, or any other change to the store. An upload carries whether its
      user is exempt, whether the rate limiter lets it through, and the storage total
      the cache answers. */
  datatype Request =
    | Upload(user: string, exempt: bool, callable: bool, stored: int, ws: Workspace, files: seq<FileInput>)
    | Delete(key: RowKey)
    | Elsewhere(store: Store)

  ghost predicate Accepted(cfg: Config, lim: Limits, b: Book, r: Request)
    requires r.Upload?
  {
    var incoming := ChargeOf(cfg, b.store, r.user, r.files);
    r.exempt || (r.callable && Calls(b, r.user) < lim.calls &&
                 Used(b, r.user) + incoming <= lim.volume && r.stored + incoming <= lim.volume)
  }

  /** The counter after the user's total was measured before and after a purge. */
  function Measured(quota: Counters, user: string, before: int, after: int): Counters {
    if before > after then Moved(quota, user, UploadBytes, after - before) else quota
  }

  ghost function Deleted(size: Measure, b: Book, key: RowKey): Book {
    if key !in b.store.projects then b
    else
      var st := Purged(b.store, key);
      Book(st, Measured(b.quota, key.user, StorageBytes(b.store, key.user, size), StorageBytes(st, key.user, size)))
  }

  ghost function Next(cfg: Config, lim: Limits, size: Measure, b: Book, r: Request): Book {
    match r
    case Upload(user, exempt, _, _, ws, files) =>
      if !Accepted(cfg, lim, b, r) then b
      else
        var s := WithPending(Uploaded(cfg, b.store, files), user, ws);
        if exempt then b.(store := s)
        else Book(s, Moved(Moved(b.quota, user, UploadCalls, 1), user, UploadBytes, ChargeOf(cfg, b.store, user, files)))
    case Delete(key) => Deleted(size, b, key)
    case Elsewhere(store) => b.(store := store)
  }

  /** The request is an upload of the user's that counts and is let through. */
  ghost predicate Counts(cfg: Config, lim: Limits, b: Book, r: Request, user: string) {
    r.Upload? && r.user == user && !r.exempt && Accepted(cfg, lim, b, r)
  }

  /** What the request is charged to the user. */
  ghost function Charged(cfg: Config, lim: Limits, b: Book, r: Request, user: string): int {
    if Counts(cfg, lim, b, r, user) then ChargeOf(cfg, b.store, user, r.files) else 0
  }

  /** What the request gives the user back. */
  ghost function Refunded(size: Measure, b: Book, r: Request, user: string): int {
    if r.Delete? && r.key.user == user && r.key in b.store.projects then Refund(b.store, r.key, size) else 0
  }

  ghost predicate InBounds(lim: Limits, b: Book, user: string) {
    0 <= Used(b, user) <= lim.volume && 0 <= Calls(b, user) <= lim.calls
  }

  /** A purge moves the counter of its user by what it frees, and no call counter. */
  lemma DeleteMoves(cfg: Config, lim: Limits, size: Measure, b: Book, key: RowKey, user: string)
    requires key in b.store.projects && 0 <= Used(b, user)
    ensures Refund(b.store, key, size) >= 0
    ensures var d := Next(cfg, lim, size, b, Delete(key));
            && d.store == Purged(b.store, key) && Calls(d, user) == Calls(b, user)
            && Used(d, user) ==
               if user == key.user then Max(Used(b, user) - Refund(b.store, key, size), 0) else Used(b, user)
  {
    var refund := Refund(b.store, key, size);
    DeleteFreesExactly(b.store, key, size);
    CountMoved(b.quota, key.user, UploadBytes, -refund, user, UploadBytes);
    CountMoved(b.quota, key.user, UploadBytes, -refund, user, UploadCalls);
  }

  /** An upload that counts moves both counters of its user. */
  lemma UploadMoves(cfg: Config, lim: Limits, size: Measure, b: Book, r: Request, user: string)
    requires r.Upload? && 0 <= Used(b, user) && 0 <= Calls(b, user)
    ensures var b', counts := Next(cfg, lim, size, b, r), Counts(cfg, lim, b, r, user);
            && Calls(b', user) == Calls(b, user) + (if counts then 1 else 0)
            && Used(b', user) == Used(b, user) + Charged(cfg, lim, b, r, user)
  {
    var charge, called := ChargeOf(cfg, b.store, r.user, r.files), Moved(b.quota, r.user, UploadCalls, 1);
    CountMoved(b.quota, r.user, UploadCalls, 1, user, UploadCalls);
    CountMoved(b.quota, r.user, UploadCalls, 1, user, UploadBytes);
    CountMoved(called, r.user, UploadBytes, charge, user, UploadCalls);
    CountMoved(called, r.user, UploadBytes, charge, user, UploadBytes);
  }

  lemma RequestKeepsLedger(cfg: Config, lim: Limits, size: Measure, b: Book, r: Request, user: string)
    requires InBounds(lim, b, user)
    ensures var b' := Next(cfg, lim, size, b, r);
            && InBounds(lim, b', user)
            && Used(b', user) >= Used(b, user) + Charged(cfg, lim, b, r, user) - Refunded(size, b, r, user)
            && Calls(b', user) == Calls(b, user) + if Counts(cfg, lim, b, r, user) then 1 else 0
  {
    match r
    case Upload(_, _, _, _, _, _) => UploadMoves(cfg, lim, size, b, r, user);
    case Delete(key) => if key in b.store.projects { DeleteMoves(cfg, lim, size, b, key, user); }
    case Elsewhere(_) =>
  }

  ghost function Run(cfg: Config, lim: Limits, size: Measure, b: Book, rs: seq<Request>): Book {
    if rs == [] then b else Next(cfg, lim, size, Run(cfg, lim, size, b, rs[..|rs| - 1]), rs[|rs| - 1])
  }

  ghost function TotalCharged(cfg: Config, lim: Limits, size: Measure, b: Book, rs: seq<Request>, user: string): int {
    if rs == [] then 0
    else
      var init := rs[..|rs| - 1];
      TotalCharged(cfg, lim, size, b, init, user) + Charged(cfg, lim, Run(cfg, lim, size, b, init), rs[|rs| - 1], user)
  }

  ghost function TotalRefunded(cfg: Config, lim: Limits, size: Measure, b: Book, rs: seq<Request>, user: string): int {
    if rs == [] then 0
    else
      var init := rs[..|rs| - 1];
      TotalRefunded(cfg, lim, size, b, init, user) + Refunded(size, Run(cfg, lim, size, b, init), rs[|rs| - 1], user)
  }

  /** How many uploads of the user's were let through and counted. */
  ghost function TotalCalls(cfg: Config, lim: Limits, size: Measure, b: Book, rs: seq<Request>, user: string): int {
    if rs == [] then 0
    else
      var init := rs[..|rs| - 1];
      TotalCalls(cfg, lim, size, b, init, user) +
      if Counts(cfg, lim, Run(cfg, lim, size, b, init), rs[|rs| - 1], user) then 1 else 0
  }

  /** Over a day of requests in any order and by any users, whatever the store
      measures: a user's counter stays between zero and the limit, what was accepted
      from him never exceeds the limit by more than what his deletions freed, and no
      more uploads than the daily number are let through. */
  lemma {:induction false} DayBounded(cfg: Config, lim: Limits, size: Measure, b: Book, rs: seq<Request>, user: string)
    requires Used(b, user) == Calls(b, user) == 0 <= lim.volume && 0 <= lim.calls
    ensures InBounds(lim, Run(cfg, lim, size, b, rs), user)
    ensures TotalCharged(cfg, lim, size, b, rs, user) - TotalRefunded(cfg, lim, size, b, rs, user) <=
            Used(Run(cfg, lim, size, b, rs), user)
    ensures TotalCharged(cfg, lim, size, b, rs, user) <= lim.volume + TotalRefunded(cfg, lim, size, b, rs, user)
    ensures TotalCalls(cfg, lim, size, b, rs, user) == Calls(Run(cfg, lim, size, b, rs), user) <= lim.calls
  {
    if rs != [] {
      var init := rs[..|rs| - 1];
      DayBounded(cfg, lim, size, b, init, user);
      RequestKeepsLedger(cfg, lim, size, Run(cfg, lim, size, b, init), rs[|rs| - 1], user);
    }
  }

  // -------------------------------------------------------- deleting and uploading again

  /** The files are those of the row: each listed name once, with its stored
      content. */
  ghost predicate FilesOfRow(cfg: Config, st: Store, key: RowKey, fs: seq<FileInput>)
    requires key in st.projects
  {
    && NoDuplicates(FileNames(cfg, fs))
    && Elements(FileNames(cfg, fs)) == Elements(NamesOf(st, st.projects[key].snapshotID))
    && Stored(cfg, st.blobs, fs)
  }

  ghost predicate Stored(cfg: Config, blobs: map<string, Blob>, fs: seq<FileInput>) {
    forall i :: 0 <= i < |fs| ==> BlobName(cfg, fs[i]) in blobs && blobs[BlobName(cfg, fs[i])].content == fs[i].content
  }

  const ESTIMATE: Measure := EstimatedStoredSize

  lemma LastName(cfg: Config, fs: seq<FileInput>)
    requires fs != [] && NoDuplicates(FileNames(cfg, fs))
    ensures var init, n := fs[..|fs| - 1], BlobName(cfg, fs[|fs| - 1]);
            && NoDuplicates(FileNames(cfg, init)) && n !in Elements(FileNames(cfg, init))
            && Elements(FileNames(cfg, fs)) == Elements(FileNames(cfg, init)) + {n}
  {
    var init, n := fs[..|fs| - 1], BlobName(cfg, fs[|fs| - 1]);
    assert FileNames(cfg, fs) == FileNames(cfg, init) + [n];
    ElementsOfLast(FileNames(cfg, fs));
    assert FileNames(cfg, fs)[..|fs| - 1] == FileNames(cfg, init);
  }

  /** The charge for files without repeats is the estimate of what is not held. */
  lemma {:induction false} ChargeIsSum(cfg: Config, held: set<string>, blobs: map<string, Blob>, fs: seq<FileInput>)
    requires NoDuplicates(FileNames(cfg, fs)) && Stored(cfg, blobs, fs)
    ensures Charge(cfg, held, fs) == Sum(Elements(FileNames(cfg, fs)) - held, SizeIn(blobs, ESTIMATE))
  {
    if fs != [] {
      var init, n := fs[..|fs| - 1], BlobName(cfg, fs[|fs| - 1]);
      var before, after := Elements(FileNames(cfg, init)) - held, Elements(FileNames(cfg, fs)) - held;
      LastName(cfg, fs);
      ChargeIsSum(cfg, held, blobs, init);
      if n in held {
        assert after == before;
      } else {
        assert after - {n} == before;
        SumPick(after, SizeIn(blobs, ESTIMATE), n);
      }
    } else {
      assert Elements(FileNames(cfg, fs)) - held == {};
    }
  }

  /** The charge covers the estimate of what is not held, however often a file is sent. */
  lemma {:induction false} ChargeCovers(cfg: Config, held: set<string>, blobs: map<string, Blob>, fs: seq<FileInput>)
    requires Stored(cfg, blobs, fs)
    ensures Sum(Elements(FileNames(cfg, fs)) - held, SizeIn(blobs, ESTIMATE)) <= Charge(cfg, held, fs)
  {
    if fs != [] {
      var init, n := fs[..|fs| - 1], BlobName(cfg, fs[|fs| - 1]);
      var before, after := Elements(FileNames(cfg, init)) - held, Elements(FileNames(cfg, fs)) - held;
      ChargeCovers(cfg, held, blobs, init);
      assert FileNames(cfg, fs) == FileNames(cfg, init) + [n];
      assert Elements(FileNames(cfg, fs)) == Elements(FileNames(cfg, init)) + {n};
      if n in held || n in before {
        assert after == before;
      } else {
        assert after - {n} == before;
        SumPick(after, SizeIn(blobs, ESTIMATE), n);
      }
    } else {
      assert Elements(FileNames(cfg, fs)) - held == {};
    }
  }

  lemma SumSubset(a: set<string>, b: set<string>, blobs: map<string, Blob>)
    requires a <= b
    ensures Sum(a, SizeIn(blobs, ESTIMATE)) <= Sum(b, SizeIn(blobs, ESTIMATE))
  {
    SumUnion(a, b - a, SizeIn(blobs, ESTIMATE));
    assert a + (b - a) == b;
    SumNonNegative(b - a, SizeIn(blobs, ESTIMATE));
  }

  /** Of the row's names those are no longer held that the purge freed. */
  lemma FreedIsMissing(st: Store, key: RowKey)
    requires key in st.projects
    ensures Elements(NamesOf(st, st.projects[key].snapshotID)) - HeldNames(Purged(st, key), key.user) == Freed(st, key)
  {
    PurgeHeldNames(st, key);
    var names := Elements(NamesOf(st, st.projects[key].snapshotID));
    forall n | n in names ensures n in HeldNames(st, key.user) { assert RowHolds(st, key.user, key, n); }
    forall n | n in Freed(st, key) ensures n in names {
      var k :| RowHolds(st, key.user, k, n);
      assert k == key;
    }
  }

  /** Uploading a deleted project again is charged the estimate of what the purge
      freed. */
  lemma ReuploadCharge(cfg: Config, st: Store, key: RowKey, fs: seq<FileInput>)
    requires key in st.projects && FilesOfRow(cfg, st, key, fs)
    ensures ChargeOf(cfg, Purged(st, key), key.user, fs) == Refund(st, key, ESTIMATE)
  {
    ChargeIsSum(cfg, HeldNames(Purged(st, key), key.user), st.blobs, fs);
    FreedIsMissing(st, key);
  }

  lemma AfterUpload(cfg: Config, lim: Limits, size: Measure, b: Book, r: Request)
    requires r.Upload? && !r.exempt && 0 <= Used(b, r.user)
    ensures var charge := ChargeOf(cfg, b.store, r.user, r.files);
            && (Accepted(cfg, lim, b, r) <==>
                  && r.callable && Calls(b, r.user) < lim.calls
                  && Used(b, r.user) + charge <= lim.volume && r.stored + charge <= lim.volume)
            && (Accepted(cfg, lim, b, r) ==> Used(Next(cfg, lim, size, b, r), r.user) == Used(b, r.user) + charge)
  {
  }

  /** Whatever is shown of what was held and what was sent is at most the held total and
      the charge. */
  lemma HeldAndSentFit(cfg: Config, before: map<string, Blob>, after: map<string, Blob>, held: set<string>,
                       fs: seq<FileInput>, shown: set<string>)
    requires forall n :: n in held ==> n in before && n in after && before[n] == after[n]
    requires Stored(cfg, after, fs) && shown <= held + Elements(FileNames(cfg, fs))
    ensures Sum(shown, SizeIn(after, ESTIMATE)) <= Sum(held, SizeIn(before, ESTIMATE)) + Charge(cfg, held, fs)
  {
    var sent := Elements(FileNames(cfg, fs));
    SumSubset(shown, held + sent, after);
    SumUnion(held, sent - held, SizeIn(after, ESTIMATE));
    assert held + (sent - held) == held + sent;
    SumEqual(held, SizeIn(before, ESTIMATE), SizeIn(after, ESTIMATE));
    ChargeCovers(cfg, held, after, fs);
  }

  lemma AcceptedStores(cfg: Config, lim: Limits, b: Book, r: Request)
    requires r.Upload? && Accepted(cfg, lim, b, r)
    ensures Next(cfg, lim, ESTIMATE, b, r).store.blobs == Uploaded(cfg, b.store, r.files).blobs
  {
    PendingKeepsRest(Uploaded(cfg, b.store, r.files), r.user, r.ws);
  }

  /** The ceiling holds. Where sizes are what the charge estimates and the total was
      measured at the check, an accepted upload leaves room for its own archival: whatever
      rows show later of what the user held and has just sent stays within the limit. */
  lemma CeilingHolds(cfg: Config, lim: Limits, b: Book, r: Request, t: Store)
    requires r.Upload? && !r.exempt && Accepted(cfg, lim, b, r) && r.stored == StorageBytes(b.store, r.user, ESTIMATE)
    requires HeldNames(b.store, r.user) <= b.store.blobs.Keys
    requires t.blobs == Next(cfg, lim, ESTIMATE, b, r).store.blobs && Stored(cfg, t.blobs, r.files)
    requires HeldNames(t, r.user) <= HeldNames(b.store, r.user) + Elements(FileNames(cfg, r.files))
    ensures StorageBytes(t, r.user, ESTIMATE) <= lim.volume
  {
    UploadCatalogue(cfg, b.store, r.files);
    AcceptedStores(cfg, lim, b, r);
    HeldAndSentFit(cfg, b.store.blobs, t.blobs, HeldNames(b.store, r.user), r.files, HeldNames(t, r.user));
  }

  /** Where sizes are what the charge estimates, deleting a project and uploading it
      again leaves the day's counter as it was, unless the project is more than the
      day's volume so far; then the counter rises to the project. And the second
      upload is refused for its daily volume only if the project alone is over the
      limit. */
  lemma ReuploadIsNeutral(cfg: Config, lim: Limits, b: Book, key: RowKey, callable: bool, stored: int, ws: Workspace,
                          fs: seq<FileInput>)
    requires key in b.store.projects && FilesOfRow(cfg, b.store, key, fs) && 0 <= Used(b, key.user) <= lim.volume
    ensures var refund, d := Refund(b.store, key, ESTIMATE), Next(cfg, lim, ESTIMATE, b, Delete(key));
            var up := Upload(key.user, false, callable, stored, ws, fs);
            && (Accepted(cfg, lim, d, up) <==>
                  callable && Calls(b, key.user) < lim.calls && refund <= lim.volume && stored + refund <= lim.volume)
            && (Accepted(cfg, lim, d, up) ==>
                  Used(Next(cfg, lim, ESTIMATE, d, up), key.user) == Max(Used(b, key.user), refund))
  {
    ReuploadCharge(cfg, b.store, key, fs);
    DeleteMoves(cfg, lim, ESTIMATE, b, key, key.user);
    AfterUpload(cfg, lim, ESTIMATE, Next(cfg, lim, ESTIMATE, b, Delete(key)),
                Upload(key.user, false, callable, stored, ws, fs));
  }

  /** Where sizes are plain lengths, such a round leaves the counter as it was exactly
      when it frees nothing, other rows of the user holding the whole project, and
      raises it otherwise. */
  lemma PlainReuploadExactly(cfg: Config, lim: Limits, b: Book, key: RowKey, callable: bool, stored: int, ws: Workspace,
                             fs: seq<FileInput>)
    requires key in b.store.projects && FilesOfRow(cfg, b.store, key, fs) && 0 <= Used(b, key.user)
    ensures var d, up := Next(cfg, lim, PLAIN, b, Delete(key)), Upload(key.user, false, callable, stored, ws, fs);
            var after := Used(Next(cfg, lim, PLAIN, d, up), key.user);
            Accepted(cfg, lim, d, up) ==>
              after >= Used(b, key.user) && (after == Used(b, key.user) <==> Freed(b.store, key) == {})
  {
    ReuploadCharge(cfg, b.store, key, fs);
    DeleteMoves(cfg, lim, PLAIN, b, key, key.user);
    EstimateIsMore(cfg, b.store, key, fs);
    AfterUpload(cfg, lim, PLAIN, Next(cfg, lim, PLAIN, b, Delete(key)),
                Upload(key.user, false, callable, stored, ws, fs));
  }

  /** The store of one project of one file. */
  function OneFile(cfg: Config, key: RowKey, f: FileInput): Store {
    EMPTY.(blobs := map[BlobName(cfg, f) := Blob(f.path, f.content)],
           snapshots := map["s" := Snapshot("", "", [BlobName(cfg, f)])], projects := map[key := Row(false, "s")])
  }

  lemma OneFileFreed(cfg: Config, key: RowKey, f: FileInput)
    ensures FilesOfRow(cfg, OneFile(cfg, key, f), key, [f])
    ensures Freed(OneFile(cfg, key, f), key) == {BlobName(cfg, f)}
    ensures Refund(OneFile(cfg, key, f), key, ESTIMATE) == EstimatedStoredSize(|f.content|)
  {
    var st, n := OneFile(cfg, key, f), BlobName(cfg, f);
    assert FileNames(cfg, [f]) == [n];
    forall k, m ensures RowHolds(st, key.user, k, m) <==> k == key && m == n {
      assert NamesOf(st, "s") == [n];
    }
    assert RowHolds(st, key.user, key, n);
    forall m ensures m in HeldNames(st, key.user) <==> m == n {}
    forall m ensures m in Freed(st, key) <==> m == n {}
    SumPick({n}, SizeIn(st.blobs, ESTIMATE), n);
    assert {n} - {n} == {};
  }

  /** The in-memory store measures lengths, and two rows on one snapshot hold it once. */
  lemma TotalIsLength(cfg: Config, key: RowKey, twin: RowKey, f: FileInput)
    requires twin != key && twin.user == key.user
    ensures var st := OneFile(cfg, key, f);
            && StorageBytes(st, key.user, PLAIN) == |f.content|
            && StorageBytes(st.(projects := st.projects[twin := Row(false, "s")]), key.user, PLAIN) == |f.content|
  {
    var st, n := OneFile(cfg, key, f), BlobName(cfg, f);
    var both := st.(projects := st.projects[twin := Row(false, "s")]);
    forall k, m ensures RowHolds(st, key.user, k, m) <==> k == key && m == n { assert NamesOf(st, "s") == [n]; }
    forall k, m ensures RowHolds(both, key.user, k, m) <==> k in {key, twin} && m == n { assert NamesOf(both, "s") == [n]; }
    OnlyHeld(st, key.user, key, n);
    OnlyHeld(both, key.user, key, n);
    SumPick({n}, SizeIn(st.blobs, PLAIN), n);
    assert {n} - {n} == {};
  }

  lemma OnlyHeld(st: Store, user: string, key: RowKey, n: string)
    requires RowHolds(st, user, key, n) && forall k, m :: RowHolds(st, user, k, m) ==> m == n
    ensures HeldNames(st, user) == {n}
  {
    forall m ensures m in HeldNames(st, user) <==> m == n {}
  }

  /** With the in-memory store, a user whose only project is one file deletes it and
      uploads it again, both within the limits: the counter goes from zero to the
      estimate of the file. */
  lemma PlainReuploadRaises(cfg: Config, key: RowKey, ws: Workspace, f: FileInput)
    ensures var b, size := Book(OneFile(cfg, key, f), map[]), EstimatedStoredSize(|f.content|);
            var lim := Limits(size, 1);
            var d, up := Next(cfg, lim, PLAIN, b, Delete(key)), Upload(key.user, false, true, 0, ws, [f]);
            && key in b.store.projects && Used(b, key.user) == 0 && Accepted(cfg, lim, d, up)
            && Used(Next(cfg, lim, PLAIN, d, up), key.user) == size > 0
  {
    var b, lim := Book(OneFile(cfg, key, f), map[]), Limits(EstimatedStoredSize(|f.content|), 1);
    OneFileFreed(cfg, key, f);
    ReuploadCharge(cfg, b.store, key, [f]);
    DeleteMoves(cfg, lim, PLAIN, b, key, key.user);
    AfterUpload(cfg, lim, PLAIN, Next(cfg, lim, PLAIN, b, Delete(key)), Upload(key.user, false, true, 0, ws, [f]));
  }

  lemma EstimateIsMore(cfg: Config, st: Store, key: RowKey, fs: seq<FileInput>)
    requires key in st.projects && FilesOfRow(cfg, st, key, fs)
    ensures Refund(st, key, ESTIMATE) >= Refund(st, key, PLAIN) >= 0
    ensures Refund(st, key, ESTIMATE) == Refund(st, key, PLAIN) <==> Freed(st, key) == {}
    ensures Freed(st, key) == {} ==> Refund(st, key, ESTIMATE) == 0
  {
    var freed := Freed(st, key);
    FreedIsMissing(st, key);
    DeleteFreesExactly(st, key, PLAIN);
    forall n | n in freed ensures Size(st.blobs, ESTIMATE, n) > Size(st.blobs, PLAIN, n) {
      assert n in Elements(FileNames(cfg, fs));
    }
    SumLeq(freed, SizeIn(st.blobs, PLAIN), SizeIn(st.blobs, ESTIMATE));
    if freed != {} {
      var n :| n in freed;
      assert SizeIn(st.blobs, PLAIN)(n) < SizeIn(st.blobs, ESTIMATE)(n);
    }
  }

  // ---------------------------------------------------------------- the handlers

  class Accounts {
    const mem: Memory
    var quota: Counters

    constructor (mem: Memory)
      ensures this.mem == mem && quota == map[]
    {
      this.mem := mem;
      quota := map[];
    }

    ghost function View(): Book
      reads this, mem
    {
      Book(mem.View(), quota)
    }

    method AddQuotaUsage(user: string, kind: Kind, n: int)
      modifies this`quota
      ensures quota == Moved(old(quota), user, kind, n)
    {
      var sum := (if (user, kind) in quota then quota[(user, kind)] else 0) + n;
      quota := quota[(user, kind) := if sum > 0 then sum else 0];
    }

    method QuotaUsageToday(user: string, kind: Kind) returns (n: int)
      ensures n == CountIn(quota, user, kind)
    {
      n := if (user, kind) in quota then quota[(user, kind)] else 0;
    }

    /** The charging loop of batchUpload. */
    method Incoming(cfg: Config, user: string, fs: seq<FileInput>) returns (incoming: nat)
      ensures incoming == ChargeOf(cfg, mem.View(), user, fs)
    {
      var names := FileNames(cfg, fs);
      var held := mem.UserHeldBlobNames(user, names);
      incoming := 0;
      for i := 0 to |fs|
        invariant incoming == Charge(cfg, HeldNames(mem.View(), user), fs[..i])
      {
        assert fs[..i + 1][..i] == fs[..i];
        assert names[i] in Elements(names);
        if names[i] !in held { incoming := incoming + EstimatedStoredSize(|fs[i].content|); }
      }
      assert fs[..|fs|] == fs;
    }

    /** EnsurePendingACEProject. */
    method EnsurePending(user: string, ws: Workspace)
      modifies mem`projects
      ensures mem.View() == WithPending(old(mem.View()), user, ws)
    {
      var l := Reported(ws);
      if user == "" || l.name == "" { return; }
      var _ := mem.EnsureACEProject(RowKey(user, l.name, l.branch), l.worktree);
    }

    /** enforceQuota and batchUpload. */
    method BatchUpload(cfg: Config, src: Source, lim: Limits, user: string, exempt: bool, callable: bool, stored: int,
                       ws: Workspace, fs: seq<FileInput>)
      returns (ok: bool)
      requires IndexesBy(cfg, src)
      modifies this`quota, mem
      ensures var r := Upload(user, exempt, callable, stored, ws, fs);
              ok == Accepted(cfg, lim, old(View()), r) && View() == Next(cfg, lim, PLAIN, old(View()), r)
    {
      var incoming := Incoming(cfg, user, fs);
      if !exempt {
        if !callable { return false; }
        var calls := QuotaUsageToday(user, UploadCalls);
        if calls >= lim.calls { return false; }
        var used := QuotaUsageToday(user, UploadBytes);
        if used + incoming > lim.volume { return false; }
        if stored + incoming > lim.volume { return false; }
      }
      var _ := UploadBlobs(cfg, src, mem, fs);
      EnsurePending(user, ws);
      if !exempt {
        AddQuotaUsage(user, UploadCalls, 1);
        AddQuotaUsage(user, UploadBytes, incoming);
      }
      ok := true;
    }

    /** deleteMyACEProject: the refund is the measured difference. */
    method DeleteProject(key: RowKey) returns (found: bool)
      modifies this`quota, mem
      ensures found <==> key in old(mem.View()).projects
      ensures View() == Deleted(PLAIN, old(View()), key)
    {
      var before := mem.UserStorageBytes(key.user);
      found := mem.PurgeACEProject(key);
      if found {
        var after := mem.UserStorageBytes(key.user);
        if before > after { AddQuotaUsage(key.user, UploadBytes, after - before); }
      }
    }
  }
}
