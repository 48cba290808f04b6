/** The index and the searches over every interleaving: uploads and retrievals are
    separate steps, and purges, restarts and searches fall anywhere between them. */
module SearchRuns {
  import opened State
  import opened Lexical
  import opened Service
  import opened Client
  import opened Safety
  import opened IndexSafety
  import opened Ranking
  import opened RankingSafety
  import Interleaving

  // ----------------------------------------------------------------- the index

  /** The files a step may upload. */
  function Sends(step: Interleaving.Step): seq<FileInput> {
    match step
    case Begin(_, _, files, _) => files
    case Shared(s) => Uploads(s)
    case _ => []
  }

  lemma BeginKeepsIndexed(cfg: Config, known: iset<FileInput>, st: Store, files: seq<FileInput>, saved: map<string, string>)
    requires Lawful(cfg) && SoundHashes(cfg) && NoClash(cfg, known) && Indexed(cfg, known, st)
    requires forall f :: f in files ==> f in known
    ensures Indexed(cfg, known, Uploaded(cfg, st, Changed(cfg, files, saved)))
  {
    ChangedNames(cfg, files, saved);
    UploadKeepsIndexed(cfg, known, st, Changed(cfg, files, saved));
  }

  lemma EndKeepsIndexed(cfg: Config, known: iset<FileInput>, st: Store, user: string, s: Interleaving.Sent, jobID: string)
    requires Indexed(cfg, known, st) && Interleaving.Answer(cfg, st, user, s, jobID) != Gone
    ensures Indexed(cfg, known, Interleaving.Answer(cfg, st, user, s, jobID).store)
  {
    RetrievalKeepsIndex(cfg, st, user, s.from.checkpointID, Interleaving.Added(cfg, s),
                        Stale(cfg, s.files, s.from.blobs), s.ws, jobID);
    IndexFrame(cfg, known, st, Interleaving.Answer(cfg, st, user, s, jobID).store);
  }

  lemma SharedKeepsIndexed(cfg: Config, known: iset<FileInput>, st: Store, step: Protocol.Step)
    requires Lawful(cfg) && SoundHashes(cfg) && NoClash(cfg, known) && Indexed(cfg, known, st)
    requires Protocol.Enabled(Protocol.World(st, map[]), step) && forall f :: f in Uploads(step) ==> f in known
    ensures Indexed(cfg, known, Protocol.Next(cfg, Protocol.World(st, map[]), step).store)
  {
    StepKeepsIndexed(cfg, known, Protocol.World(st, map[]), step);
  }

  /** Upload, purge and retrieval each keep the index exact. */
  lemma StepKeepsIndex(cfg: Config, known: iset<FileInput>, w: Interleaving.World, step: Interleaving.Step)
    requires Lawful(cfg) && SoundHashes(cfg) && NoClash(cfg, known) && Indexed(cfg, known, w.store)
    requires Interleaving.Enabled(w, step) && forall f :: f in Sends(step) ==> f in known
    ensures Indexed(cfg, known, Interleaving.Next(cfg, w, step).store)
  {
    match step
    case Join(_, _) =>
    case Begin(c, _, files, anew) =>
      BeginKeepsIndexed(cfg, known, w.store, files, (if anew then FRESH else w.clients[c].saved).blobs);
    case End(c, jobID, _) =>
      var p := w.clients[c];
      if Interleaving.Answer(cfg, w.store, p.user, p.sent.value, jobID) != Gone {
        EndKeepsIndexed(cfg, known, w.store, p.user, p.sent.value, jobID);
      }
    case Shared(s) => SharedKeepsIndexed(cfg, known, w.store, s);
  }

  lemma {:induction false} RunKeepsIndex(cfg: Config, known: iset<FileInput>, steps: seq<Interleaving.Step>,
                                         trace: seq<Interleaving.World>, k: nat)
    requires Lawful(cfg) && SoundHashes(cfg) && NoClash(cfg, known) && Interleaving.Run(cfg, steps, trace) && k <= |steps|
    requires forall j :: 0 <= j < |steps| ==> forall f :: f in Sends(steps[j]) ==> f in known
    ensures Indexed(cfg, known, trace[k].store)
  {
    if k > 0 {
      RunKeepsIndex(cfg, known, steps, trace, k - 1);
      StepKeepsIndex(cfg, known, trace[k - 1], steps[k - 1]);
    }
  }

  /** In every interleaving of files without clashing names every stored chunk is indexed
      with the tokens of its own lines. */
  lemma IndexAgreesInterleaved(cfg: Config, src: Source, known: iset<FileInput>, steps: seq<Interleaving.Step>,
                               trace: seq<Interleaving.World>, n: string, i: nat) returns (text: string)
    requires IndexesBy(cfg, src) && SoundHashes(cfg) && NoClash(cfg, known) && Interleaving.Run(cfg, steps, trace)
    requires forall j :: 0 <= j < |steps| ==> forall f :: f in Sends(steps[j]) ==> f in known
    requires n in trace[|steps|].store.chunks && i < |trace[|steps|].store.chunks[n]|
    ensures n in trace[|steps|].store.blobs && IndexedAs(src.lex, trace[|steps|].store, n, i, text)
  {
    SourceIsLawful(cfg, src);
    RunKeepsIndex(cfg, known, steps, trace, |steps|);
    text := ChunkIsIndexed(cfg, src, known, trace[|steps|].store, n, i);
  }

  /** And exactly the blobs whose path is not excluded are in the index, each with the
      chunking of its own content. */
  lemma StoredIsChunkedInterleaved(cfg: Config, src: Source, known: iset<FileInput>, steps: seq<Interleaving.Step>,
                                   trace: seq<Interleaving.World>, n: string)
    requires IndexesBy(cfg, src) && SoundHashes(cfg) && NoClash(cfg, known) && Interleaving.Run(cfg, steps, trace)
    requires forall j :: 0 <= j < |steps| ==> forall f :: f in Sends(steps[j]) ==> f in known
    requires n in trace[|steps|].store.blobs
    ensures var st := trace[|steps|].store;
            && (n in st.chunks <==> !cfg.excluded(st.blobs[n].path))
            && (n in st.chunks ==> st.chunks[n] == IndexedChunks(src, n, FileInput(st.blobs[n].path, st.blobs[n].content)))
  {
    SourceIsLawful(cfg, src);
    RunKeepsIndex(cfg, known, steps, trace, |steps|);
  }

  // --------------------------------------------------------------- the searches

  /** The interleaved world and the server's memo. */
  datatype Server = Server(world: Interleaving.World, memo: Memo)

  /** A step of anybody's, a restart that empties the memo, or a search: its candidates,
      its query, and whether the index can be reached. */
  datatype Event =
    | Stepped(step: Interleaving.Step)
    | Restarted
    | Asked(cs: seq<Candidate>, query: seq<string>, reachable: bool)

  ghost predicate Possible(known: iset<FileInput>, s: Server, e: Event) {
    match e
    case Stepped(step) => Interleaving.Enabled(s.world, step) && forall f :: f in Sends(step) ==> f in known
    case Restarted => true
    case Asked(cs, _, _) => forall c :: c in cs ==> Drawn(s.world.store, c)
  }

  ghost function After(cfg: Config, lex: Lexicon, known: iset<FileInput>, s: Server, e: Event): Server
    requires Possible(known, s, e)
  {
    match e
    case Stepped(step) => s.(world := Interleaving.Next(cfg, s.world, step))
    case Restarted => s.(memo := map[])
    case Asked(cs, query, reachable) => s.(memo := MemoLeft(lex, s.memo, reachable, cs, query))
  }

  ghost predicate History(cfg: Config, lex: Lexicon, known: iset<FileInput>, es: seq<Event>, trace: seq<Server>) {
    && |trace| == |es| + 1 && trace[0] == Server(Interleaving.START, map[])
    && forall k :: 0 <= k < |es| ==> Possible(known, trace[k], es[k]) && trace[k + 1] == After(cfg, lex, known, trace[k], es[k])
  }

  /** The store is indexed as its text says, and the memo is true to the known texts. */
  ghost predicate Reliable(cfg: Config, src: Source, known: iset<FileInput>, s: Server) {
    && Indexed(cfg, known, s.world.store)
    && Truthful(src.lex, s.memo, Texts(cfg, src, known)) && |s.memo| <= TF_CACHE_LIMIT + 1
  }

  lemma EventKeepsReliable(cfg: Config, src: Source, known: iset<FileInput>, s: Server, e: Event)
    requires IndexesBy(cfg, src) && SoundHashes(cfg) && NoClash(cfg, known)
    requires Reliable(cfg, src, known, s) && Possible(known, s, e)
    ensures Reliable(cfg, src, known, After(cfg, src.lex, known, s, e))
  {
    match e
    case Stepped(step) =>
      SourceIsLawful(cfg, src);
      StepKeepsIndex(cfg, known, s.world, step);
    case Restarted =>
    case Asked(cs, query, reachable) =>
      CandidatesAreDrawn(cfg, src, known, s.world.store, cs);
      MemoLeftIsTruthful(src.lex, s.memo, reachable, cs, query, Texts(cfg, src, known));
      MemoIsBounded(src.lex, s.memo, cs, UsesPostings(cs, reachable));
  }

  lemma HistoryStep(cfg: Config, lex: Lexicon, known: iset<FileInput>, es: seq<Event>, trace: seq<Server>, k: nat)
    requires History(cfg, lex, known, es, trace) && 0 < k <= |es|
    ensures Possible(known, trace[k - 1], es[k - 1]) && trace[k] == After(cfg, lex, known, trace[k - 1], es[k - 1])
  {
    assert trace[(k - 1) + 1] == After(cfg, lex, known, trace[k - 1], es[k - 1]);
  }

  lemma StartIsReliable(cfg: Config, src: Source, known: iset<FileInput>)
    ensures Reliable(cfg, src, known, Server(Interleaving.START, map[]))
  {
  }

  lemma {:induction false} HistoryIsReliable(cfg: Config, src: Source, known: iset<FileInput>, es: seq<Event>,
                                             trace: seq<Server>, k: nat)
    requires IndexesBy(cfg, src) && SoundHashes(cfg) && NoClash(cfg, known)
    requires History(cfg, src.lex, known, es, trace) && k <= |es|
    ensures Reliable(cfg, src, known, trace[k])
  {
    if k == 0 {
      StartIsReliable(cfg, src, known);
    } else {
      HistoryIsReliable(cfg, src, known, es, trace, k - 1);
      HistoryStep(cfg, src.lex, known, es, trace, k);
      EventKeepsReliable(cfg, src, known, trace[k - 1], es[k - 1]);
    }
  }

  /** Over every history of uploads, retrievals, purges, re-uploads, restarts and searches
      of files without clashing names, in any interleaving: every score a search returns
      is the one counted directly from its candidates' texts, whatever mix of index and
      memo served it. */
  lemma EveryScoreIsDirect<F>(cfg: Config, src: Source, ar: Arithmetic<F>, known: iset<FileInput>, es: seq<Event>,
                              trace: seq<Server>, k: nat, i: nat)
    requires IndexesBy(cfg, src) && SoundHashes(cfg) && NoClash(cfg, known) && History(cfg, src.lex, known, es, trace)
    requires k < |es| && es[k].Asked? && i < |es[k].cs|
    ensures Answer(src.lex, ar, trace[k].world.store.postings, trace[k].memo, es[k].reachable, es[k].cs, es[k].query, i) ==
            Worth(ar, Docs(src.lex, es[k].cs), i, es[k].query)
  {
    HistoryIsReliable(cfg, src, known, es, trace, k);
    CandidatesAreDrawn(cfg, src, known, trace[k].world.store, es[k].cs);
    AnswerIsDirect(src.lex, ar, trace[k].world.store.postings, trace[k].memo, es[k].reachable, es[k].cs, es[k].query,
                   Texts(cfg, src, known), i);
  }
}
