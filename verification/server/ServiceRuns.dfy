/** Whole runs of the service, and what its hybrid search owes its strategies. */
module ServiceRuns {
  import opened Ranking
  import opened Items
  import opened Store
  import opened Tracking
  import opened History
  import opened Requests
  import opened Service
  import Similarity
  import Bm25
  import Ngram
  import Lsa
  import Pool
  import Text
  import Tfidf

  // For each kind of call, which step of the histories it is.

  method SearchSurface(s: Server, call: Call, ghost found: seq<ScoredKey>)
    requires s.Valid() && call.SurfaceCall?
    requires found == Finds(s, call)
    modifies s, s.engine
    ensures s.Valid() && AfterSearch(old(s.Look()), found, call.clock, s.Look())
  {
    var _ := s.SurfaceSearch(call.query, call.topK, call.metric, call.clock);
  }

  method SearchBm25(s: Server, call: Call, ghost found: seq<ScoredKey>)
    requires s.Valid() && call.Bm25Call?
    requires found == Finds(s, call)
    modifies s, s.engine
    ensures s.Valid() && AfterSearch(old(s.Look()), found, call.clock, s.Look())
  {
    var _ := s.Bm25Search(call.query, call.topK, call.clock);
  }

  method SearchTfidf(s: Server, call: Call, ghost found: seq<ScoredKey>)
    requires s.Valid() && call.TfidfCall?
    requires found == Finds(s, call)
    modifies s, s.engine
    ensures s.Valid() && AfterSearch(old(s.Look()), found, call.clock, s.Look())
  {
    var _ := s.TfidfSearch(call.query, call.topK, call.clock);
  }

  method SearchLsa(s: Server, call: Call, ghost found: seq<ScoredKey>)
    requires s.Valid() && call.LsaCall?
    requires found == Finds(s, call)
    modifies s, s.engine
    ensures s.Valid() && AfterSearch(old(s.Look()), found, call.clock, s.Look())
  {
    var _ := s.LsaSearch(call.query, call.topK, call.clock);
  }

  method SearchVector(s: Server, call: Call, schedule: Scheduler, ghost found: seq<ScoredKey>)
    requires s.Valid() && IsScheduler(schedule) && call.VectorCall?
    requires found == Finds(s, call)
    modifies s, s.engine
    ensures s.Valid() && AfterSearch(old(s.Look()), found, call.clock, s.Look())
  {
    var _ := s.VectorSearch(call.query, call.queryVector, call.topK, call.embedding, schedule, call.clock);
  }

  method SearchHybrid(s: Server, call: Call, schedule: Scheduler, ghost found: seq<ScoredKey>)
    requires s.Valid() && IsScheduler(schedule) && call.HybridCall?
    requires found == Finds(s, call)
    modifies s, s.engine
    ensures s.Valid() && AfterSearch(old(s.Look()), found, call.clock, s.Look())
  {
    var _ := s.HybridSearch(call.req, call.embedding, schedule, call.clock);
  }

  method Search(s: Server, call: Call, schedule: Scheduler, ghost found: seq<ScoredKey>)
    requires s.Valid() && IsScheduler(schedule) && IsSearch(call)
    requires found == Finds(s, call)
    modifies s, s.engine
    ensures s.Valid() && AfterSearch(old(s.Look()), found, call.clock, s.Look())
  {
    match call {
      case SurfaceCall(_, _, _, _) => SearchSurface(s, call, found);
      case Bm25Call(_, _, _) => SearchBm25(s, call, found);
      case TfidfCall(_, _, _) => SearchTfidf(s, call, found);
      case LsaCall(_, _, _) => SearchLsa(s, call, found);
      case VectorCall(_, _, _, _, _) => SearchVector(s, call, schedule, found);
      case HybridCall(_, _, _) => SearchHybrid(s, call, schedule, found);
    }
  }

  method Change(s: Server, call: Call)
    requires s.Valid() && !IsSearch(call)
    modifies s, s.engine, s.bm25, s.ngram, s.tfidf, s.lsa, s.Weights()
    ensures s.Valid() && Changes(s.al, s.n, s.engine.maxMemoryBytes, old(s.Look()), call, s.Look())
  {
    match call {
      case SetCall(key, value, costMs, vector, ttlMs, now) => var _ := s.Set(key, value, costMs, vector, ttlMs, now);
      case GetCall(key, now, later) => var _ := s.Get(key, now, later);
      case DeleteCall(key) => var _ := s.Delete(key);
      case SweepCall(now) => s.Sweep(now);
      case EmbeddedCall(key, vector, now, later) => s.Embedded(key, vector, now, later);
    }
  }

  /** One call, by the step relation of the histories; found is what its search finds. */
  method Serve(s: Server, call: Call, schedule: Scheduler) returns (ghost found: seq<ScoredKey>)
    requires s.Valid() && IsScheduler(schedule)
    modifies s, s.engine, s.bm25, s.ngram, s.tfidf, s.lsa, s.Weights()
    ensures s.Valid() && found == old(Finds(s, call))
    ensures Serves(s.al, s.n, s.engine.maxMemoryBytes, old(s.Look()), call, found, s.Look())
  {
    found := Finds(s, call);
    if IsSearch(call) {
      Search(s, call, schedule, found);
    } else {
      Change(s, call);
    }
  }

  /** r is a run of the service up to now. */
  ghost predicate RunOf(s: Server, r: Run)
    requires s.n >= 1
    reads s, s.engine, s.bm25, s.ngram, s.tfidf, s.lsa
  {
    IsRun(s.al, s.n, s.engine.maxMemoryBytes, r) && Last(r) == s.Look()
  }

  /** Adds one call to a run. */
  method ServeNext(s: Server, call: Call, schedule: Scheduler, ghost r: Run) returns (ghost r': Run)
    requires s.Valid() && IsScheduler(schedule) && RunOf(s, r)
    modifies s, s.engine, s.bm25, s.ngram, s.tfidf, s.lsa, s.Weights()
    ensures s.Valid() && RunOf(s, r') && r'.calls == r.calls + [call] && r'.views[0] == r.views[0]
  {
    ghost var found := Serve(s, call, schedule);
    RunExtends(s.al, s.n, s.engine.maxMemoryBytes, r, call, found, s.Look());
    r' := Extended(r, call, found, s.Look());
  }

  method ServeCalls(s: Server, calls: seq<Call>, schedule: Scheduler) returns (ghost r: Run)
    requires s.Valid() && IsScheduler(schedule)
    modifies s, s.engine, s.bm25, s.ngram, s.tfidf, s.lsa, s.Weights()
    ensures s.Valid() && RunOf(s, r) && r.calls == calls && r.views[0] == old(s.Look())
  {
    ghost var start := s.Look();
    r := Run([], [], [start]);
    for i := 0 to |calls|
      invariant s.Valid() && RunOf(s, r) && r.calls == calls[..i] && r.views[0] == start
    {
      r := ServeNext(s, calls[i], schedule, r);
      assert calls[..i + 1] == calls[..i] + [calls[i]];
    }
  }

  /** After any sequence of calls the indexes follow the store and the byte counter is exact; in a service that
      starts with no key lost, any further key that an index still holds has expired during the run. */
  method ServeAll(s: Server, calls: seq<Call>, schedule: Scheduler) returns (ghost r: Run)
    requires s.Valid() && IsScheduler(schedule)
    modifies s, s.engine, s.bm25, s.ngram, s.tfidf, s.lsa, s.Weights()
    ensures s.Valid() && Consistent(s.al, s.n, s.Look()) && s.engine.memoryUsed == Bytes(s.engine.data)
    ensures RunOf(s, r) && r.calls == calls && r.views[0] == old(s.Look())
    ensures old(s.lost) == {} ==> StraysExpired(r)
  {
    r := ServeCalls(s, calls, schedule);
    if r.views[0].lost == {} {
      AllHaveExpired(s.al, s.n, s.engine.maxMemoryBytes, r);
    }
  }

  /** A result that is not live, of any search after such a run, is for a key that expired during the run. */
  lemma StrayResultsHaveExpired(s: Server, r: Run, call: Call)
    requires s.Valid() && RunOf(s, r)
    requires Consistent(s.al, s.n, r.views[0]) && r.views[0].lost == {}
    ensures forall x :: x in Finds(s, call) && x.key !in s.engine.data ==> HasExpired(r, x.key)
  {
    StrayResults(s, call);
    forall x | x in Finds(s, call) && x.key !in s.engine.data ensures HasExpired(r, x.key) {
      LostHasExpired(s.al, s.n, s.engine.maxMemoryBytes, r, x.key);
    }
  }

  // ---------- one strategy ----------

  /** What the call for a strategy by itself returns for the same request. */
  ghost function OwnSearch(s: Server, req: HybridRequest, embedding: Option<seq<real>>, st: Strategy): seq<ScoredKey>
    requires s.ngram != null ==> s.ngram.n >= 1
    requires s.lsa != null ==> Lsa.Coherent(s.lsa.fields)
    reads s.engine, s.bm25, s.ngram, s.tfidf, s.lsa
  {
    match st
    case SurfaceNgram => s.SurfaceResults(req.query, req.topK, Similarity.Dice)
    case LexicalBm25 => s.Bm25Results(req.query, req.topK)
    case LexicalTfidf => s.TfidfResults(req.query, req.topK)
    case SemanticLsa => s.LsaResults(req.query, req.topK)
    case SemanticDense => s.DenseResults(s.DenseQuery(req.query, req.queryVector, embedding), req.topK)
    case _ => []
  }

  lemma HitsDistinct(s: Server, req: HybridRequest, vector: seq<real>)
    requires s.Ready()
    ensures AllDistinct(s.HitsFor(req, vector))
  {
    SurfaceDistinct(s, req.query);
    if s.bm25 != null {
      TruncatedDistinct(Bm25.BruteForce(s.bm25.p, s.bm25.docTokens, Text.Tokenize(s.bm25.al, req.query)), 0);
    }
    if s.tfidf != null {
      TruncatedDistinct(Tfidf.Cosines(s.tfidf.p, s.tfidf.docTokens, Text.Tokenize(s.tfidf.al, req.query)), 0);
    }
    if s.lsa != null {
      Lsa.ResultsDistinct(s.lsa.p, s.lsa.fields, Text.Tokenize(s.lsa.al, req.query), 0);
    }
    Pool.ResultsDistinct(vector, s.engine.data, 0, s.p.sqrt);
  }

  lemma SurfaceDistinct(s: Server, query: string)
    requires s.Ready()
    ensures DistinctKeys(s.SurfaceResults(query, 0, Similarity.Dice))
  {
    if s.ngram != null && query != "" && Ngram.GramsOf(s.ngram.al, s.ngram.n, query) != [] {
      TruncatedDistinct(Ngram.Similarities(Similarity.Dice, s.ngram.docNgrams,
        Ngram.GramsOf(s.ngram.al, s.ngram.n, query)), 0);
    }
  }

  lemma OwnIsOwn(s: Server, req: HybridRequest, embedding: Option<seq<real>>, st: Strategy)
    requires s.Ready()
    ensures OwnResults(s.Present(), req, s.HitsFor(req, s.DenseQuery(req.query, req.queryVector, embedding)), st) ==
      OwnSearch(s, req, embedding, st)
  {
    if st == SurfaceNgram || st == LexicalBm25 || st == LexicalTfidf {
      OwnWords(s, req, embedding, st);
    }
  }

  lemma OwnWords(s: Server, req: HybridRequest, embedding: Option<seq<real>>, st: Strategy)
    requires s.Ready() && (st == SurfaceNgram || st == LexicalBm25 || st == LexicalTfidf)
    ensures OwnResults(s.Present(), req, s.HitsFor(req, s.DenseQuery(req.query, req.queryVector, embedding)), st) ==
      OwnSearch(s, req, embedding, st)
  {
  }

  /** A hybrid search that names one strategy returns the keys of that strategy's own search, in the same order. */
  lemma HybridOfOne(s: Server, req: HybridRequest, embedding: Option<seq<real>>, st: Strategy)
    requires s.Ready() && req.strategies == [st] && st != Unspecified
    ensures KeysOf(s.HybridHits(req, embedding)) == KeysOf(OwnSearch(s, req, embedding, st))
  {
    var vector := s.DenseQuery(req.query, req.queryVector, embedding);
    HitsDistinct(s, req, vector);
    SingleStrategy(s.Present(), req, s.HitsFor(req, vector), st, FusionK(req, s.defaultRRFK));
    OwnIsOwn(s, req, embedding, st);
  }
}
