/** The service: an engine and its optional search indexes. */
module Service {
  import opened Ranking
  import opened Items
  import opened Store
  import opened Answers
  import opened Tracking
  import opened History
  import opened Requests
  import Oracles
  import Text
  import Postings
  import Bm25
  import Tfidf
  import Extraction
  import Ngram
  import TypoTolerance
  import Similarity
  import Lsa
  import Fusion
  import Pool

  class Server {
    const al: Text.Alphabet
    const n: nat
    const engine: Engine
    const bm25: Bm25.Bm25Index?
    const ngram: Ngram.NgramIndex?
    const tfidf: Tfidf.TfidfIndex?
    const lsa: Lsa.LSAIndex?
    const p: Oracles.Maths
    const hasEmbedder: bool
    const defaultRRFK: real
    const gomaxprocs: int
    ghost var lost: set<Key>

    /** A service over an engine and indexes of one alphabet; any index may be missing. */
    constructor (al: Text.Alphabet, engine: Engine, bm25: Bm25.Bm25Index?, ngram: Ngram.NgramIndex?,
                 tfidf: Tfidf.TfidfIndex?, lsa: Lsa.LSAIndex?, p: Oracles.Maths, hasEmbedder: bool,
                 defaultRRFK: real, gomaxprocs: int)
      requires engine.Valid()
      requires bm25 != null ==> bm25.Valid() && bm25.al == al
      requires ngram != null ==> ngram.Valid() && ngram.al == al
      requires tfidf != null ==> tfidf.Valid() && tfidf.al == al
      requires lsa != null ==> lsa.Valid() && lsa.al == al && lsa.tfidf != tfidf
      ensures Ready() && lost == {} && this.defaultRRFK == if defaultRRFK <= 0.0 then 60.0 else defaultRRFK
      ensures this.engine == engine && this.bm25 == bm25 && this.ngram == ngram && this.tfidf == tfidf
        && this.lsa == lsa
      ensures Empty(Look()) ==> Valid()
    {
      this.al, this.engine, this.bm25, this.ngram, this.tfidf, this.lsa := al, engine, bm25, ngram, tfidf, lsa;
      this.n := if ngram == null then Extraction.DEFAULT_N else ngram.n;
      this.p, this.hasEmbedder, this.defaultRRFK, this.gomaxprocs :=
        p, hasEmbedder, Fusion.RrfK(defaultRRFK), gomaxprocs;
      lost := {};
      new;
      if Empty(Look()) {
        EmptyIsConsistent(this.al, this.n, Look());
      }
    }

    /** The latent index keeps term weights of its own. */
    ghost function Weights(): Tfidf.TfidfIndex? { if lsa == null then null else lsa.tfidf }

    ghost predicate Ready()
      reads this, engine, bm25, ngram, tfidf, lsa
    {
      && n >= 1 && engine.Valid()
      && (bm25 != null ==> bm25.Valid() && bm25.al == al)
      && (ngram != null ==> ngram.Valid() && ngram.al == al && ngram.n == n)
      && (tfidf != null ==> tfidf.Valid() && tfidf.al == al)
      && (lsa != null ==> lsa.Valid() && lsa.al == al && lsa.tfidf != tfidf)
    }

    ghost function Look(): View
      reads this, engine, bm25, ngram, tfidf, lsa
    {
      View(engine.data,
           if bm25 != null then Some(bm25.docTokens) else None,
           if ngram != null then Some(ngram.docNgrams) else None,
           if tfidf != null then Some(tfidf.docTokens) else None,
           if lsa != null then Some(lsa.fields.docKeyToIdx.Keys) else None,
           lost)
    }

    ghost predicate Valid()
      reads this, engine, bm25, ngram, tfidf, lsa
    {
      Ready() && Consistent(al, n, Look())
    }

    method IndexBm25(key: Key, value: string)
      requires Ready()
      modifies bm25
      ensures Ready() && Look() == old(Look()).(bm25 := WithDoc(old(Look()).bm25, key, Text.Tokenize(al, value)))
    {
      if bm25 != null {
        bm25.IndexDocument(key, value);
      }
    }

    method IndexNgram(key: Key, value: string)
      requires Ready()
      modifies ngram
      ensures Ready() && Look() == old(Look()).(ngram := WithGrams(old(Look()).ngram, key, Ngram.GramsOf(al, n, value)))
    {
      if ngram != null {
        ngram.IndexDocument(key, value);
      }
    }

    method IndexTfidf(key: Key, value: string)
      requires Ready()
      modifies tfidf
      ensures Ready() && Look() == old(Look()).(tfidf := WithDoc(old(Look()).tfidf, key, Text.Tokenize(al, value)))
    {
      if tfidf != null {
        tfidf.IndexDocument(key, value);
      }
    }

    method IndexAll(key: Key, value: string)
      requires Ready()
      modifies bm25, ngram, tfidf
      ensures Ready()
      ensures Look() == old(Look()).(
        bm25 := WithDoc(old(Look()).bm25, key, Text.Tokenize(al, value)),
        ngram := WithGrams(old(Look()).ngram, key, Ngram.GramsOf(al, n, value)),
        tfidf := WithDoc(old(Look()).tfidf, key, Text.Tokenize(al, value)))
    {
      IndexBm25(key, value);
      IndexNgram(key, value);
      IndexTfidf(key, value);
    }

    method RemoveBm25(key: Key)
      requires Ready()
      modifies bm25
      ensures Ready() && Look() == old(Look()).(bm25 := Without(old(Look()).bm25, key))
    {
      ghost var before := Look();
      if bm25 != null {
        bm25.RemoveDocument(key);
      }
      assert Look().bm25 == Without(before.bm25, key);
    }

    method RemoveNgram(key: Key)
      requires Ready()
      modifies ngram
      ensures Ready() && Look() == old(Look()).(ngram := Without(old(Look()).ngram, key))
    {
      ghost var before := Look();
      if ngram != null {
        ngram.RemoveDocument(key);
      }
      assert Look().ngram == Without(before.ngram, key);
    }

    method RemoveTfidf(key: Key)
      requires Ready()
      modifies tfidf
      ensures Ready() && Look() == old(Look()).(tfidf := Without(old(Look()).tfidf, key))
    {
      ghost var before := Look();
      if tfidf != null {
        tfidf.RemoveDocument(key);
      }
      assert Look().tfidf == Without(before.tfidf, key);
    }

    method RemoveAll(key: Key)
      requires Ready()
      modifies bm25, ngram, tfidf
      ensures Ready()
      ensures Look() == old(Look()).(
        bm25 := Without(old(Look()).bm25, key),
        ngram := Without(old(Look()).ngram, key),
        tfidf := Without(old(Look()).tfidf, key))
    {
      RemoveBm25(key);
      RemoveNgram(key);
      RemoveTfidf(key);
    }

    method RebuildBm25(items: Data)
      requires Ready()
      modifies bm25
      ensures Ready() && Look() ==
        old(Look()).(bm25 := if bm25 != null then Some(Postings.TokensOf(al, items)) else None)
    {
      if bm25 != null {
        bm25.Rebuild(items);
      }
    }

    method RebuildNgram(items: Data)
      requires Ready()
      modifies ngram
      ensures Ready() && Look() ==
        old(Look()).(ngram := if ngram != null then Some(Postings.WithTokens(Ngram.GramDocs(al, n, items))) else None)
    {
      if ngram != null {
        ngram.Rebuild(items);
      }
    }

    method RebuildTfidf(items: Data)
      requires Ready()
      modifies tfidf
      ensures Ready() && Look() ==
        old(Look()).(tfidf := if tfidf != null then Some(Postings.WithTokens(Postings.TokensOf(al, items))) else None)
    {
      if tfidf != null {
        tfidf.Rebuild(items);
      }
    }

    method RebuildAll(items: Data)
      requires Ready()
      modifies bm25, ngram, tfidf
      ensures Ready()
      ensures Look() == old(Look()).(
        bm25 := if bm25 != null then Some(Postings.TokensOf(al, items)) else None,
        ngram := if ngram != null then Some(Postings.WithTokens(Ngram.GramDocs(al, n, items))) else None,
        tfidf := if tfidf != null then Some(Postings.WithTokens(Postings.TokensOf(al, items))) else None)
    {
      RebuildBm25(items);
      RebuildNgram(items);
      RebuildTfidf(items);
    }

    /** Keeps the account of keys lost to expiry. */
    ghost method NoteLosses(before: View)
      requires Ready() && Consistent(al, n, before)
      requires Look() == before.(data := engine.data) && Shrinks(before.data, engine.data)
      modifies this
      ensures Valid() && Look() == AfterLoss(before, engine.data)
    {
      LossKeepsConsistent(al, n, before, engine.data);
      lost := lost + (before.data.Keys - engine.data.Keys);
    }

    method RebuildLatent(items: Data)
      requires Ready() && items == engine.data
      modifies lsa, Weights()
      ensures Ready() && Look() == old(Look()).(lsa := RebuiltLsa(al, old(Look()), engine.data))
    {
      if lsa != null {
        var _, _ := lsa.Rebuild(items);
        LatentKeysAre(lsa, items);
      }
    }

    /** A Set that does not fit changes nothing; any other reaches the store and every index. */
    method Set(key: Key, value: string, costMs: int, vector: seq<real>, ttlMs: int, now: int) returns (ok: bool)
      requires Valid()
      modifies this, engine, bm25, ngram, tfidf, lsa, Weights()
      ensures Valid()
      ensures var item := NewItem(value, costMs, vector, ttlMs, now);
        && (ok <==> Bytes(old(engine.data)[key := item]) <= engine.maxMemoryBytes)
        && Look() == if ok then AfterSet(al, n, old(Look()), key, item) else old(Look())
    {
      var item := NewItem(value, costMs, vector, ttlMs, now);
      ghost var before := Look();
      SetKeepsConsistent(al, n, before, key, item);
      ok := engine.Set(key, item);
      if ok {
        Indexed(key, item, before);
      }
    }

    /** The part of Set after the store has accepted the item. */
    method Indexed(key: Key, item: Item, ghost before: View)
      requires Ready() && Look() == before.(data := before.data[key := item])
      modifies this, bm25, ngram, tfidf, lsa, Weights()
      ensures Ready() && Look() == AfterSet(al, n, before, key, item)
    {
      IndexAll(key, item.value);
      lost := lost - {key};
      RebuildLatent(engine.data);
    }

    method Get(key: Key, now: int, later: int) returns (found: Option<Item>)
      requires Valid()
      modifies this, engine
      ensures Valid() && found == Lookup(old(engine.data), key, now, later)
      ensures Look() == AfterLoss(old(Look()), AfterGet(old(engine.data), key, now, later))
    {
      ghost var before := Look();
      GetShrinks(before.data, key, now, later);
      found := engine.Get(key, now, later);
      NoteLosses(before);
    }

    method Delete(key: Key) returns (deleted: bool)
      requires Valid()
      modifies this, engine, bm25, ngram, tfidf, lsa, Weights()
      ensures Valid() && (deleted <==> key in old(engine.data))
      ensures Look() == if deleted then AfterDelete(al, old(Look()), key) else old(Look())
    {
      ghost var before := Look();
      deleted := Dropped(key);
      if deleted {
        Removed(key, before);
      }
    }

    /** The store's part of Delete. */
    method Dropped(key: Key) returns (deleted: bool)
      requires Ready()
      modifies engine
      ensures Ready() && (deleted <==> key in old(engine.data))
      ensures Look() == if deleted then old(Look()).(data := old(engine.data) - {key}) else old(Look())
    {
      deleted := engine.Delete(key);
    }

    /** The part of Delete after the store has removed the item. */
    method Removed(key: Key, ghost before: View)
      requires Ready() && Consistent(al, n, before) && Look() == before.(data := before.data - {key})
      modifies bm25, ngram, tfidf, lsa, Weights()
      ensures Valid() && Look() == AfterDelete(al, before, key)
    {
      DeleteKeepsConsistent(al, n, before, key);
      RemoveAll(key);
      RebuildLatent(engine.data);
    }

    /** The background sweep tells no index. */
    method Sweep(now: int)
      requires Valid()
      modifies this, engine
      ensures Valid() && Look() == AfterLoss(old(Look()), Unexpired(old(engine.data), now))
    {
      ghost var before := Look();
      engine.EvictExpired(now);
      NoteLosses(before);
    }

    /** The embedder's callback, taken as one step: a new vector for a live item, then all indexes anew. */
    method Embedded(key: Key, vector: seq<real>, now: int, later: int)
      requires Valid()
      modifies this, engine, bm25, ngram, tfidf, lsa, Weights()
      ensures Valid()
      ensures AfterEmbedding(al, n, engine.maxMemoryBytes, old(Look()), key, vector, now, later, Look())
    {
      var item := Get(key, now, later);
      if item.Some? {
        Replace(key, item.value.(vector := vector));
      }
    }

    method Replace(key: Key, item: Item)
      requires Ready()
      modifies this, engine, bm25, ngram, tfidf, lsa, Weights()
      ensures Valid()
      ensures Look() == AfterRebuild(al, n,
        old(Look()).(data := Effect(engine.maxMemoryBytes, old(engine.data), SetOp(key, item))))
    {
      var _ := engine.Set(key, item);
      Reindexed();
    }

    /** Rebuilds all indexes from the store. */
    method Reindexed()
      requires Ready()
      modifies this, bm25, ngram, tfidf, lsa, Weights()
      ensures Valid() && Look() == AfterRebuild(al, n, old(Look()))
    {
      RebuildKeepsConsistent(al, n, Look());
      RebuildAll(engine.data);
      RebuildLatent(engine.data);
      lost := {};
    }

    /** Answers a search: the results are looked up one by one, which counts as accesses. */
    method Answer(scored: seq<ScoredKey>, clock: Clock) returns (out: seq<SearchResult>)
      requires Valid() && DistinctKeys(scored) && Known(Look(), scored)
      modifies this, engine
      ensures Valid() && AfterSearch(old(Look()), scored, clock, Look())
      ensures Answered(old(engine.data), scored, clock, out) && StraysLost(old(Look()), out)
    {
      ghost var before := Look();
      out := ToProtoResults(scored, engine, clock);
      AccessedShrinks(before.data, scored, clock, engine.data);
      AnswersKnown(before, scored, clock, out);
      NoteLosses(before);
    }

    // ---------- searches ----------

    ghost function SurfaceResults(query: string, topK: int, metric: Similarity.Metric): seq<ScoredKey>
      requires ngram != null ==> ngram.n >= 1
      reads ngram
    {
      if ngram == null || query == "" || Ngram.GramsOf(ngram.al, ngram.n, query) == [] then []
      else Truncate(Ranked(Ngram.Similarities(metric, ngram.docNgrams, Ngram.GramsOf(ngram.al, ngram.n, query))), topK)
    }

    ghost function Bm25Results(query: string, topK: int): seq<ScoredKey>
      reads bm25
    {
      if bm25 == null || query == "" then []
      else Truncate(Ranked(Bm25.BruteForce(bm25.p, bm25.docTokens, Text.Tokenize(bm25.al, query))), topK)
    }

    ghost function TfidfResults(query: string, topK: int): seq<ScoredKey>
      reads tfidf
    {
      if tfidf == null || query == "" then []
      else Truncate(Ranked(Tfidf.Cosines(tfidf.p, tfidf.docTokens, Text.Tokenize(tfidf.al, query))), topK)
    }

    ghost function LsaResults(query: string, topK: int): seq<ScoredKey>
      requires lsa != null ==> Lsa.Coherent(lsa.fields)
      reads lsa
    {
      if lsa == null || query == "" then [] else Lsa.Results(lsa.p, lsa.fields, Text.Tokenize(lsa.al, query), topK)
    }

    method SurfaceSearch(query: string, topK: int, metric: Similarity.Metric, clock: Clock)
      returns (out: seq<SearchResult>)
      requires Valid()
      modifies this, engine
      ensures Valid() && AfterSearch(old(Look()), old(SurfaceResults(query, topK, metric)), clock, Look())
      ensures Answered(old(engine.data), old(SurfaceResults(query, topK, metric)), clock, out)
      ensures StraysLost(old(Look()), out)
    {
      var results := FindSurface(query, topK, metric);
      SurfaceKnown(this, query, topK, metric);
      out := Answer(results, clock);
    }

    method FindSurface(query: string, topK: int, metric: Similarity.Metric) returns (r: seq<ScoredKey>)
      requires ngram != null ==> ngram.Valid()
      ensures r == SurfaceResults(query, topK, metric) && DistinctKeys(r)
    {
      if ngram == null || |query| == 0 {
        return [];
      }
      r := ngram.SearchWithMetric(query, topK, metric);
      ghost var grams := Ngram.GramsOf(ngram.al, ngram.n, query);
      if grams != [] {
        TruncatedDistinct(Ngram.Similarities(metric, ngram.docNgrams, grams), topK);
      }
    }

    method Bm25Search(query: string, topK: int, clock: Clock) returns (out: seq<SearchResult>)
      requires Valid()
      modifies this, engine
      ensures Valid() && AfterSearch(old(Look()), old(Bm25Results(query, topK)), clock, Look())
      ensures Answered(old(engine.data), old(Bm25Results(query, topK)), clock, out)
      ensures StraysLost(old(Look()), out)
    {
      var results := FindBm25(query, topK);
      Bm25Known(this, query, topK);
      out := Answer(results, clock);
    }

    method FindBm25(query: string, topK: int) returns (r: seq<ScoredKey>)
      requires bm25 != null ==> bm25.Valid()
      ensures r == Bm25Results(query, topK) && DistinctKeys(r)
    {
      if bm25 == null || |query| == 0 {
        return [];
      }
      r := bm25.Search(query, topK);
      TruncatedDistinct(Bm25.BruteForce(bm25.p, bm25.docTokens, Text.Tokenize(bm25.al, query)), topK);
    }

    method TfidfSearch(query: string, topK: int, clock: Clock) returns (out: seq<SearchResult>)
      requires Valid()
      modifies this, engine
      ensures Valid() && AfterSearch(old(Look()), old(TfidfResults(query, topK)), clock, Look())
      ensures Answered(old(engine.data), old(TfidfResults(query, topK)), clock, out)
      ensures StraysLost(old(Look()), out)
    {
      var results := FindTfidf(query, topK);
      TfidfKnown(this, query, topK);
      out := Answer(results, clock);
    }

    method FindTfidf(query: string, topK: int) returns (r: seq<ScoredKey>)
      requires tfidf != null ==> tfidf.Valid()
      ensures r == TfidfResults(query, topK) && DistinctKeys(r)
    {
      if tfidf == null || |query| == 0 {
        return [];
      }
      r := tfidf.Search(query, topK);
      TruncatedDistinct(Tfidf.Cosines(tfidf.p, tfidf.docTokens, Text.Tokenize(tfidf.al, query)), topK);
    }

    method LsaSearch(query: string, topK: int, clock: Clock) returns (out: seq<SearchResult>)
      requires Valid()
      modifies this, engine
      ensures Valid() && AfterSearch(old(Look()), old(LsaResults(query, topK)), clock, Look())
      ensures Answered(old(engine.data), old(LsaResults(query, topK)), clock, out)
      ensures StraysLost(old(Look()), out)
    {
      var results := FindLsa(query, topK);
      LsaKnown(this, query, topK);
      out := Answer(results, clock);
    }

    method FindLsa(query: string, topK: int) returns (r: seq<ScoredKey>)
      requires lsa != null ==> lsa.Valid()
      ensures r == LsaResults(query, topK) && DistinctKeys(r)
    {
      if lsa == null || |query| == 0 {
        return [];
      }
      r := lsa.Search(query, topK);
      Lsa.ResultsDistinct(lsa.p, lsa.fields, Text.Tokenize(lsa.al, query), topK);
    }

    /** The query vector: the one given, or the embedding of the query if there is an embedder that answers. */
    function DenseQuery(query: string, queryVector: seq<real>, embedding: Option<seq<real>>): (vector: seq<real>)
      ensures queryVector != [] || query == "" || !hasEmbedder ==> vector == queryVector
      ensures queryVector == [] && query != "" && hasEmbedder && embedding.Some? ==> vector == embedding.value
    {
      if |queryVector| == 0 && |query| > 0 && hasEmbedder && embedding.Some? then embedding.value else queryVector
    }

    ghost function DenseResults(vector: seq<real>, topK: int): seq<ScoredKey>
      reads engine
    {
      Pool.Results(vector, engine.data, topK, p.sqrt)
    }

    method FindDense(vector: seq<real>, topK: int, schedule: Scheduler) returns (r: seq<ScoredKey>)
      requires IsScheduler(schedule)
      ensures r == DenseResults(vector, topK) && DistinctKeys(r)
    {
      var items := engine.Items();
      var c := Pool.Config(items, vector, Pool.Workers(gomaxprocs), p.sqrt);
      r := Pool.VectorSearch(vector, items, topK, gomaxprocs, p.sqrt, schedule(c));
      Pool.ResultsDistinct(vector, items, topK, p.sqrt);
    }

    method VectorSearch(query: string, queryVector: seq<real>, topK: int, embedding: Option<seq<real>>,
                        schedule: Scheduler, clock: Clock)
      returns (out: seq<SearchResult>)
      requires Valid() && IsScheduler(schedule)
      modifies this, engine
      ensures Valid() && AfterSearch(old(Look()), old(DenseResults(DenseQuery(query, queryVector, embedding), topK)),
        clock, Look())
      ensures Answered(old(engine.data), old(DenseResults(DenseQuery(query, queryVector, embedding), topK)), clock, out)
      ensures StraysLost(old(Look()), out)
    {
      var results := FindDense(DenseQuery(query, queryVector, embedding), topK, schedule);
      DenseKnown(this, DenseQuery(query, queryVector, embedding), topK);
      out := Answer(results, clock);
    }

    function Present(): (av: Available)
      ensures (av.ngram <==> ngram != null) && (av.bm25 <==> bm25 != null) && (av.tfidf <==> tfidf != null)
      ensures (av.lsa <==> lsa != null) && (av.embedder <==> hasEmbedder)
    {
      Available(ngram != null, bm25 != null, tfidf != null, lsa != null, hasEmbedder)
    }

    /** What each strategy's own search finds for a request, without a limit. */
    ghost function HitsFor(req: HybridRequest, vector: seq<real>): Hits
      requires ngram != null ==> ngram.n >= 1
      requires lsa != null ==> Lsa.Coherent(lsa.fields)
      reads engine, bm25, ngram, tfidf, lsa
    {
      Hits(SurfaceResults(req.query, 0, Similarity.Dice), Bm25Results(req.query, 0), TfidfResults(req.query, 0),
           LsaResults(req.query, 0), DenseResults(vector, 0))
    }

    // Each list is added if its strategy runs and finds anything, up to twice the limit.

    method AddSurface(lists: seq<seq<ScoredKey>>, used: bool, query: string, topK: int, ghost hits: seq<ScoredKey>)
      returns (r: seq<seq<ScoredKey>>)
      requires ngram != null ==> ngram.Valid()
      requires hits == SurfaceResults(query, 0, Similarity.Dice)
      ensures r == Added(lists, used, hits, topK)
    {
      r := lists;
      if used {
        var list := FindSurface(query, 2 * topK, Similarity.Dice);
        if |list| > 0 {
          r := r + [list];
        }
      }
    }

    method AddBm25(lists: seq<seq<ScoredKey>>, used: bool, query: string, topK: int, ghost hits: seq<ScoredKey>)
      returns (r: seq<seq<ScoredKey>>)
      requires bm25 != null ==> bm25.Valid()
      requires hits == Bm25Results(query, 0)
      ensures r == Added(lists, used, hits, topK)
    {
      r := lists;
      if used {
        var list := FindBm25(query, 2 * topK);
        if |list| > 0 {
          r := r + [list];
        }
      }
    }

    method AddTfidf(lists: seq<seq<ScoredKey>>, used: bool, query: string, topK: int, ghost hits: seq<ScoredKey>)
      returns (r: seq<seq<ScoredKey>>)
      requires tfidf != null ==> tfidf.Valid()
      requires hits == TfidfResults(query, 0)
      ensures r == Added(lists, used, hits, topK)
    {
      r := lists;
      if used {
        var list := FindTfidf(query, 2 * topK);
        if |list| > 0 {
          r := r + [list];
        }
      }
    }

    method AddLsa(lists: seq<seq<ScoredKey>>, used: bool, query: string, topK: int, ghost hits: seq<ScoredKey>)
      returns (r: seq<seq<ScoredKey>>)
      requires lsa != null ==> lsa.Valid()
      requires hits == LsaResults(query, 0)
      ensures r == Added(lists, used, hits, topK)
    {
      r := lists;
      if used {
        var list := FindLsa(query, 2 * topK);
        if |list| > 0 {
          r := r + [list];
        }
      }
    }

    method AddDense(lists: seq<seq<ScoredKey>>, used: bool, vector: seq<real>, topK: int, schedule: Scheduler,
                    ghost hits: seq<ScoredKey>)
      returns (r: seq<seq<ScoredKey>>)
      requires IsScheduler(schedule) && hits == DenseResults(vector, 0)
      ensures r == Added(lists, used, hits, topK)
    {
      r := lists;
      if used && |vector| > 0 {
        var list := FindDense(vector, 2 * topK, schedule);
        if |list| > 0 {
          r := r + [list];
        }
      }
    }

    method FindWordLists(use: Use, query: string, topK: int, ghost h: Hits) returns (lists: seq<seq<ScoredKey>>)
      requires Ready()
      requires h.surface == SurfaceResults(query, 0, Similarity.Dice) && h.bm25 == Bm25Results(query, 0)
      requires h.tfidf == TfidfResults(query, 0)
      ensures lists == WordLists(use, h, topK)
    {
      lists := AddSurface([], use.surface, query, topK, h.surface);
      lists := AddBm25(lists, use.bm25, query, topK, h.bm25);
      lists := AddTfidf(lists, use.tfidf, query, topK, h.tfidf);
    }

    method FindLists(req: HybridRequest, use: Use, vector: seq<real>, schedule: Scheduler, ghost h: Hits)
      returns (lists: seq<seq<ScoredKey>>)
      requires Ready() && IsScheduler(schedule) && h == HitsFor(req, vector)
      ensures lists == RankLists(use, h, req.topK)
    {
      lists := FindWordLists(use, req.query, req.topK, h);
      lists := AddLsa(lists, use.lsa, req.query, req.topK, h.lsa);
      lists := AddDense(lists, use.dense, vector, req.topK, schedule, h.dense);
    }

    /** The keys a hybrid search ought to return. */
    ghost function HybridHits(req: HybridRequest, embedding: Option<seq<real>>): seq<ScoredKey>
      requires ngram != null ==> ngram.n >= 1
      requires lsa != null ==> Lsa.Coherent(lsa.fields)
      reads engine, bm25, ngram, tfidf, lsa
    {
      HybridResults(Chosen(Present(), req), HitsFor(req, DenseQuery(req.query, req.queryVector, embedding)), req.topK,
                    FusionK(req, defaultRRFK))
    }

    method HybridSearch(req: HybridRequest, embedding: Option<seq<real>>, schedule: Scheduler, clock: Clock)
      returns (out: seq<SearchResult>)
      requires Valid() && IsScheduler(schedule)
      modifies this, engine
      ensures Valid() && AfterSearch(old(Look()), old(HybridHits(req, embedding)), clock, Look())
      ensures Answered(old(engine.data), old(HybridHits(req, embedding)), clock, out)
      ensures StraysLost(old(Look()), out)
    {
      var vector := DenseQuery(req.query, req.queryVector, embedding);
      var fused := FindHybrid(req, vector, schedule, HitsFor(req, vector));
      HybridKnown(this, req, embedding);
      out := Answer(fused, clock);
    }

    method FindHybrid(req: HybridRequest, vector: seq<real>, schedule: Scheduler, ghost h: Hits)
      returns (fused: seq<ScoredKey>)
      requires Ready() && IsScheduler(schedule) && h == HitsFor(req, vector)
      ensures fused == HybridResults(Chosen(Present(), req), h, req.topK, FusionK(req, defaultRRFK))
        && DistinctKeys(fused)
    {
      var use := ChooseStrategies(Present(), req);
      var lists := FindLists(req, use, vector, schedule, h);
      fused := Fuse(lists, req, defaultRRFK, use, h);
    }
  }

  /** The runtime's choice of the next step of a worker pool. */
  type Scheduler = Pool.Config -> ((nat, Pool.State) -> Pool.Step)

  ghost predicate IsScheduler(schedule: Scheduler) { forall c :: Pool.Schedules(schedule(c), c) }

  lemma LatentKeysAre(lsa: Lsa.LSAIndex, items: Data)
    requires Lsa.Rebuilt(lsa.dimK, Postings.TokensOf(lsa.al, items), lsa.fields)
    ensures lsa.fields.docKeyToIdx.Keys == LatentKeys(lsa.al, items)
  {
  }

  /** There are such choices: some step is always possible. */
  lemma SchedulerExists() returns (schedule: Scheduler)
    ensures IsScheduler(schedule)
  {
    schedule := c => Pool.AnyChoice(c);
    forall c { Pool.AnyChoiceSchedules(c); }
  }

  // ---------- every result is for a live key or a lost one ----------

  lemma SurfaceKnown(s: Server, query: string, topK: int, metric: Similarity.Metric)
    requires s.Valid()
    ensures Known(s.Look(), s.SurfaceResults(query, topK, metric))
  {
    if s.ngram != null && query != "" && Ngram.GramsOf(s.al, s.n, query) != [] {
      TableKnown(s.Look(), s.ngram.docNgrams, Ngram.GramDocs(s.al, s.n, s.engine.data),
                 Ngram.Similarities(metric, s.ngram.docNgrams, Ngram.GramsOf(s.al, s.n, query)), topK);
    }
  }

  lemma Bm25Known(s: Server, query: string, topK: int)
    requires s.Valid()
    ensures Known(s.Look(), s.Bm25Results(query, topK))
  {
    if s.bm25 != null && query != "" {
      TableKnown(s.Look(), s.bm25.docTokens, Postings.TokensOf(s.al, s.engine.data),
                 Bm25.BruteForce(s.bm25.p, s.bm25.docTokens, Text.Tokenize(s.al, query)), topK);
    }
  }

  lemma TfidfKnown(s: Server, query: string, topK: int)
    requires s.Valid()
    ensures Known(s.Look(), s.TfidfResults(query, topK))
  {
    if s.tfidf != null && query != "" {
      TableKnown(s.Look(), s.tfidf.docTokens, Postings.TokensOf(s.al, s.engine.data),
                 Tfidf.Cosines(s.tfidf.p, s.tfidf.docTokens, Text.Tokenize(s.al, query)), topK);
    }
  }

  lemma LsaKnown(s: Server, query: string, topK: int)
    requires s.Valid()
    ensures Known(s.Look(), s.LsaResults(query, topK))
  {
    if s.lsa != null && query != "" {
      forall x | x in s.LsaResults(query, topK) ensures x.key in s.engine.data || x.key in s.lost {
        Lsa.ResultBounds(s.lsa.p, s.lsa.fields, Text.Tokenize(s.al, query), topK, x);
      }
    }
  }

  lemma DenseKnown(s: Server, vector: seq<real>, topK: int)
    requires s.Valid()
    ensures Known(s.Look(), s.DenseResults(vector, topK))
  {
    Pool.ResultsDistinct(vector, s.engine.data, topK, s.p.sqrt);
  }

  lemma HybridKnown(s: Server, req: HybridRequest, embedding: Option<seq<real>>)
    requires s.Valid()
    ensures Known(s.Look(), s.HybridHits(req, embedding))
  {
    var vector := s.DenseQuery(req.query, req.queryVector, embedding);
    SurfaceKnown(s, req.query, 0, Similarity.Dice);
    Bm25Known(s, req.query, 0);
    TfidfKnown(s, req.query, 0);
    LsaKnown(s, req.query, 0);
    DenseKnown(s, vector, 0);
    var h := s.HitsFor(req, vector);
    forall x | x in s.HybridHits(req, embedding) ensures x.key in s.engine.data || x.key in s.lost {
      FusedFromHits(Chosen(s.Present(), req), h, req.topK, FusionK(req, s.defaultRRFK), x);
    }
  }

  /** What the search of a call finds. */
  ghost function Finds(s: Server, call: Call): seq<ScoredKey>
    requires s.ngram != null ==> s.ngram.n >= 1
    requires s.lsa != null ==> Lsa.Coherent(s.lsa.fields)
    reads s.engine, s.bm25, s.ngram, s.tfidf, s.lsa
  {
    match call
    case SurfaceCall(query, topK, metric, _) => s.SurfaceResults(query, topK, metric)
    case Bm25Call(query, topK, _) => s.Bm25Results(query, topK)
    case TfidfCall(query, topK, _) => s.TfidfResults(query, topK)
    case LsaCall(query, topK, _) => s.LsaResults(query, topK)
    case VectorCall(query, queryVector, topK, embedding, _) =>
      s.DenseResults(s.DenseQuery(query, queryVector, embedding), topK)
    case HybridCall(req, embedding, _) => s.HybridHits(req, embedding)
    case _ => []
  }

  /** A result that is not live, of any search of the service, is for a lost key. */
  lemma StrayResults(s: Server, call: Call)
    requires s.Valid()
    ensures forall x :: x in Finds(s, call) && x.key !in s.engine.data ==> x.key in s.lost
  {
    FindsKnown(s, call);
    assert Known(s.Look(), Finds(s, call));
  }

  lemma FindsKnown(s: Server, call: Call)
    requires s.Valid()
    ensures Known(s.Look(), Finds(s, call))
  {
    if call.Bm25Call? || call.TfidfCall? {
      LexicalFindsKnown(s, call);
    } else if call.SurfaceCall? || call.LsaCall? {
      LooseFindsKnown(s, call);
    } else if call.VectorCall? || call.HybridCall? {
      StoreFindsKnown(s, call);
    }
  }

  lemma LexicalFindsKnown(s: Server, call: Call)
    requires s.Valid() && (call.Bm25Call? || call.TfidfCall?)
    ensures Known(s.Look(), Finds(s, call))
  {
    if call.Bm25Call? {
      Bm25Known(s, call.query, call.topK);
    } else {
      TfidfKnown(s, call.query, call.topK);
    }
  }

  lemma LooseFindsKnown(s: Server, call: Call)
    requires s.Valid() && (call.SurfaceCall? || call.LsaCall?)
    ensures Known(s.Look(), Finds(s, call))
  {
    if call.SurfaceCall? {
      SurfaceKnown(s, call.query, call.topK, call.metric);
    } else {
      LsaKnown(s, call.query, call.topK);
    }
  }

  lemma StoreFindsKnown(s: Server, call: Call)
    requires s.Valid() && (call.VectorCall? || call.HybridCall?)
    ensures Known(s.Look(), Finds(s, call))
  {
    if call.VectorCall? {
      DenseKnown(s, s.DenseQuery(call.query, call.queryVector, call.embedding), call.topK);
    } else {
      HybridKnown(s, call.req, call.embedding);
    }
  }

  // ---------- what a misspelt query is answered ----------

  /** The n-gram index holds the n-grams of every live item that has any. */
  lemma HoldsGrams(s: Server, key: Key)
    requires s.Valid() && s.ngram != null && key in s.engine.data
    ensures Tracking.At(s.ngram.docNgrams, key) == Ngram.GramsOf(s.al, s.n, s.engine.data[key].value)
  {
    assert key in Ngram.GramDocs(s.al, s.n, s.engine.data);
  }

  /** Without a limit, a surface search d edits from the value of an item with more than n d n-grams finds its key. */
  lemma MisspeltSearchFinds(s: Server, key: Key, query: string, es: seq<TypoTolerance.Edit>, topK: int,
                            metric: Similarity.Metric)
    requires s.Valid() && s.ngram != null && Text.IsAlphabet(s.al) && TypoTolerance.Runewise(s.al)
    requires key in s.engine.data && TypoTolerance.Turns(es, s.engine.data[key].value, query)
    requires |Ngram.GramsOf(s.al, s.n, s.engine.data[key].value)| > s.n * |es| && topK <= 0
    ensures exists x :: x in s.SurfaceResults(query, topK, metric) && x.key == key
  {
    HoldsGrams(s, key);
    MisspeltIndexFinds(s.al, s.n, s.ngram.docNgrams, key, s.engine.data[key].value, query, es, metric);
    NotLimited(s, query, topK, metric);
  }

  /** The same of an index that holds the n-grams of a value under its key. */
  lemma MisspeltIndexFinds(al: Text.Alphabet, n: nat, docs: Postings.Docs, key: Key, value: string, query: string,
                           es: seq<TypoTolerance.Edit>, metric: Similarity.Metric)
    requires Text.IsAlphabet(al) && TypoTolerance.Runewise(al) && n >= 1
    requires Tracking.At(docs, key) == Ngram.GramsOf(al, n, value)
    requires TypoTolerance.Turns(es, value, query) && |Ngram.GramsOf(al, n, value)| > n * |es|
    ensures query != "" && Ngram.GramsOf(al, n, query) != []
    ensures exists x :: x in Ranked(Ngram.Similarities(metric, docs, Ngram.GramsOf(al, n, query))) && x.key == key
  {
    TypoTolerance.MisspeltTextFinds(al, n, docs, key, value, query, es, metric);
    TypoTolerance.NoGramsOfNothing(al, n);
  }

  lemma NotLimited(s: Server, query: string, topK: int, metric: Similarity.Metric)
    requires s.Ready() && s.ngram != null && query != "" && Ngram.GramsOf(s.al, s.n, query) != [] && topK <= 0
    ensures s.SurfaceResults(query, topK, metric) ==
      Ranked(Ngram.Similarities(metric, s.ngram.docNgrams, Ngram.GramsOf(s.al, s.n, query)))
  {
  }

  /** If the item has not expired either, the answer shows its value. */
  lemma MisspeltSearchAnswers(s: Server, key: Key, query: string, es: seq<TypoTolerance.Edit>, topK: int,
                              metric: Similarity.Metric, clock: Clock, out: seq<SearchResult>)
    requires s.Valid() && s.ngram != null && Text.IsAlphabet(s.al) && TypoTolerance.Runewise(s.al)
    requires key in s.engine.data && TypoTolerance.Turns(es, s.engine.data[key].value, query)
    requires |Ngram.GramsOf(s.al, s.n, s.engine.data[key].value)| > s.n * |es| && topK <= 0
    requires forall i: nat :: !Expired(s.engine.data[key], clock(2 * i))
    requires Answered(s.engine.data, s.SurfaceResults(query, topK, metric), clock, out)
    ensures exists i :: 0 <= i < |out| && out[i].key == key && out[i].value == Some(s.engine.data[key].value)
  {
    MisspeltSearchFinds(s, key, query, es, topK, metric);
    AnswerShows(s.engine.data, s.SurfaceResults(query, topK, metric), clock, out, key);
  }
}
