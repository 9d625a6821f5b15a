/** Hybrid search requests: which strategies run, and what is fused. */
module Requests {
  import opened Ranking
  import opened Fusion
  import opened FusionLaws

  /** The strategies of the request message; clients may send numbers it does not define. */
  datatype Strategy =
    | Unspecified
    | SurfaceNgram
    | LexicalBm25
    | LexicalTfidf
    | SemanticLsa
    | SemanticDense
    | Undefined(number: int)

  datatype HybridRequest = HybridRequest(
    query: string, queryVector: seq<real>, topK: int, rrfK: real, strategies: seq<Strategy>)

  /** Which parts of the server are there. */
  datatype Available = Available(ngram: bool, bm25: bool, tfidf: bool, lsa: bool, embedder: bool)

  datatype Use = Use(surface: bool, bm25: bool, tfidf: bool, lsa: bool, dense: bool)

  function HasText(req: HybridRequest): bool { |req.query| > 0 }

  function CanEmbed(av: Available, req: HybridRequest): bool { |req.queryVector| > 0 || (av.embedder && HasText(req)) }

  /** Without a choice, the strategies that the request's fields and the server allow. */
  function ByDefault(av: Available, req: HybridRequest): Use {
    Use(av.ngram && HasText(req), av.bm25 && HasText(req), false, false, CanEmbed(av, req))
  }

  /** The strategies that run: those asked for and possible; an unspecified one asks for the default. */
  function ChosenAmong(av: Available, req: HybridRequest, strategies: seq<Strategy>): Use {
    var def := Unspecified in strategies;
    Use(av.ngram && HasText(req) && (def || SurfaceNgram in strategies),
        av.bm25 && HasText(req) && (def || LexicalBm25 in strategies),
        av.tfidf && HasText(req) && LexicalTfidf in strategies,
        av.lsa && HasText(req) && SemanticLsa in strategies,
        (def && CanEmbed(av, req)) || SemanticDense in strategies)
  }

  function Chosen(av: Available, req: HybridRequest): Use {
    if req.strategies == [] then ByDefault(av, req) else ChosenAmong(av, req, req.strategies)
  }

  /** The choice, strategy by strategy. */
  lemma ChosenAre(av: Available, req: HybridRequest)
    ensures var use, def := Chosen(av, req), req.strategies == [] || Unspecified in req.strategies;
      && (use.surface <==> av.ngram && req.query != "" && (def || SurfaceNgram in req.strategies))
      && (use.bm25 <==> av.bm25 && req.query != "" && (def || LexicalBm25 in req.strategies))
      && (use.tfidf <==> av.tfidf && req.query != "" && LexicalTfidf in req.strategies)
      && (use.lsa <==> av.lsa && req.query != "" && SemanticLsa in req.strategies)
      && (use.dense <==>
           SemanticDense in req.strategies || (def && (req.queryVector != [] || (av.embedder && req.query != ""))))
  {
  }

  /** No choice is the unspecified one, and neither order nor repetition matters. */
  lemma SameChoice(av: Available, req: HybridRequest, strategies: seq<Strategy>)
    requires forall st :: st in strategies <==> st in (if req.strategies == [] then [Unspecified] else req.strategies)
    ensures Chosen(av, req.(strategies := strategies)) == Chosen(av, req)
  {
    var asked := if req.strategies == [] then [Unspecified] else req.strategies;
    assert asked[0] in asked;
    assert forall st :: st in strategies <==> st in asked;
    ChosenAre(av, req);
    ChosenAre(av, req.(strategies := strategies));
  }

  /** One turn of the loop over the strategies. */
  function Consider(av: Available, req: HybridRequest, use: Use, st: Strategy): Use {
    match st
    case SurfaceNgram => use.(surface := av.ngram && HasText(req))
    case LexicalBm25 => use.(bm25 := av.bm25 && HasText(req))
    case LexicalTfidf => use.(tfidf := av.tfidf && HasText(req))
    case SemanticLsa => use.(lsa := av.lsa && HasText(req))
    case SemanticDense => use.(dense := true)
    case Unspecified =>
      Use(use.surface || (av.ngram && HasText(req)), use.bm25 || (av.bm25 && HasText(req)), use.tfidf, use.lsa,
          use.dense || CanEmbed(av, req))
    case Undefined(_) => use
  }

  lemma ConsiderNext(av: Available, req: HybridRequest, strategies: seq<Strategy>, st: Strategy)
    ensures Consider(av, req, ChosenAmong(av, req, strategies), st) == ChosenAmong(av, req, strategies + [st])
  {
  }

  method ChooseStrategies(av: Available, req: HybridRequest) returns (use: Use)
    ensures use == Chosen(av, req)
  {
    if |req.strategies| == 0 {
      return ByDefault(av, req);
    }
    use := Use(false, false, false, false, false);
    for i := 0 to |req.strategies|
      invariant use == ChosenAmong(av, req, req.strategies[..i])
    {
      ConsiderNext(av, req, req.strategies[..i], req.strategies[i]);
      assert req.strategies[..i + 1] == req.strategies[..i] + [req.strategies[i]];
      use := Consider(av, req, use, req.strategies[i]);
    }
    assert req.strategies[..|req.strategies|] == req.strategies;
  }

  /** What each strategy would find, without any limit. */
  datatype Hits = Hits(
    surface: seq<ScoredKey>, bm25: seq<ScoredKey>, tfidf: seq<ScoredKey>, lsa: seq<ScoredKey>, dense: seq<ScoredKey>)

  ghost predicate AllDistinct(h: Hits) {
    DistinctKeys(h.surface) && DistinctKeys(h.bm25) && DistinctKeys(h.tfidf) && DistinctKeys(h.lsa)
      && DistinctKeys(h.dense)
  }

  /** A list takes part only if its strategy runs and finds something. */
  function Added(lists: seq<seq<ScoredKey>>, used: bool, hits: seq<ScoredKey>, topK: int): seq<seq<ScoredKey>> {
    var list := Truncate(hits, 2 * topK);
    if used && list != [] then lists + [list] else lists
  }

  /** A strategy that runs gives its best results, twice as many as asked for or all without a limit. */
  lemma AddedIs(lists: seq<seq<ScoredKey>>, used: bool, hits: seq<ScoredKey>, topK: int) returns (list: seq<ScoredKey>)
    ensures Added(lists, used, hits, topK) == if used && hits != [] then lists + [list] else lists
    ensures list <= hits && |list| == if topK > 0 && |hits| > topK + topK then topK + topK else |hits|
  {
    list := Truncate(hits, 2 * topK);
  }

  /** The lists that are fused: first those of the inverted indexes. */
  function RankLists(use: Use, h: Hits, topK: int): seq<seq<ScoredKey>> {
    Added(Added(WordLists(use, h, topK), use.lsa, h.lsa, topK), use.dense, h.dense, topK)
  }

  function WordLists(use: Use, h: Hits, topK: int): seq<seq<ScoredKey>> {
    Added(Added(Added([], use.surface, h.surface, topK), use.bm25, h.bm25, topK), use.tfidf, h.tfidf, topK)
  }

  /** The request's constant, the configured one, or 60. */
  function FusionK(req: HybridRequest, defaultK: real): (k: real)
    ensures k > 0.0 && k == if req.rrfK > 0.0 then req.rrfK else if defaultK > 0.0 then defaultK else 60.0
  {
    RrfK(if req.rrfK <= 0.0 then defaultK else req.rrfK)
  }

  ghost function HybridResults(use: Use, h: Hits, topK: int, k: real): seq<ScoredKey>
    requires k > 0.0
  {
    Truncate(Ranked(FusedTable(RankLists(use, h, topK), k)), topK)
  }

  method Fuse(lists: seq<seq<ScoredKey>>, req: HybridRequest, defaultK: real, ghost use: Use, ghost h: Hits)
    returns (fused: seq<ScoredKey>)
    requires lists == RankLists(use, h, req.topK)
    ensures fused == HybridResults(use, h, req.topK, FusionK(req, defaultK)) && DistinctKeys(fused)
  {
    var k := req.rrfK;
    if k <= 0.0 {
      k := defaultK;
    }
    if k <= 0.0 {
      k := DEFAULT_RRF_K;
    }
    fused := RRFMulti(lists, req.topK, k);
    TruncatedDistinct(FusedTable(lists, k), req.topK);
  }

  lemma AddedFrom(lists: seq<seq<ScoredKey>>, used: bool, hits: seq<ScoredKey>, topK: int, list: seq<ScoredKey>)
    requires list in Added(lists, used, hits, topK)
    ensures list in lists || list <= hits
  {
  }

  /** A fused key was found by some strategy. */
  lemma FusedFromHits(use: Use, h: Hits, topK: int, k: real, x: ScoredKey)
    requires k > 0.0 && x in HybridResults(use, h, topK, k)
    ensures exists y: ScoredKey ::
      y.key == x.key && (y in h.surface || y in h.bm25 || y in h.tfidf || y in h.lsa || y in h.dense)
  {
    var lists := RankLists(use, h, topK);
    assert x in Ranked(FusedTable(lists, k));
    var i, r :| 0 <= i < |lists| && 0 <= r < |lists[i]| && lists[i][r].key == x.key;
    FromSomeStrategy(use, h, topK, lists[i]);
    assert lists[i][r] in lists[i];
  }

  lemma FromSomeStrategy(use: Use, h: Hits, topK: int, list: seq<ScoredKey>)
    requires list in RankLists(use, h, topK)
    ensures list <= h.surface || list <= h.bm25 || list <= h.tfidf || list <= h.lsa || list <= h.dense
  {
    var one := Added([], use.surface, h.surface, topK);
    var two := Added(one, use.bm25, h.bm25, topK);
    var three := Added(two, use.tfidf, h.tfidf, topK);
    var four := Added(three, use.lsa, h.lsa, topK);
    AddedFrom(four, use.dense, h.dense, topK, list);
    if list in four { AddedFrom(three, use.lsa, h.lsa, topK, list); }
    if list in three { AddedFrom(two, use.tfidf, h.tfidf, topK, list); }
    if list in two { AddedFrom(one, use.bm25, h.bm25, topK, list); }
    if list in one { AddedFrom([], use.surface, h.surface, topK, list); }
  }

  function HitsOf(h: Hits, st: Strategy): seq<ScoredKey> {
    match st
    case SurfaceNgram => h.surface
    case LexicalBm25 => h.bm25
    case LexicalTfidf => h.tfidf
    case SemanticLsa => h.lsa
    case SemanticDense => h.dense
    case _ => []
  }

  /** A strategy's own search runs under these conditions. */
  function Runs(av: Available, req: HybridRequest, st: Strategy): bool {
    match st
    case SurfaceNgram => av.ngram && HasText(req)
    case LexicalBm25 => av.bm25 && HasText(req)
    case LexicalTfidf => av.tfidf && HasText(req)
    case SemanticLsa => av.lsa && HasText(req)
    case SemanticDense => true
    case _ => false
  }

  /** What the strategy's own search returns. */
  function OwnResults(av: Available, req: HybridRequest, h: Hits, st: Strategy): seq<ScoredKey> {
    if Runs(av, req, st) then Truncate(HitsOf(h, st), req.topK) else []
  }

  lemma OneList(av: Available, req: HybridRequest, h: Hits, st: Strategy)
    requires req.strategies == [st] && st != Unspecified
    ensures RankLists(Chosen(av, req), h, req.topK) == Added([], Runs(av, req, st), HitsOf(h, st), req.topK)
  {
  }

  lemma AddedAlone(used: bool, hits: seq<ScoredKey>, topK: int, k: real)
    requires k > 0.0 && DistinctKeys(hits)
    ensures KeysOf(Truncate(Ranked(FusedTable(Added([], used, hits, topK), k)), topK)) ==
      KeysOf(if used then Truncate(hits, topK) else [])
  {
    var list := Truncate(hits, 2 * topK);
    if used {
      assert Added([], used, hits, topK) == if list == [] then [] else [list];
      FusedAlone(hits, k, topK);
    } else {
      NoLists(k);
    }
  }

  /** A hybrid search with one strategy returns the same keys in the same order as that strategy's
      own search, for every limit including none. */
  lemma SingleStrategy(av: Available, req: HybridRequest, h: Hits, st: Strategy, k: real)
    requires k > 0.0 && AllDistinct(h) && req.strategies == [st] && st != Unspecified
    ensures KeysOf(HybridResults(Chosen(av, req), h, req.topK, k)) == KeysOf(OwnResults(av, req, h, st))
  {
    OneList(av, req, h, st);
    AddedAlone(Runs(av, req, st), HitsOf(h, st), req.topK, k);
  }
}
