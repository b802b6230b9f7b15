/** Ranked retrieval with an additive, disjoint channel of spontaneous recall. */
module Retrieval {
  import opened Wrappers
  import opened Numbers
  import opened Sequences
  import opened Fixed
  import opened Digests
  import opened Model
  import opened Validation
  import opened Lottery
  import opened Similarity
  import opened Plans

  datatype SpontaneousRequest = SpontaneousRequest(seed: Seed, budget: nat)

  datatype Query = Query(
    contractVersion: Text,
    memorySpaceId: Text,
    repositoryId: Option<Text>,
    memorySpaceWide: bool,
    asOfUs: u64,
    terms: seq<Text>,
    topicKeys: TextSet,
    entityIds: TextSet,
    k: Option<nat>,
    spontaneous: Option<SpontaneousRequest>)

  datatype Candidate = Candidate(
    atomId: AtomId, body: MemoryAtomBody, state: AtomState, lexicalScore: Ppm, integrity: IntegrityStatus)

  datatype Candidates = Candidates(ranked: seq<Candidate>, episodicPool: seq<Candidate>)

  datatype RetrievalScore = RetrievalScore(
    lexical: Ppm, semantic: Ppm, entity: Ppm, validatedUtility: Ppm, recency: Ppm, total: Ppm)

  datatype RecallReason = QueryRanked | Spontaneous
  datatype Generality = SemanticMemory | SingleEpisode

  datatype Hit = Hit(atomId: AtomId, score: Option<RetrievalScore>, reason: RecallReason, generality: Generality)

  datatype SpontaneousResult = SpontaneousResult(
    seed: Seed, budget: nat, populationDigest: Digest, populationCount: nat, hits: seq<Hit>)

  datatype RetrievalResult = RetrievalResult(
    contractVersion: Text, queryDigest: Digest, hits: seq<Hit>, spontaneous: Option<SpontaneousResult>)

  /** The atom hash, the random stream of a seed, which strings are blank after trimming, and
      the digests of queries and flashback populations. */
  datatype RetrievalEnvironment = RetrievalEnvironment(
    hash: Hash, stream: Seed -> Stream, blank: Text -> bool, queryDigest: Query -> Digest,
    populationDigest: seq<AtomId> -> Digest)

  // ---------- checks ----------

  predicate HasMeaningfulInput(query: Query, blank: Text -> bool) {
    exists t :: t in query.terms + query.topicKeys + query.entityIds && !blank(t)
  }

  function CheckUnique(candidates: seq<Candidate>, seen: set<AtomId>): Result<()> {
    if candidates == [] then Ok(())
    else
      var _ :- Need(candidates[0].atomId !in seen, DuplicateAtom(candidates[0].atomId));
      CheckUnique(candidates[1..], seen + {candidates[0].atomId})
  }

  method ValidateUnique(candidates: seq<Candidate>) returns (r: Result<()>)
    ensures r == CheckUnique(candidates, {})
  {
    var seen: set<AtomId> := {};
    for i := 0 to |candidates|
      invariant CheckUnique(candidates, {}) == CheckUnique(candidates[i..], seen)
    {
      assert candidates[i..][1..] == candidates[i + 1..];
      if candidates[i].atomId in seen {
        return Err(DuplicateAtom(candidates[i].atomId));
      }
      seen := seen + {candidates[i].atomId};
    }
    r := Ok(());
  }

  function CheckTimes(candidates: seq<Candidate>, asOfUs: u64): Result<()> {
    if candidates == [] then Ok(())
    else
      var _ :- Need(candidates[0].body.interval.recordedAtUs <= asOfUs,
        InvalidRetrievalCandidate(candidates[0].atomId));
      CheckTimes(candidates[1..], asOfUs)
  }

  predicate TierMatchesKind(tier: RetentionTier, kind: MemoryKind) {
    match kind
    case EpisodeKind => tier == ShortTerm || tier == EpisodicLongTerm || tier == DualLongTerm
    case SemanticKind => tier == SemanticLongTerm
  }

  function CheckCandidate(candidate: Candidate, hash: Hash): Result<()> {
    var _ :- Need(candidate.body.contractVersion == Ascii("atom-v1"), UnknownVersion);
    var id :- AtomIdOf(candidate.body, hash);
    var _ :- Need(id == candidate.atomId, AtomDigestMismatch(candidate.atomId));
    var _ :- Need(candidate.state.contentStatus == Present && candidate.state.retentionTier != HeaderOnly,
                  InvalidRetrievalCandidate(candidate.atomId));
    Need(TierMatchesKind(candidate.state.retentionTier, KindOf(candidate.body)),
      InvalidRetrievalCandidate(candidate.atomId))
  }

  function CheckAll(candidates: seq<Candidate>, hash: Hash): Result<()> {
    if candidates == [] then Ok(())
    else
      var _ :- CheckCandidate(candidates[0], hash);
      CheckAll(candidates[1..], hash)
  }

  /** The query and the shape of the candidate lists; the number of hits wanted. */
  function CheckQuery(query: Query, candidates: Candidates, policy: Policy, env: RetrievalEnvironment): Result<nat> {
    var _ :- ValidatePolicy(policy);
    var _ :- Need(query.contractVersion == Ascii("retrieval-query-v1"), UnknownVersion);
    var _ :- Need(query.memorySpaceId != [], EmptyField);
    var _ :- Need(query.memorySpaceWide || query.repositoryId.Some?, EmptyField);
    var _ :- Need(HasMeaningfulInput(query, env.blank), EmptyField);
    var k := if query.k.Some? then query.k.value else policy.retrievalDefaultK;
    var _ :- Need(0 < k <= policy.retrievalMaxK, RetrievalLimitExceeded);
    var _ :- Need(|candidates.ranked| <= policy.retrievalCandidateMax, CandidateLimitExceeded);
    var _ :- CheckUnique(candidates.ranked, {});
    var _ :- CheckUnique(candidates.episodicPool, {});
    var _ :- CheckTimes(candidates.ranked, query.asOfUs);
    var _ :- CheckTimes(candidates.episodicPool, query.asOfUs);
    Ok(k)
  }

  // ---------- scoring ----------

  predicate InScope(query: Query, body: MemoryAtomBody) {
    body.scope.memorySpaceId == query.memorySpaceId
    && (query.memorySpaceWide || body.scope.repositoryId == query.repositoryId)
  }

  /** What both channels require of a candidate before they look at it. */
  predicate Visible(query: Query, c: Candidate) {
    c.integrity == Complete && InScope(query, c.body)
  }

  function Recency(asOfUs: u64, recordedAtUs: u64, horizonUs: u64): Ppm {
    if recordedAtUs > asOfUs || horizonUs == 0 then 0
    else
      var age := asOfUs - recordedAtUs;
      if age >= horizonUs then 0 else Ratio(horizonUs - age, horizonUs)
  }

  function ScoreOf(query: Query, c: Candidate, policy: Policy): RetrievalScore {
    var semantic := Jaccard(query.topicKeys, c.body.topicKeys);
    var entity := Jaccard(query.entityIds, c.body.entityIds);
    var utility := c.state.ValidatedUtility();
    var recency := Recency(query.asOfUs, c.body.interval.recordedAtUs, policy.retrievalRecencyHorizonUs);
    RetrievalScore(c.lexicalScore, semantic, entity, utility, recency, SumCapped([
      Multiply(policy.retrievalLexicalWeight, c.lexicalScore),
      Multiply(policy.retrievalSemanticWeight, semantic),
      Multiply(policy.retrievalEntityWeight, entity),
      Multiply(policy.retrievalUtilityWeight, utility),
      Multiply(policy.retrievalRecencyWeight, recency)]))
  }

  datatype Entry = Entry(atomId: AtomId, kind: MemoryKind, score: RetrievalScore)

  function EntryOf(query: Query, policy: Policy): Candidate -> Option<Entry> {
    (c: Candidate) =>
      if Visible(query, c) then Some(Entry(c.atomId, KindOf(c.body), ScoreOf(query, c, policy))) else None
  }

  /** Descending total, then ascending id. */
  predicate EntryLeq(a: Entry, b: Entry) {
    a.score.total > b.score.total || (a.score.total == b.score.total && a.atomId <= b.atomId)
  }

  function Take<T>(s: seq<T>, n: nat): seq<T> {
    if n < |s| then s[..n] else s
  }

  function HitOf(e: Entry): Hit {
    Hit(e.atomId, Some(e.score), QueryRanked, if e.kind == EpisodeKind then SingleEpisode else SemanticMemory)
  }

  function RankedHits(query: Query, ranked: seq<Candidate>, k: nat, policy: Policy): seq<Hit> {
    Map(HitOf, Take(SortBy(EntryLeq, FilterMap(EntryOf(query, policy), ranked)), k))
  }

  function HitIds(hits: seq<Hit>): set<AtomId> {
    set h | h in hits :: h.atomId
  }

  // ---------- spontaneous recall ----------

  predicate InPool(query: Query, excluded: set<AtomId>, c: Candidate) {
    && Visible(query, c)
    && KindOf(c.body) == EpisodeKind && c.state.IsEpisodicLongTerm()
    && c.atomId !in excluded
  }

  function PoolMember(query: Query, excluded: set<AtomId>): Candidate -> Option<AtomId> {
    (c: Candidate) => if InPool(query, excluded, c) then Some(c.atomId) else None
  }

  /** The ids that may be recalled, ascending. */
  function Pool(query: Query, excluded: set<AtomId>, candidates: seq<Candidate>): (r: seq<AtomId>)
    ensures |r| <= |candidates|
  {
    SortBy(DigestLeq, FilterMap(PoolMember(query, excluded), candidates))
  }

  function Recalled(pool: seq<AtomId>, positions: seq<nat>): (r: seq<Hit>)
    requires forall i :: 0 <= i < |positions| ==> positions[i] < |pool|
    ensures |r| == |positions|
    ensures forall i :: 0 <= i < |r| ==> r[i] == Hit(pool[positions[i]], None, Spontaneous, SingleEpisode)
  {
    seq(|positions|, i requires 0 <= i < |positions| => Hit(pool[positions[i]], None, Spontaneous, SingleEpisode))
  }

  lemma {:induction false} PositionsBelow(positions: seq<nat>, n: nat)
    requires forall p :: p in positions ==> p < n
    ensures forall i :: 0 <= i < |positions| ==> positions[i] < n
  {
    forall i | 0 <= i < |positions| ensures positions[i] < n {
      assert positions[i] in positions;
    }
  }

  ghost predicate Drawable(env: RetrievalEnvironment, query: Query, candidates: Candidates) {
    query.spontaneous.Some? ==> Live(env.stream(query.spontaneous.value.seed)) && |candidates.episodicPool| < TWO64
  }

  ghost function Recall(query: Query, request: SpontaneousRequest, excluded: set<AtomId>, candidates: seq<Candidate>,
      policy: Policy, env: RetrievalEnvironment): Result<SpontaneousResult>
    requires Live(env.stream(request.seed)) && |candidates| < TWO64
  {
    var _ :- Need(0 < request.budget <= policy.flashbackBudgetMax, InvalidFlashbackBudget);
    var _ :- CheckAll(candidates, env.hash);
    var pool := Pool(query, excluded, candidates);
    var positions := PartialFisherYates(env.stream(request.seed), |pool|, Min(request.budget, |pool|));
    PositionsBelow(positions, |pool|);
    Ok(SpontaneousResult(request.seed, request.budget, env.populationDigest(pool), |pool|, Recalled(pool, positions)))
  }

  /** `rank_retrieval`. */
  ghost function RankRetrieval(query: Query, candidates: Candidates, policy: Policy, env: RetrievalEnvironment):
    Result<RetrievalResult>
    requires Drawable(env, query, candidates)
  {
    var k :- CheckQuery(query, candidates, policy, env);
    var _ :- CheckAll(candidates.ranked, env.hash);
    var hits := RankedHits(query, candidates.ranked, k, policy);
    var recalled :-
      match query.spontaneous
      case None => Ok(None)
      case Some(request) =>
        (var result :- Recall(query, request, HitIds(hits), candidates.episodicPool, policy, env);
        Ok(Some(result)));
    Ok(RetrievalResult(Ascii("retrieval-result-v1"), env.queryDigest(query), hits, recalled))
  }

  // ---------- the loops ----------

  lemma {:induction false} FilterMapStep<T, U>(f: T -> Option<U>, s: seq<T>, i: nat)
    requires i < |s|
    ensures FilterMap(f, s[..i + 1]) == FilterMap(f, s[..i]) + Singleton(f(s[i]))
  {
    assert s[..i + 1] == s[..i] + [s[i]];
    FilterMapConcat(f, s[..i], [s[i]]);
    assert FilterMap(f, [s[i]]) == Singleton(f(s[i]));
  }

  method ScoreRanked(query: Query, ranked: seq<Candidate>, policy: Policy, hash: Hash) returns (r: Result<seq<Entry>>)
    ensures CheckAll(ranked, hash).Err? ==> r == Err(CheckAll(ranked, hash).error)
    ensures CheckAll(ranked, hash).Ok? ==> r == Ok(FilterMap(EntryOf(query, policy), ranked))
  {
    hide CheckCandidate, ScoreOf, Visible;
    var scored: seq<Entry> := [];
    for i := 0 to |ranked|
      invariant CheckAll(ranked, hash) == CheckAll(ranked[i..], hash)
      invariant scored == FilterMap(EntryOf(query, policy), ranked[..i])
    {
      assert ranked[i..][1..] == ranked[i + 1..];
      FilterMapStep(EntryOf(query, policy), ranked, i);
      var one := CheckCandidate(ranked[i], hash);
      if one.Err? {
        return Err(one.error);
      }
      if Visible(query, ranked[i]) {
        scored := scored + [Entry(ranked[i].atomId, KindOf(ranked[i].body), ScoreOf(query, ranked[i], policy))];
      }
    }
    assert ranked[..|ranked|] == ranked;
    r := Ok(scored);
  }

  method CollectPool(query: Query, excluded: set<AtomId>, candidates: seq<Candidate>, hash: Hash)
    returns (r: Result<seq<AtomId>>)
    ensures CheckAll(candidates, hash).Err? ==> r == Err(CheckAll(candidates, hash).error)
    ensures CheckAll(candidates, hash).Ok? ==> r == Ok(FilterMap(PoolMember(query, excluded), candidates))
  {
    hide CheckCandidate, InPool;
    var pool: seq<AtomId> := [];
    for i := 0 to |candidates|
      invariant CheckAll(candidates, hash) == CheckAll(candidates[i..], hash)
      invariant pool == FilterMap(PoolMember(query, excluded), candidates[..i])
    {
      assert candidates[i..][1..] == candidates[i + 1..];
      FilterMapStep(PoolMember(query, excluded), candidates, i);
      var one := CheckCandidate(candidates[i], hash);
      if one.Err? {
        return Err(one.error);
      }
      if InPool(query, excluded, candidates[i]) {
        pool := pool + [candidates[i].atomId];
      }
    }
    assert candidates[..|candidates|] == candidates;
    r := Ok(pool);
  }

  method RunRecall(query: Query, request: SpontaneousRequest, excluded: set<AtomId>, candidates: seq<Candidate>,
      policy: Policy, env: RetrievalEnvironment) returns (r: Result<SpontaneousResult>)
    requires Live(env.stream(request.seed)) && |candidates| < TWO64
    ensures r == Recall(query, request, excluded, candidates, policy, env)
  {
    hide CheckAll, Live, PartialFisherYates;
    if request.budget == 0 || request.budget > policy.flashbackBudgetMax {
      return Err(InvalidFlashbackBudget);
    }
    var collected := CollectPool(query, excluded, candidates, env.hash);
    if collected.Err? {
      return Err(collected.error);
    }
    var pool := SortBy(DigestLeq, collected.value);
    var positions := RunPartialFisherYates(env.stream(request.seed), |pool|, Min(request.budget, |pool|));
    PositionsBelow(positions, |pool|);
    r := Ok(SpontaneousResult(request.seed, request.budget, env.populationDigest(pool), |pool|,
      Recalled(pool, positions)));
  }

  method RunRankRetrieval(query: Query, candidates: Candidates, policy: Policy, env: RetrievalEnvironment)
    returns (r: Result<RetrievalResult>)
    requires Drawable(env, query, candidates)
    ensures r == RankRetrieval(query, candidates, policy, env)
  {
    hide CheckQuery, CheckAll, Recall, SortBy;
    var k := CheckQuery(query, candidates, policy, env);
    if k.Err? {
      return Err(k.error);
    }
    var scored := ScoreRanked(query, candidates.ranked, policy, env.hash);
    if scored.Err? {
      return Err(scored.error);
    }
    var sorted := SortBy(EntryLeq, scored.value);
    var hits := Map(HitOf, Take(sorted, k.value));
    var recalled: Option<SpontaneousResult> := None;
    if query.spontaneous.Some? {
      var result := RunRecall(query, query.spontaneous.value, HitIds(hits), candidates.episodicPool, policy, env);
      if result.Err? {
        return Err(result.error);
      }
      recalled := Some(result.value);
    }
    r := Ok(RetrievalResult(Ascii("retrieval-result-v1"), env.queryDigest(query), hits, recalled));
  }
}
