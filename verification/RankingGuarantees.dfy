/** What a successful retrieval guarantees: exact top-k hits, a disjoint flashback channel, and
    no dependence on candidate order or on candidates that are out of scope or incomplete. */
module RankingGuarantees {
  import opened Wrappers
  import opened Numbers
  import opened Sequences
  import opened Fixed
  import opened Digests
  import opened Model
  import opened Validation
  import opened Lottery
  import opened Similarity
  import opened Plans
  import opened Retrieval

  // ---------- the checks do not depend on order ----------

  lemma {:induction false} UniqueIff(candidates: seq<Candidate>, seen: set<AtomId>)
    ensures CheckUnique(candidates, seen).Ok? <==>
      && (forall i :: 0 <= i < |candidates| ==> candidates[i].atomId !in seen)
      && (forall i, j :: 0 <= i < j < |candidates| ==> candidates[i].atomId != candidates[j].atomId)
  {
    if candidates != [] {
      UniqueIff(candidates[1..], seen + {candidates[0].atomId});
      assert forall i :: 1 <= i < |candidates| ==> candidates[i] == candidates[1..][i - 1];
    }
  }

  lemma {:induction false} TimesIff(candidates: seq<Candidate>, asOfUs: u64)
    ensures CheckTimes(candidates, asOfUs).Ok? <==>
      forall c :: c in candidates ==> c.body.interval.recordedAtUs <= asOfUs
  {
    if candidates != [] {
      assert candidates == [candidates[0]] + candidates[1..];
      TimesIff(candidates[1..], asOfUs);
    }
  }

  lemma {:induction false} AllIff(candidates: seq<Candidate>, hash: Hash)
    ensures CheckAll(candidates, hash).Ok? <==> forall c :: c in candidates ==> CheckCandidate(c, hash).Ok?
  {
    hide CheckCandidate;
    if candidates != [] {
      assert candidates == [candidates[0]] + candidates[1..];
      AllIff(candidates[1..], hash);
    }
  }

  /** A candidate list that is a part of another, whatever the order. */
  ghost predicate PartOf(a: seq<Candidate>, b: seq<Candidate>) {
    multiset(a) <= multiset(b)
  }

  lemma {:induction false} PartMembers(a: seq<Candidate>, b: seq<Candidate>)
    requires PartOf(a, b)
    ensures |a| <= |b| && forall c :: c in a ==> c in b
  {
    assert multiset(b) == multiset(a) + (multiset(b) - multiset(a));
    assert |multiset(b)| == |multiset(a)| + |multiset(b) - multiset(a)|;
    forall c | c in a ensures c in b {
      assert c in multiset(a) && c in multiset(b);
    }
  }

  lemma {:induction false} PartIsUnique(a: seq<Candidate>, b: seq<Candidate>)
    requires PartOf(a, b) && CheckUnique(b, {}).Ok?
    ensures CheckUnique(a, {}).Ok?
  {
    UniqueIff(a, {});
    UniqueIff(b, {});
    assert Distinct(b);
    DistinctCount(b);
    forall x | x in a ensures multiset(a)[x] <= 1 {
      assert multiset(a)[x] <= multiset(b)[x];
      PartMembers(a, b);
    }
    CountDistinct(a);
    forall i, j | 0 <= i < j < |a| ensures a[i].atomId != a[j].atomId {
      PartMembers(a, b);
      assert a[i] in b && a[j] in b && a[i] != a[j];
      var p :| 0 <= p < |b| && b[p] == a[i];
      var q :| 0 <= q < |b| && b[q] == a[j];
    }
  }

  /** Every check that passes for candidate lists passes for parts of them in any order. */
  lemma {:induction false} ChecksPassForParts(query: Query, whole: Candidates, part: Candidates, policy: Policy,
      env: RetrievalEnvironment)
    requires CheckQuery(query, whole, policy, env).Ok?
    requires PartOf(part.ranked, whole.ranked) && PartOf(part.episodicPool, whole.episodicPool)
    ensures CheckQuery(query, part, policy, env) == CheckQuery(query, whole, policy, env)
  {
    hide CheckUnique, CheckTimes, HasMeaningfulInput;
    PartMembers(part.ranked, whole.ranked);
    PartMembers(part.episodicPool, whole.episodicPool);
    PartIsUnique(part.ranked, whole.ranked);
    PartIsUnique(part.episodicPool, whole.episodicPool);
    TimesIff(part.ranked, query.asOfUs);
    TimesIff(whole.ranked, query.asOfUs);
    TimesIff(part.episodicPool, query.asOfUs);
    TimesIff(whole.episodicPool, query.asOfUs);
  }

  lemma {:induction false} AllPassForParts(whole: seq<Candidate>, part: seq<Candidate>, hash: Hash)
    requires CheckAll(whole, hash).Ok? && PartOf(part, whole)
    ensures CheckAll(part, hash) == Ok(())
  {
    hide CheckCandidate;
    PartMembers(part, whole);
    AllIff(whole, hash);
    AllIff(part, hash);
    assert CheckAll(part, hash).value == ();
  }

  // ---------- mapping, filtering and order ----------

  lemma {:induction false} FilterMapForgetsOrder<T, U>(f: T -> Option<U>, a: seq<T>, b: seq<T>)
    requires multiset(a) == multiset(b)
    ensures multiset(FilterMap(f, a)) == multiset(FilterMap(f, b))
  {
    if a == [] {
      assert |multiset(a)| == 0 && |multiset(b)| == |b|;
    } else {
      assert a == [a[0]] + a[1..];
      assert a[0] in multiset(b);
      var i :| 0 <= i < |b| && b[i] == a[0];
      var rest := b[..i] + b[i + 1..];
      assert b == b[..i] + [b[i]] + b[i + 1..];
      assert multiset(rest) == multiset(b) - multiset{a[0]} == multiset(a[1..]);
      FilterMapForgetsOrder(f, a[1..], rest);
      assert FilterMap(f, a) == Singleton(f(a[0])) + FilterMap(f, a[1..]);
      FilterMapWithout(f, b, i);
    }
  }

  lemma {:induction false} FilterMapWithout<T, U>(f: T -> Option<U>, b: seq<T>, i: nat)
    requires i < |b|
    ensures multiset(FilterMap(f, b)) ==
      multiset(Singleton(f(b[i]))) + multiset(FilterMap(f, b[..i] + b[i + 1..]))
  {
    assert b == b[..i] + ([b[i]] + b[i + 1..]);
    FilterMapConcat(f, b[..i], [b[i]] + b[i + 1..]);
    FilterMapConcat(f, [b[i]], b[i + 1..]);
    FilterMapConcat(f, b[..i], b[i + 1..]);
    assert FilterMap(f, [b[i]]) == Singleton(f(b[i])) by {
      assert [b[i]][1..] == [];
    }
  }

  function Keep<T>(p: T -> bool, s: seq<T>): (r: seq<T>)
    ensures |r| <= |s| && multiset(r) <= multiset(s)
  {
    if s == [] then []
    else
      assert s == [s[0]] + s[1..];
      (if p(s[0]) then [s[0]] else []) + Keep(p, s[1..])
  }

  lemma {:induction false} KeepIsEnough<T, U>(p: T -> bool, f: T -> Option<U>, s: seq<T>)
    requires forall x :: x in s && !p(x) ==> f(x).None?
    ensures FilterMap(f, Keep(p, s)) == FilterMap(f, s)
  {
    if s != [] {
      assert s[0] in s && forall x :: x in s[1..] ==> x in s;
      KeepIsEnough(p, f, s[1..]);
      if p(s[0]) {
        assert ([s[0]] + Keep(p, s[1..]))[1..] == Keep(p, s[1..]);
      } else {
        assert [] + Keep(p, s[1..]) == Keep(p, s[1..]);
        assert [] + FilterMap(f, s[1..]) == FilterMap(f, s[1..]);
      }
    }
  }

  // ---------- the eligible entries ----------

  function Eligible(query: Query, ranked: seq<Candidate>, policy: Policy): seq<Entry> {
    FilterMap(EntryOf(query, policy), ranked)
  }

  lemma {:induction false} EligibleIds(query: Query, ranked: seq<Candidate>, policy: Policy)
    requires forall i, j :: 0 <= i < j < |ranked| ==> ranked[i].atomId != ranked[j].atomId
    ensures var es := Eligible(query, ranked, policy);
      && (forall i, j :: 0 <= i < j < |es| ==> es[i].atomId != es[j].atomId)
      && (forall e :: e in es ==> exists i :: 0 <= i < |ranked| && ranked[i].atomId == e.atomId)
  {
    hide ScoreOf, Visible;
    if ranked != [] {
      var tail := ranked[1..];
      assert forall i :: 0 <= i < |tail| ==> tail[i] == ranked[i + 1];
      EligibleIds(query, tail, policy);
      var rest := Eligible(query, tail, policy);
      forall e | e in rest
        ensures e.atomId != ranked[0].atomId && exists i :: 0 <= i < |ranked| && ranked[i].atomId == e.atomId
      {
        var i :| 0 <= i < |tail| && tail[i].atomId == e.atomId;
        assert ranked[i + 1].atomId == e.atomId;
      }
      forall j | 0 <= j < |rest| ensures rest[j].atomId != ranked[0].atomId {
        assert rest[j] in rest;
      }
    }
  }

  predicate Precedes(a: Entry, b: Entry) {
    a.score.total > b.score.total || (a.score.total == b.score.total && a.atomId < b.atomId)
  }

  lemma {:induction false} EntriesDecided(es: seq<Entry>)
    requires forall i, j :: 0 <= i < j < |es| ==> es[i].atomId != es[j].atomId
    ensures TotalPreorder(EntryLeq) && Decided(EntryLeq, es)
  {
    forall x, y | x in es && y in es && EntryLeq(x, y) && EntryLeq(y, x) ensures x == y {
      var i :| 0 <= i < |es| && es[i] == x;
      var j :| 0 <= j < |es| && es[j] == y;
      assert i == j;
    }
  }

  lemma {:induction false} SortedPrecedes(es: seq<Entry>)
    requires forall i, j :: 0 <= i < j < |es| ==> es[i].atomId != es[j].atomId
    ensures var sorted := SortBy(EntryLeq, es);
      && (forall i, j :: 0 <= i < j < |sorted| ==> Precedes(sorted[i], sorted[j]))
      && (forall e :: e in sorted <==> e in es)
  {
    hide SortBy;
    var sorted := SortBy(EntryLeq, es);
    EntriesDecided(es);
    SortSorts(EntryLeq, es);
    assert Distinct(es);
    MembersOfMultiset(es, sorted);
    forall i, j | 0 <= i < j < |sorted| ensures Precedes(sorted[i], sorted[j]) {
      assert EntryLeq(sorted[i], sorted[j]) && sorted[i] != sorted[j];
      assert sorted[i] in es && sorted[j] in es;
      var a :| 0 <= a < |es| && es[a] == sorted[i];
      var b :| 0 <= b < |es| && es[b] == sorted[j];
      assert a != b;
    }
  }

  /** The entries of the hits: eligible, in strict rank order, and ahead of every other. */
  ghost predicate BestChoice(chosen: seq<Entry>, hits: seq<Hit>, eligible: seq<Entry>) {
    && |chosen| == |hits|
    && (forall i :: 0 <= i < |hits| ==> hits[i] == HitOf(chosen[i]) && chosen[i] in eligible)
    && (forall i, j :: 0 <= i < j < |chosen| ==> Precedes(chosen[i], chosen[j]))
    && (forall e, i :: e in eligible && e !in chosen && 0 <= i < |chosen| ==> Precedes(chosen[i], e))
  }

  /** The hits are the k best eligible entries: as many as there can be, in strict rank order,
      and every eligible entry that is not a hit ranks behind every hit. */
  ghost predicate AreTopK(hits: seq<Hit>, eligible: seq<Entry>, k: nat) {
    |hits| == Min(k, |eligible|) && exists chosen: seq<Entry> :: BestChoice(chosen, hits, eligible)
  }

  lemma {:induction false} TakeIsTopK(sorted: seq<Entry>, eligible: seq<Entry>, k: nat)
    requires |sorted| == |eligible| && forall e :: e in sorted <==> e in eligible
    requires forall i, j :: 0 <= i < j < |sorted| ==> Precedes(sorted[i], sorted[j])
    ensures AreTopK(Map(HitOf, Take(sorted, k)), eligible, k)
  {
    hide Precedes, HitOf;
    var chosen := Take(sorted, k);
    assert forall i :: 0 <= i < |chosen| ==> chosen[i] == sorted[i] && sorted[i] in sorted && sorted[i] in chosen;
    forall e, i | e in eligible && e !in chosen && 0 <= i < |chosen| ensures Precedes(chosen[i], e) {
      var j :| 0 <= j < |sorted| && sorted[j] == e;
    }
    assert BestChoice(chosen, Map(HitOf, chosen), eligible);
  }

  lemma {:induction false} HitsAreTopK(query: Query, ranked: seq<Candidate>, k: nat, policy: Policy)
    requires CheckUnique(ranked, {}).Ok?
    ensures AreTopK(RankedHits(query, ranked, k, policy), Eligible(query, ranked, policy), k)
  {
    hide SortBy, ScoreOf, Visible, AreTopK, FilterMap;
    UniqueIff(ranked, {});
    EligibleIds(query, ranked, policy);
    SortedPrecedes(Eligible(query, ranked, policy));
    TakeIsTopK(SortBy(EntryLeq, Eligible(query, ranked, policy)), Eligible(query, ranked, policy), k);
  }

  // ---------- the flashback channel ----------

  lemma {:induction false} PoolIds(query: Query, excluded: set<AtomId>, candidates: seq<Candidate>)
    requires forall i, j :: 0 <= i < j < |candidates| ==> candidates[i].atomId != candidates[j].atomId
    ensures var ids := FilterMap(PoolMember(query, excluded), candidates);
      && Distinct(ids)
      && (forall id :: id in ids <==> exists i :: 0 <= i < |candidates| && candidates[i].atomId == id
                                                && InPool(query, excluded, candidates[i]))
  {
    hide InPool;
    var f := PoolMember(query, excluded);
    FilterMapMembers(f, candidates);
    var ids := FilterMap(f, candidates);
    forall id ensures id in ids <==> exists i :: 0 <= i < |candidates| && candidates[i].atomId == id
                                                && InPool(query, excluded, candidates[i])
    {
      if id in ids {
        var i :| 0 <= i < |candidates| && f(candidates[i]) == Some(id);
        assert candidates[i].atomId == id;
      }
      if i :| 0 <= i < |candidates| && candidates[i].atomId == id && InPool(query, excluded, candidates[i]) {
        assert f(candidates[i]) == Some(id);
      }
    }
    PoolDistinct(query, excluded, candidates);
  }

  lemma {:induction false} PoolDistinct(query: Query, excluded: set<AtomId>, candidates: seq<Candidate>)
    requires forall i, j :: 0 <= i < j < |candidates| ==> candidates[i].atomId != candidates[j].atomId
    ensures Distinct(FilterMap(PoolMember(query, excluded), candidates))
  {
    hide InPool;
    if candidates != [] {
      var tail := candidates[1..];
      var f := PoolMember(query, excluded);
      assert forall i :: 0 <= i < |tail| ==> tail[i] == candidates[i + 1];
      PoolDistinct(query, excluded, tail);
      FilterMapMembers(f, tail);
      var rest := FilterMap(f, tail);
      forall j | 0 <= j < |rest| ensures rest[j] != candidates[0].atomId {
        assert rest[j] in rest;
        var i :| 0 <= i < |tail| && f(tail[i]) == Some(rest[j]);
      }
    }
  }

  /** A recall: distinct members of the pool, as many as the budget and the pool allow. */
  ghost predicate SoundRecall(result: SpontaneousResult, query: Query, excluded: set<AtomId>,
      candidates: seq<Candidate>) {
    && |result.hits| == Min(result.budget, result.populationCount)
    && result.populationCount == |Pool(query, excluded, candidates)|
    && (forall i, j :: 0 <= i < j < |result.hits| ==> result.hits[i].atomId != result.hits[j].atomId)
    && (forall i :: 0 <= i < |result.hits| ==> IsRecalled(result.hits[i], query, excluded, candidates))
  }

  ghost predicate IsRecalled(hit: Hit, query: Query, excluded: set<AtomId>, candidates: seq<Candidate>) {
    && hit == Hit(hit.atomId, None, Spontaneous, SingleEpisode)
    && hit.atomId !in excluded
    && exists c :: c in candidates && c.atomId == hit.atomId && InPool(query, excluded, c)
  }

  lemma {:induction false} RecallIsSound(query: Query, request: SpontaneousRequest, excluded: set<AtomId>,
      candidates: seq<Candidate>, policy: Policy, env: RetrievalEnvironment)
    requires Live(env.stream(request.seed)) && |candidates| < TWO64 && CheckUnique(candidates, {}).Ok?
    requires Recall(query, request, excluded, candidates, policy, env).Ok?
    ensures SoundRecall(Recall(query, request, excluded, candidates, policy, env).value, query, excluded, candidates)
  {
    hide SortBy, InPool, CheckAll, PartialFisherYates, Distinct;
    UniqueIff(candidates, {});
    PoolIds(query, excluded, candidates);
    var ids := FilterMap(PoolMember(query, excluded), candidates);
    var pool := Pool(query, excluded, candidates);
    MembersOfMultiset(ids, pool);
    var positions := PartialFisherYates(env.stream(request.seed), |pool|, Min(request.budget, |pool|));
    PositionsBelow(positions, |pool|);
    var hits := Recall(query, request, excluded, candidates, policy, env).value.hits;
    forall i | 0 <= i < |hits| ensures IsRecalled(hits[i], query, excluded, candidates) {
      assert pool[positions[i]] in pool && pool[positions[i]] in ids;
      var k :| 0 <= k < |candidates| && candidates[k].atomId == hits[i].atomId
        && InPool(query, excluded, candidates[k]);
      assert candidates[k] in candidates;
      PoolExcludes(query, excluded, candidates[k]);
    }
    DistinctPick(pool, positions);
  }

  lemma {:induction false} PoolExcludes(query: Query, excluded: set<AtomId>, c: Candidate)
    requires InPool(query, excluded, c)
    ensures c.atomId !in excluded
  {
  }

  lemma {:induction false} DistinctPick(pool: seq<AtomId>, positions: seq<nat>)
    requires Distinct(pool) && Distinct(positions) && forall i :: 0 <= i < |positions| ==> positions[i] < |pool|
    ensures forall i, j :: 0 <= i < j < |positions| ==> pool[positions[i]] != pool[positions[j]]
  {
    forall i, j | 0 <= i < j < |positions| ensures pool[positions[i]] != pool[positions[j]] {
      assert positions[i] != positions[j];
    }
  }

  // ---------- the main results ----------

  /** On success the ordinary hits are exactly the top k, and spontaneous hits are distinct pool
      members, as many as possible, none of them an ordinary hit. */
  lemma {:induction false} RetrievalIsExact(query: Query, candidates: Candidates, policy: Policy,
      env: RetrievalEnvironment)
    requires Drawable(env, query, candidates) && RankRetrieval(query, candidates, policy, env).Ok?
    ensures var result := RankRetrieval(query, candidates, policy, env).value;
      var k := if query.k.Some? then query.k.value else policy.retrievalDefaultK;
      && AreTopK(result.hits, Eligible(query, candidates.ranked, policy), k)
      && result.spontaneous.Some? == query.spontaneous.Some?
      && (result.spontaneous.Some? ==>
            && result.spontaneous.value.budget == query.spontaneous.value.budget
            && SoundRecall(result.spontaneous.value, query, HitIds(result.hits), candidates.episodicPool))
  {
    hide Recall, CheckAll, RankedHits, AreTopK, SoundRecall, Eligible, HasMeaningfulInput, CheckTimes, CheckUnique,
      HitIds;
    var k := CheckQuery(query, candidates, policy, env).value;
    HitsAreTopK(query, candidates.ranked, k, policy);
    if query.spontaneous.Some? {
      var excluded := HitIds(RankedHits(query, candidates.ranked, k, policy));
      RecallIsSound(query, query.spontaneous.value, excluded, candidates.episodicPool, policy, env);
      RecallKeepsBudget(query, query.spontaneous.value, excluded, candidates.episodicPool, policy, env);
    }
  }

  lemma {:induction false} RecallKeepsBudget(query: Query, request: SpontaneousRequest, excluded: set<AtomId>,
      candidates: seq<Candidate>, policy: Policy, env: RetrievalEnvironment)
    requires Live(env.stream(request.seed)) && |candidates| < TWO64
    requires Recall(query, request, excluded, candidates, policy, env).Ok?
    ensures Recall(query, request, excluded, candidates, policy, env).value.budget == request.budget
  {
  }

  lemma {:induction false} HitsForgetOrder(query: Query, a: seq<Candidate>, b: seq<Candidate>, k: nat, policy: Policy)
    requires multiset(Eligible(query, a, policy)) == multiset(Eligible(query, b, policy)) && CheckUnique(a, {}).Ok?
    ensures RankedHits(query, a, k, policy) == RankedHits(query, b, k, policy)
  {
    hide SortBy, ScoreOf;
    UniqueIff(a, {});
    EligibleIds(query, a, policy);
    EntriesDecided(Eligible(query, a, policy));
    SortForgetsOrder(EntryLeq, Eligible(query, a, policy), Eligible(query, b, policy));
  }

  lemma {:induction false} PoolForgetsOrder(query: Query, excluded: set<AtomId>, a: seq<Candidate>, b: seq<Candidate>)
    requires multiset(FilterMap(PoolMember(query, excluded), a)) == multiset(FilterMap(PoolMember(query, excluded), b))
    ensures Pool(query, excluded, a) == Pool(query, excluded, b)
  {
    hide SortBy, InPool;
    assert TotalPreorder(DigestLeq);
    SortForgetsOrder(DigestLeq, FilterMap(PoolMember(query, excluded), a), FilterMap(PoolMember(query, excluded), b));
  }

  /** The part of the candidates that the result depends on. */
  ghost predicate SameVisible(query: Query, policy: Policy, part: Candidates, whole: Candidates) {
    && PartOf(part.ranked, whole.ranked) && PartOf(part.episodicPool, whole.episodicPool)
    && multiset(Eligible(query, part.ranked, policy)) == multiset(Eligible(query, whole.ranked, policy))
    && forall excluded: set<AtomId> ::
         multiset(FilterMap(PoolMember(query, excluded), part.episodicPool))
           == multiset(FilterMap(PoolMember(query, excluded), whole.episodicPool))
  }

  /** Candidates with the same visible part give the same result. */
  lemma {:induction false} ResultNeedsOnlyVisible(query: Query, part: Candidates, whole: Candidates, policy: Policy,
      env: RetrievalEnvironment)
    requires Drawable(env, query, whole) && Drawable(env, query, part) && SameVisible(query, policy, part, whole)
    requires RankRetrieval(query, whole, policy, env).Ok?
    ensures RankRetrieval(query, part, policy, env) == RankRetrieval(query, whole, policy, env)
  {
    hide CheckAll, RankedHits, CheckQuery, Pool, Recall, HitIds, Eligible, PoolMember, FilterMap;
    ChecksPassForParts(query, whole, part, policy, env);
    AllPassForParts(whole.ranked, part.ranked, env.hash);
    var k := CheckQuery(query, whole, policy, env).value;
    UniqueRanked(query, part, policy, env);
    HitsForgetOrder(query, part.ranked, whole.ranked, k, policy);
    if query.spontaneous.Some? {
      var excluded := HitIds(RankedHits(query, whole.ranked, k, policy));
      RecallNeedsOnlyVisible(query, query.spontaneous.value, excluded, part.episodicPool, whole.episodicPool, policy,
        env);
    }
  }

  lemma {:induction false} UniqueRanked(query: Query, candidates: Candidates, policy: Policy, env: RetrievalEnvironment)
    requires CheckQuery(query, candidates, policy, env).Ok?
    ensures CheckUnique(candidates.ranked, {}).Ok?
  {
    hide CheckUnique, CheckTimes, HasMeaningfulInput;
  }

  lemma {:induction false} RecallNeedsOnlyVisible(query: Query, request: SpontaneousRequest, excluded: set<AtomId>,
      part: seq<Candidate>, whole: seq<Candidate>, policy: Policy, env: RetrievalEnvironment)
    requires Live(env.stream(request.seed)) && |part| < TWO64 && |whole| < TWO64 && PartOf(part, whole)
    requires multiset(FilterMap(PoolMember(query, excluded), part)) ==
      multiset(FilterMap(PoolMember(query, excluded), whole))
    requires Recall(query, request, excluded, whole, policy, env).Ok?
    ensures Recall(query, request, excluded, part, policy, env) == Recall(query, request, excluded, whole, policy, env)
  {
    PoolForgetsOrder(query, excluded, part, whole);
    hide Pool, CheckAll, PartialFisherYates, FilterMap;
    AllPassForParts(whole, part, env.hash);
  }

  /** The order of the candidates does not matter. */
  lemma {:induction false} RetrievalForgetsOrder(query: Query, a: Candidates, b: Candidates, policy: Policy,
      env: RetrievalEnvironment)
    requires Drawable(env, query, a) && Drawable(env, query, b)
    requires multiset(a.ranked) == multiset(b.ranked) && multiset(a.episodicPool) == multiset(b.episodicPool)
    requires RankRetrieval(query, a, policy, env).Ok?
    ensures RankRetrieval(query, b, policy, env) == RankRetrieval(query, a, policy, env)
  {
    hide RankRetrieval, EntryOf, PoolMember, FilterMap;
    FilterMapForgetsOrder(EntryOf(query, policy), b.ranked, a.ranked);
    forall excluded: set<AtomId>
      ensures multiset(FilterMap(PoolMember(query, excluded), b.episodicPool))
           == multiset(FilterMap(PoolMember(query, excluded), a.episodicPool))
    {
      FilterMapForgetsOrder(PoolMember(query, excluded), b.episodicPool, a.episodicPool);
    }
    ResultNeedsOnlyVisible(query, b, a, policy, env);
  }

  function OnlyVisible(query: Query, candidates: Candidates): Candidates {
    Candidates(Keep((c: Candidate) => Visible(query, c), candidates.ranked),
               Keep((c: Candidate) => Visible(query, c), candidates.episodicPool))
  }

  /** Deleting every candidate that is out of scope or incomplete changes nothing. */
  lemma {:induction false} HiddenCandidatesDoNotMatter(query: Query, candidates: Candidates, policy: Policy,
      env: RetrievalEnvironment)
    requires Drawable(env, query, candidates) && RankRetrieval(query, candidates, policy, env).Ok?
    ensures Drawable(env, query, OnlyVisible(query, candidates))
    ensures RankRetrieval(query, OnlyVisible(query, candidates), policy, env) ==
      RankRetrieval(query, candidates, policy, env)
  {
    hide RankRetrieval, Visible, ScoreOf, FilterMap;
    var visible := (c: Candidate) => Visible(query, c);
    KeepIsEnough(visible, EntryOf(query, policy), candidates.ranked);
    forall excluded: set<AtomId>
      ensures FilterMap(PoolMember(query, excluded), Keep(visible, candidates.episodicPool))
           == FilterMap(PoolMember(query, excluded), candidates.episodicPool)
    {
      KeepIsEnough(visible, PoolMember(query, excluded), candidates.episodicPool);
    }
    ResultNeedsOnlyVisible(query, OnlyVisible(query, candidates), candidates, policy, env);
  }

  /** The weights add up to one, so the cap on the total never fires. */
  lemma {:induction false} RankTotalNeverCaps(query: Query, c: Candidate)
    ensures var s := ScoreOf(query, c, POC_V1);
      s.total ==
        Multiply(POC_V1.retrievalLexicalWeight, s.lexical) + Multiply(POC_V1.retrievalSemanticWeight, s.semantic)
        + Multiply(POC_V1.retrievalEntityWeight, s.entity) + Multiply(POC_V1.retrievalUtilityWeight, s.validatedUtility)
        + Multiply(POC_V1.retrievalRecencyWeight, s.recency)
  {
    hide Multiply, Jaccard, Recency;
    var s := ScoreOf(query, c, POC_V1);
    FiveSum(Multiply(POC_V1.retrievalLexicalWeight, s.lexical), Multiply(POC_V1.retrievalSemanticWeight, s.semantic),
      Multiply(POC_V1.retrievalEntityWeight, s.entity), Multiply(POC_V1.retrievalUtilityWeight, s.validatedUtility),
      Multiply(POC_V1.retrievalRecencyWeight, s.recency));
  }

  lemma {:induction false} FiveSum(a: nat, b: nat, c: nat, d: nat, e: nat)
    ensures Sum([a, b, c, d, e]) == a + b + c + d + e
  {
    var s: seq<nat> := [a, b, c, d, e];
    assert s[..4] == [a, b, c, d] && s[..4][..3] == [a, b, c];
    assert s[..4][..3][..2] == [a, b] && s[..4][..3][..2][..1] == [a];
    assert Sum([a]) == a;
    assert Sum([a, b]) == a + b;
    assert Sum([a, b, c]) == a + b + c;
    assert Sum([a, b, c, d]) == a + b + c + d;
  }
}
