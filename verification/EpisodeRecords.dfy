/** A sealed chain keeps every record of the event stream, in order, and every atom of it carries
    the shared metadata of the request. */
module EpisodeRecords {
  import opened Wrappers
  import opened Numbers
  import opened Sequences
  import opened Digests
  import opened Model
  import opened Validation
  import opened EpisodePlan
  import opened Episodes
  import opened EpisodeSizes
  import opened EpisodeSeal
  import opened EpisodeChains

  function ObservationsIn(b: MemoryAtomBody): seq<Observation> { b.observations }
  function InterpretationsIn(b: MemoryAtomBody): seq<Interpretation> { b.interpretations }
  function BeliefsIn(b: MemoryAtomBody): seq<Belief> { b.beliefs }
  function DecisionsIn(b: MemoryAtomBody): seq<DecisionRecord> { b.decisions }
  function ActionsIn(b: MemoryAtomBody): seq<ActionRecord> { b.actions }

  /** The records of one kind over a whole chain. */
  function Records<T>(field: MemoryAtomBody -> seq<T>, episodes: seq<SealedEpisode>): seq<T> {
    if episodes == [] then [] else field(episodes[0].body) + Records(field, episodes[1..])
  }

  /** Over any range, a field of the body collects one part of each event. */
  ghost predicate Collects<T>(i: SealInput, prepared: PreparedEvents, get: EpisodeEvent -> Option<T>,
                              field: MemoryAtomBody -> seq<T>)
  {
    forall start: nat, end: nat, continues :: start < end <= |i.buffer.events| == |prepared.digests| ==>
      var body := RangeBody(i, prepared, start, end, continues);
      body.Ok? && field(body.value) == FilterMap(get, i.buffer.events[start..end])
  }

  /** The metadata that the request and the buffer share with every atom. */
  ghost predicate CarriesRequest(b: MemoryAtomBody, i: SealInput) {
    var r := i.request;
    && b.scope == i.buffer.scope && b.trigger == r.trigger && b.sealReason == r.sealReason
    && b.goal == r.goal && b.goalKey == r.goalKey && b.plan == r.plan
    && b.internalStateBefore == r.internalStateBefore && b.internalStateAfter == r.internalStateAfter
    && b.rejectedAlternatives == r.rejectedAlternatives
    && b.outcome == r.outcome && b.outcomeClass == r.outcomeClass && b.feedback == r.feedback
    && b.formationSignals == r.formationSignals
    && b.topicKeys == r.topicKeys && b.entityIds == r.entityIds
    && b.artifacts == r.artifacts && b.retentionPermission == r.retentionPermission
    && b.interval.recordedAtUs == r.asOfUs
  }

  lemma {:induction false} RangeCarriesRequest(i: SealInput, prepared: PreparedEvents, start: nat, end: nat,
                                               continues: Option<AtomId>)
    requires start < end <= |i.buffer.events| == |prepared.digests|
    ensures RangeBody(i, prepared, start, end, continues).Ok?
    ensures CarriesRequest(RangeBody(i, prepared, start, end, continues).value, i)
  {
    hide FilterMap, EpisodeRelations, Ascii;
  }

  lemma {:induction false} RangesCollect(i: SealInput, prepared: PreparedEvents)
    ensures Collects(i, prepared, ObservationOf, ObservationsIn)
    ensures Collects(i, prepared, InterpretationOf, InterpretationsIn)
    ensures Collects(i, prepared, BeliefOf, BeliefsIn)
    ensures Collects(i, prepared, DecisionOf, DecisionsIn)
    ensures Collects(i, prepared, ActionOf, ActionsIn)
  {
    hide FilterMap, EpisodeRelations, Ascii;
  }

  lemma {:induction false} SealedBody(i: SealInput, prepared: PreparedEvents, firstBase: u64, continuedBase: u64,
                                      range: (nat, nat), previous: Option<AtomId>)
    requires SealOne(i, prepared, firstBase, continuedBase, range, previous).Ok?
    ensures RangeBody(i, prepared, range.0, range.1, previous) ==
      Ok(SealOne(i, prepared, firstBase, continuedBase, range, previous).value.body)
  {
    hide RangeBody, ValidateMemoryAtomBody, EncodedSizeBytes, AtomIdOf, RangeBodyBytes;
  }

  /** Sealing a route step by step. */
  lemma {:induction false} SealStep(i: SealInput, prepared: PreparedEvents, firstBase: u64, continuedBase: u64,
                                    start: nat, ends: seq<nat>, previous: Option<AtomId>)
    requires ends != []
    requires SealRanges(i, prepared, firstBase, continuedBase, RangesOf(start, ends), previous).Ok?
    ensures var all := SealRanges(i, prepared, firstBase, continuedBase, RangesOf(start, ends), previous).value;
      && all != []
      && RangeBody(i, prepared, start, ends[0], previous) == Ok(all[0].body)
      && SealRanges(i, prepared, firstBase, continuedBase, RangesOf(ends[0], ends[1..]), Some(all[0].atomId)) ==
           Ok(all[1..])
  {
    hide SealOne;
    var range := (start, ends[0]);
    assert RangesOf(start, ends)[0] == range && RangesOf(start, ends)[1..] == RangesOf(ends[0], ends[1..]);
    var first := SealOne(i, prepared, firstBase, continuedBase, range, previous).value;
    SealedBody(i, prepared, firstBase, continuedBase, range, previous);
    var rest := SealRanges(i, prepared, firstBase, continuedBase, RangesOf(ends[0], ends[1..]),
      Some(first.atomId)).value;
    assert ([first] + rest)[1..] == rest;
  }

  lemma {:induction false} RouteKeepsRecords<T>(i: SealInput, prepared: PreparedEvents, p: ChainProblem, start: nat,
      ends: seq<nat>, previous: Option<AtomId>, get: EpisodeEvent -> Option<T>, field: MemoryAtomBody -> seq<T>)
    requires p.sums.Valid() && p.sums.EventCount() == |i.buffer.events| == |prepared.digests| && p.Route(start, ends)
    requires start <= |i.buffer.events| && Collects(i, prepared, get, field)
    requires SealRanges(i, prepared, p.firstBase, p.continuedBase, RangesOf(start, ends), previous).Ok?
    ensures Records(field, SealRanges(i, prepared, p.firstBase, p.continuedBase, RangesOf(start, ends), previous).value)
      == FilterMap(get, i.buffer.events[start..])
    decreases ends
  {
    hide SealRanges, RangeBody, FilterMap;
    var events := i.buffer.events;
    if ends == [] {
      NothingSealed(i, prepared, p, start, previous);
      assert events[start..] == [];
      NothingFiltered(get);
    } else {
      SealStep(i, prepared, p.firstBase, p.continuedBase, start, ends, previous);
      var all := SealRanges(i, prepared, p.firstBase, p.continuedBase, RangesOf(start, ends), previous).value;
      RouteKeepsRecords(i, prepared, p, ends[0], ends[1..], Some(all[0].atomId), get, field);
      assert events[start..] == events[start..ends[0]] + events[ends[0]..];
      FilterMapConcat(get, events[start..ends[0]], events[ends[0]..]);
    }
  }

  lemma {:induction false} NothingSealed(i: SealInput, prepared: PreparedEvents, p: ChainProblem, start: nat,
      previous: Option<AtomId>)
    ensures SealRanges(i, prepared, p.firstBase, p.continuedBase, RangesOf(start, []), previous) == Ok([])
  {
  }

  lemma {:induction false} NothingFiltered<T, U>(f: T -> Option<U>)
    ensures FilterMap(f, []) == []
  {
  }

  lemma {:induction false} RouteCarriesRequest(i: SealInput, prepared: PreparedEvents, p: ChainProblem, start: nat,
      ends: seq<nat>, previous: Option<AtomId>)
    requires p.sums.Valid() && p.sums.EventCount() == |i.buffer.events| == |prepared.digests| && p.Route(start, ends)
    requires SealRanges(i, prepared, p.firstBase, p.continuedBase, RangesOf(start, ends), previous).Ok?
    ensures forall e ::
      e in SealRanges(i, prepared, p.firstBase, p.continuedBase, RangesOf(start, ends), previous).value ==>
      CarriesRequest(e.body, i)
    decreases ends
  {
    hide SealRanges, RangeBody, CarriesRequest;
    if ends == [] {
      NothingSealed(i, prepared, p, start, previous);
    } else {
      SealStep(i, prepared, p.firstBase, p.continuedBase, start, ends, previous);
      var all := SealRanges(i, prepared, p.firstBase, p.continuedBase, RangesOf(start, ends), previous).value;
      RangeCarriesRequest(i, prepared, start, ends[0], previous);
      RouteCarriesRequest(i, prepared, p, ends[0], ends[1..], Some(all[0].atomId));
      assert all == [all[0]] + all[1..];
    }
  }

  /** A sealed chain was sealed along some route of its planning problem. */
  lemma {:induction false} ChainHasRoute(i: SealInput, chain: SealedChain)
    returns (prepared: PreparedEvents, p: ChainProblem, ends: seq<nat>)
    requires SealChain(i) == Ok(chain)
    ensures p.sums.Valid() && p.sums.EventCount() == |i.buffer.events| == |prepared.digests| && p.Route(0, ends)
    ensures SealRanges(i, prepared, p.firstBase, p.continuedBase, RangesOf(0, ends), i.buffer.continues) ==
      Ok(chain.episodes)
  {
    hide SealRanges, SegmentBaseBytes, ValidateEpisodeInput, Prepared, ChainCloses;
    prepared := Prepared(i.buffer.events, i.authority.hash).value;
    ReadyHasEvents(i, prepared);
    PreparedSumsValid(i.buffer.events, i.authority.hash);
    var firstBase := SegmentBaseBytes(i, prepared, i.buffer.continues).value;
    var continuedBase := SegmentBaseBytes(i, prepared, Some(0)).value;
    p := ProblemOf(i, prepared, firstBase, continuedBase);
    ends :| p.BestRoute(0, ends) && PlannedRanges(p) == Ok(RangesOf(0, ends));
  }

  /** Concatenated over the chain, each kind of record is exactly the stream's, in order; and every
      atom carries the shared metadata. */
  lemma {:induction false} ChainKeepsRecords(i: SealInput, chain: SealedChain)
    requires SealChain(i) == Ok(chain)
    ensures Records(ObservationsIn, chain.episodes) == FilterMap(ObservationOf, i.buffer.events)
    ensures Records(InterpretationsIn, chain.episodes) == FilterMap(InterpretationOf, i.buffer.events)
    ensures Records(BeliefsIn, chain.episodes) == FilterMap(BeliefOf, i.buffer.events)
    ensures Records(DecisionsIn, chain.episodes) == FilterMap(DecisionOf, i.buffer.events)
    ensures Records(ActionsIn, chain.episodes) == FilterMap(ActionOf, i.buffer.events)
    ensures forall e :: e in chain.episodes ==> CarriesRequest(e.body, i)
  {
    hide SealChain, SealRanges, RangeBody, FilterMap, CarriesRequest, Records, Collects;
    var prepared, p, ends := ChainHasRoute(i, chain);
    RangesCollect(i, prepared);
    assert i.buffer.events[0..] == i.buffer.events;
    RouteKeepsRecords(i, prepared, p, 0, ends, i.buffer.continues, ObservationOf, ObservationsIn);
    RouteKeepsRecords(i, prepared, p, 0, ends, i.buffer.continues, InterpretationOf, InterpretationsIn);
    RouteKeepsRecords(i, prepared, p, 0, ends, i.buffer.continues, BeliefOf, BeliefsIn);
    RouteKeepsRecords(i, prepared, p, 0, ends, i.buffer.continues, DecisionOf, DecisionsIn);
    RouteKeepsRecords(i, prepared, p, 0, ends, i.buffer.continues, ActionOf, ActionsIn);
    RouteCarriesRequest(i, prepared, p, 0, ends, i.buffer.continues);
  }
}
