/** What sealing guarantees: the run-time size checks never fire, a chain loses nothing and
    is as short as possible, and one atom suffices exactly when the whole episode seals. */
module EpisodeChains {
  import opened Wrappers
  import opened Numbers
  import opened Sequences
  import opened Digests
  import opened Model
  import opened ModelValues
  import opened CanonicalSize
  import opened Validation
  import opened EpisodePlan
  import opened Episodes
  import opened EpisodeSizes
  import opened EpisodeSeal

  /** The policy and the events got past the checks that come before planning. */
  ghost predicate Ready(i: SealInput, prepared: PreparedEvents) {
    && i.policy == POC_V1
    && ValidateEpisodeInput(i.buffer, i.request, i.policy, i.authority.hash).Ok?
    && Prepared(i.buffer.events, i.authority.hash) == Ok(prepared)
  }

  lemma {:induction false} ReadyHasEvents(i: SealInput, prepared: PreparedEvents)
    requires Ready(i, prepared)
    ensures |i.buffer.events| > 0 && |prepared.digests| == |i.buffer.events| == prepared.sums.EventCount()
    ensures (exists e :: e in i.buffer.events && e.Substantive()) || i.request.Substantive()
  {
    hide ValidateEvents, ValidateRequestArtifacts, ValidateScope, Extend;
  }

  // ---------- sizes ----------

  lemma {:induction false} RangeSize(i: SealInput, prepared: PreparedEvents, start: nat, end: nat,
                                     continues: Option<AtomId>)
    requires start < end <= |i.buffer.events| == |prepared.digests|
    ensures RangeBody(i, prepared, start, end, continues).Ok?
    ensures Size(BodyValue(RangeBody(i, prepared, start, end, continues).value)) ==
      BaseSize(i.buffer, i.request, continues.Some?) + EventsSize(i.buffer.events[start..end])
  {
    hide BodyValue, BaseSize, EventsSize, BuildEpisodeBody;
    var events := i.buffer.events[start..end];
    var startedAtUs := if start == 0 then i.buffer.startedAtUs else events[0].atUs;
    var endedAtUs := if end == |i.buffer.events| then i.request.endedAtUs else events[|events| - 1].atUs;
    BodyIsBuilt(i.buffer, i.request, i.authority.policyDigest, events, prepared.digests[start..end],
                startedAtUs, endedAtUs, continues);
    BodySizeIsAdditive(i.buffer, i.request, i.authority.policyDigest, events, prepared.digests[start..end],
                       startedAtUs, endedAtUs, continues);
  }

  lemma {:induction false} EncodedBody(body: MemoryAtomBody)
    ensures EncodedSizeBytes(body) ==
      if Size(BodyValue(body)) < TWO64 then Ok(Size(BodyValue(body))) else Err(CanonicalEncoding)
  {
    BodyRepresentable(body);
    EncodedSizeIsModel(BodyValue(body));
  }

  /** The base a segment is planned with is the base its body will have. */
  lemma {:induction false} BaseBytes(i: SealInput, prepared: PreparedEvents, continues: Option<AtomId>)
    requires i.buffer.events != [] && Prepared(i.buffer.events, i.authority.hash) == Ok(prepared)
    ensures var base := BaseSize(i.buffer, i.request, continues.Some?);
      SegmentBaseBytes(i, prepared, continues) ==
        if base + EventsSize(i.buffer.events[..1]) < TWO64 then Ok(base) else Err(CanonicalEncoding)
  {
    hide BodyValue, BaseSize, EncodedSizeBytes, Extend, EventsSize, BuildEpisodeBody, Prepared;
    PreparedSumsValid(i.buffer.events, i.authority.hash);
    BodyIsBuilt(i.buffer, i.request, i.authority.policyDigest, i.buffer.events[..1], prepared.digests[..1],
                i.buffer.startedAtUs, i.request.endedAtUs, continues);
    var body := BuildEpisodeBody(i.buffer, i.request, i.authority.policyDigest, i.buffer.events[..1],
                                 prepared.digests[..1], i.buffer.startedAtUs, i.request.endedAtUs, continues).value;
    BodySizeIsAdditive(i.buffer, i.request, i.authority.policyDigest, i.buffer.events[..1], prepared.digests[..1],
                       i.buffer.startedAtUs, i.request.endedAtUs, continues);
    EncodedBody(body);
    RangeBytes(i.buffer.events, i.authority.hash, 0, 1);
    assert i.buffer.events[0..1] == i.buffer.events[..1];
  }

  // ---------- the checks in the loop ----------

  /** A range the planner may pick, sealed with the predecessor it gets in the loop, passes
      both run-time checks: sealing it is all that happens. */
  lemma {:induction false} ChecksNeverFire(i: SealInput, prepared: PreparedEvents, firstBase: u64, continuedBase: u64,
                                           range: (nat, nat), previous: Option<AtomId>)
    requires Ready(i, prepared) && prepared.sums.Valid()
    requires SegmentBaseBytes(i, prepared, i.buffer.continues) == Ok(firstBase)
    requires SegmentBaseBytes(i, prepared, Some(0)) == Ok(continuedBase)
    requires ProblemOf(i, prepared, firstBase, continuedBase).Segment(range.0, range.1)
    requires if range.0 == 0 then previous == i.buffer.continues else previous.Some?
    ensures SealOne(i, prepared, firstBase, continuedBase, range, previous) ==
      SealEpisodeRange(i, prepared, range.0, range.1, previous)
  {
    hide BaseSize, SegmentBaseBytes, Extend, EventsSize, ValidateMemoryAtomBody, AtomIdOf, BuildEpisodeBody, BodyValue,
      Prepared, ValidateEpisodeInput, RangeBody, EncodedSizeBytes;
    ReadyHasEvents(i, prepared);
    var events := i.buffer.events;
    BaseBytes(i, prepared, i.buffer.continues);
    BaseBytes(i, prepared, Some(0));
    RangeBytes(events, i.authority.hash, range.0, range.1);
    RangeSize(i, prepared, range.0, range.1, previous);
    EncodedBody(RangeBody(i, prepared, range.0, range.1, previous).value);
  }

  /** The four facts every planned chain starts from. */
  ghost predicate Planned(i: SealInput, prepared: PreparedEvents, firstBase: u64, continuedBase: u64) {
    && Ready(i, prepared) && prepared.sums.Valid()
    && SegmentBaseBytes(i, prepared, i.buffer.continues) == Ok(firstBase)
    && SegmentBaseBytes(i, prepared, Some(0)) == Ok(continuedBase)
  }

  lemma {:induction false} RangeBodyFacts(i: SealInput, prepared: PreparedEvents, start: nat, end: nat,
                                          continues: Option<AtomId>)
    requires start < end <= |i.buffer.events| == |prepared.digests|
    ensures RangeBody(i, prepared, start, end, continues).Ok?
    ensures var body := RangeBody(i, prepared, start, end, continues).value;
      && body.payload == Episode(i.buffer.events[start].sequence, i.buffer.events[end - 1].sequence, continues)
      && body.provenance.sourceEventDigests == prepared.digests[start..end]
  {
    hide FilterMap, EpisodeRelations, Ascii;
  }

  /** The atom that names `previous` and covers a range closes against the stream. */
  lemma {:induction false} SealedRangeCloses(i: SealInput, prepared: PreparedEvents, start: nat, end: nat,
                                             previous: Option<AtomId>)
    requires i.policy == POC_V1 && start < end <= |i.buffer.events| == |prepared.digests|
    requires SealEpisodeRange(i, prepared, start, end, previous).Ok?
    requires !SealEpisodeRange(i, prepared, start, end, previous).value.targetSizeExceeded
    ensures var sealed := SealEpisodeRange(i, prepared, start, end, previous).value;
      && EpisodeCloses(i, prepared, sealed, start, previous) == Ok(())
      && sealed.body.provenance.sourceEventDigests == prepared.digests[start..end]
  {
    hide ValidateMemoryAtomBody, EncodedSizeBytes, AtomIdOf, RangeBody;
    RangeBodyFacts(i, prepared, start, end, previous);
  }

  /** Sealing a planned route in order stops exactly at the first segment whose body the validator
      refuses, and otherwise yields one closing atom per segment. */
  lemma {:induction false} RouteSeals(i: SealInput, prepared: PreparedEvents, firstBase: u64, continuedBase: u64,
                                      start: nat, ends: seq<nat>, previous: Option<AtomId>)
    requires Planned(i, prepared, firstBase, continuedBase)
    requires ProblemOf(i, prepared, firstBase, continuedBase).Route(start, ends)
    requires if start == 0 then previous == i.buffer.continues else previous.Some?
    ensures var r := SealRanges(i, prepared, firstBase, continuedBase, RangesOf(start, ends), previous);
      && (r.Ok? ==> (|r.value| == |ends|
            && EpisodesClose(i, prepared, r.value, start, previous) == Ok(|i.buffer.events|)))
      && (forall error :: r == Err(error) <==> StopsAt(i, prepared, RangesOf(start, ends), previous, error))
    decreases ends
  {
    hide SealOne, SealEpisodeRange, EpisodeCloses, RefusedRange, ValidateEpisodeInput, Prepared, SegmentBaseBytes,
      StopsAt;
    ReadyHasEvents(i, prepared);
    if ends == [] {
      NeverStops(i, prepared, previous);
    } else {
      var range := (start, ends[0]);
      ChecksNeverFire(i, prepared, firstBase, continuedBase, range, previous);
      assert RangesOf(start, ends)[1..] == RangesOf(ends[0], ends[1..]);
      var sealed := SealOne(i, prepared, firstBase, continuedBase, range, previous);
      SealVerdict(i, prepared, start, ends[0], previous);
      StopsStep(i, prepared, RangesOf(start, ends), previous);
      if sealed.Ok? {
        var first := sealed.value;
        SealedWithinTarget(i, prepared, firstBase, continuedBase, range, previous);
        SealedRangeCloses(i, prepared, start, ends[0], previous);
        RouteSeals(i, prepared, firstBase, continuedBase, ends[0], ends[1..], Some(first.atomId));
        var rest := SealRanges(i, prepared, firstBase, continuedBase, RangesOf(ends[0], ends[1..]), Some(first.atomId));
        if rest.Ok? {
          assert ([first] + rest.value)[1..] == rest.value;
        }
      }
    }
  }

  lemma {:induction false} SealedWithinTarget(i: SealInput, prepared: PreparedEvents, firstBase: u64,
                                              continuedBase: u64, range: (nat, nat), previous: Option<AtomId>)
    requires SealOne(i, prepared, firstBase, continuedBase, range, previous).Ok?
    ensures !SealOne(i, prepared, firstBase, continuedBase, range, previous).value.targetSizeExceeded
  {
    hide SealEpisodeRange, RangeBodyBytes;
  }

  /** The validator refuses the body of this range. */
  ghost predicate RefusedRange(i: SealInput, prepared: PreparedEvents, start: nat, end: nat,
                               previous: Option<AtomId>, error: MemoryError)
  {
    && start < end <= |i.buffer.events|
    && RangeBody(i, prepared, start, end, previous).Ok?
    && ValidateMemoryAtomBody(RangeBody(i, prepared, start, end, previous).value, i.policy, i.authority) == Err(error)
  }

  /** Sealing a range fails exactly through the validator, with its error. */
  lemma {:induction false} SealVerdict(i: SealInput, prepared: PreparedEvents, start: nat, end: nat,
                                                    previous: Option<AtomId>)
    requires start < end <= |i.buffer.events| == |prepared.digests|
    ensures forall error ::
      SealEpisodeRange(i, prepared, start, end, previous) == Err(error) <==>
        RefusedRange(i, prepared, start, end, previous, error)
  {
    hide RangeBody, AtomIdOf, EncodedSizeBytes, BodyValue;
    RangeBodyFacts(i, prepared, start, end, previous);
    var body := RangeBody(i, prepared, start, end, previous).value;
    if ValidateMemoryAtomBody(body, i.policy, i.authority).Ok? {
      hide ValidateMemoryAtomBody;
      ValidBodyIsAddressed(body, i.policy, i.authority);
    }
  }

  /** Going through the ranges in order, each naming the atom sealed before it, the first body
      that the validator refuses is refused with this error. */
  ghost predicate StopsAt(i: SealInput, prepared: PreparedEvents, ranges: seq<(nat, nat)>, previous: Option<AtomId>,
                          error: MemoryError)
    decreases ranges
  {
    if ranges == [] then false
    else
      var sealed := SealEpisodeRange(i, prepared, ranges[0].0, ranges[0].1, previous);
      if sealed.Err? then RefusedRange(i, prepared, ranges[0].0, ranges[0].1, previous, error)
      else StopsAt(i, prepared, ranges[1..], Some(sealed.value.atomId), error)
  }

  lemma {:induction false} NeverStops(i: SealInput, prepared: PreparedEvents, previous: Option<AtomId>)
    ensures forall error :: !StopsAt(i, prepared, [], previous, error)
  {
  }

  lemma {:induction false} StopsStep(i: SealInput, prepared: PreparedEvents, ranges: seq<(nat, nat)>,
                                     previous: Option<AtomId>)
    requires ranges != []
    ensures var sealed := SealEpisodeRange(i, prepared, ranges[0].0, ranges[0].1, previous);
      forall error :: StopsAt(i, prepared, ranges, previous, error) <==>
        if sealed.Err? then RefusedRange(i, prepared, ranges[0].0, ranges[0].1, previous, error)
        else StopsAt(i, prepared, ranges[1..], Some(sealed.value.atomId), error)
  {
    hide SealEpisodeRange, RefusedRange;
  }

  // ---------- what a closed chain preserves ----------

  function DigestsOf(episodes: seq<SealedEpisode>): seq<Digest> {
    if episodes == [] then [] else episodes[0].body.provenance.sourceEventDigests + DigestsOf(episodes[1..])
  }

  /** Each atom names its predecessor, covers at least one event, and is its own address. */
  ghost predicate Linked(i: SealInput, episodes: seq<SealedEpisode>, previous: Option<AtomId>) {
    episodes != [] ==>
      && episodes[0].body.payload.Episode?
      && episodes[0].body.payload.continues == previous
      && episodes[0].body.provenance.sourceEventDigests != []
      && AtomIdOf(episodes[0].body, i.authority.hash) == Ok(episodes[0].atomId)
      && EncodedSizeBytes(episodes[0].body) == Ok(episodes[0].canonicalSizeBytes)
      && episodes[0].canonicalSizeBytes <= i.policy.atomTargetBytes
      && Linked(i, episodes[1..], Some(episodes[0].atomId))
  }

  lemma {:induction false} CloseFacts(i: SealInput, prepared: PreparedEvents, episode: SealedEpisode, cursor: nat,
                                      previous: Option<AtomId>)
    requires EpisodeCloses(i, prepared, episode, cursor, previous).Ok?
    ensures episode.body.payload.Episode? && episode.body.payload.continues == previous
    ensures var digests := episode.body.provenance.sourceEventDigests;
      && digests != [] && cursor + |digests| <= |prepared.digests|
      && digests == prepared.digests[cursor..cursor + |digests|]
    ensures AtomIdOf(episode.body, i.authority.hash) == Ok(episode.atomId)
    ensures EncodedSizeBytes(episode.body) == Ok(episode.canonicalSizeBytes)
    ensures episode.canonicalSizeBytes <= i.policy.atomTargetBytes
  {
    hide EncodedSizeBytes, AtomIdOf;
  }

  /** One step of the closure check. */
  lemma {:induction false} CloseStep(i: SealInput, prepared: PreparedEvents, episodes: seq<SealedEpisode>, cursor: nat,
                                     previous: Option<AtomId>)
    requires episodes != [] && EpisodesClose(i, prepared, episodes, cursor, previous).Ok?
    ensures EpisodeCloses(i, prepared, episodes[0], cursor, previous).Ok?
    ensures EpisodesClose(i, prepared, episodes, cursor, previous) ==
      EpisodesClose(i, prepared, episodes[1..], cursor + |episodes[0].body.provenance.sourceEventDigests|,
                    Some(episodes[0].atomId))
  {
    hide EpisodeCloses;
  }

  /** Whatever passes the closure check preserves the stream in order, link by link. */
  lemma {:induction false} ClosureIsLossless(i: SealInput, prepared: PreparedEvents, episodes: seq<SealedEpisode>,
                                             cursor: nat, previous: Option<AtomId>)
    requires cursor <= |prepared.digests|
    requires EpisodesClose(i, prepared, episodes, cursor, previous).Ok?
    ensures cursor <= EpisodesClose(i, prepared, episodes, cursor, previous).value <= |prepared.digests|
    ensures DigestsOf(episodes) ==
      prepared.digests[cursor..EpisodesClose(i, prepared, episodes, cursor, previous).value]
    ensures Linked(i, episodes, previous)
  {
    hide EncodedSizeBytes, AtomIdOf, EpisodeCloses;
    if episodes != [] {
      CloseStep(i, prepared, episodes, cursor, previous);
      hide EpisodesClose;
      var first, rest := episodes[0], episodes[1..];
      var end := cursor + |first.body.provenance.sourceEventDigests|;
      CloseFacts(i, prepared, first, cursor, previous);
      ClosureIsLossless(i, prepared, rest, end, Some(first.atomId));
      Adjoin(prepared.digests, cursor, end, EpisodesClose(i, prepared, rest, end, Some(first.atomId)).value);
    }
  }

  lemma {:induction false} Adjoin<T>(s: seq<T>, a: nat, b: nat, c: nat)
    requires a <= b <= c <= |s|
    ensures s[a..c] == s[a..b] + s[b..c]
  {
  }

  // ---------- the whole chain ----------

  /** `seal_episode_chain` on prepared events whose bases encode: it fails exactly when no partition
      is feasible or the validator refuses a body of the best one; neither the drift check, nor the
      target check, nor the closure check can stop it. On success nothing is lost and no feasible
      chain is shorter. */
  lemma {:induction false} ChainSealing(i: SealInput, prepared: PreparedEvents, firstBase: u64, continuedBase: u64)
    requires Planned(i, prepared, firstBase, continuedBase)
    ensures var p := ProblemOf(i, prepared, firstBase, continuedBase);
      forall error :: SealChain(i) == Err(error) <==> ChainStops(i, prepared, p, error)
    ensures var p := ProblemOf(i, prepared, firstBase, continuedBase);
      SealChain(i).Ok? ==>
        var chain := SealChain(i).value;
        && p.Feasible()
        && (forall ends :: p.Route(0, ends) ==> |chain.episodes| <= |ends|)
        && DigestsOf(chain.episodes) == prepared.digests
        && Linked(i, chain.episodes, i.buffer.continues)
        && chain.sourceEventCount == |i.buffer.events|
  {
    hide SealRanges, EpisodesClose, SegmentBaseBytes, Linked, DigestsOf, ValidateEpisodeInput, Prepared, StopsAt;
    ReadyHasEvents(i, prepared);
    var p := ProblemOf(i, prepared, firstBase, continuedBase);
    if p.Feasible() {
      BestRouteExists(p);
      var ends :| p.BestRoute(0, ends) && PlannedRanges(p) == Ok(RangesOf(0, ends));
      OneBestRoute(p, ends);
      RouteSeals(i, prepared, firstBase, continuedBase, 0, ends, i.buffer.continues);
      var sealed := SealRanges(i, prepared, firstBase, continuedBase, RangesOf(0, ends), i.buffer.continues);
      if sealed.Ok? {
        RouteIsNotEmpty(p, ends);
        ClosureIsLossless(i, prepared, sealed.value, 0, i.buffer.continues);
        assert prepared.digests[0..|prepared.digests|] == prepared.digests;
      }
    }
  }

  /** Why a chain cannot be sealed: nothing feasible to seal, or a refused body of the best route. */
  ghost predicate ChainStops(i: SealInput, prepared: PreparedEvents, p: ChainProblem, error: MemoryError)
    requires p.sums.Valid()
  {
    if p.Feasible()
    then exists ends :: p.BestRoute(0, ends) && StopsAt(i, prepared, RangesOf(0, ends), i.buffer.continues, error)
    else error == EpisodeRequiresSplit(i.policy.atomTargetBytes + 1)
  }

  lemma {:induction false} OneBestRoute(p: ChainProblem, ends: seq<nat>)
    requires p.sums.Valid() && p.BestRoute(0, ends)
    ensures forall other :: p.BestRoute(0, other) ==> other == ends
  {
    forall other | p.BestRoute(0, other) ensures other == ends {
      BestRouteIsUnique(p, other, ends);
    }
  }

  lemma {:induction false} RouteIsNotEmpty(p: ChainProblem, ends: seq<nat>)
    requires p.sums.Valid() && p.sums.EventCount() > 0 && p.Route(0, ends)
    ensures |ends| > 0
  {
  }

  // ---------- one atom or a chain ----------

  lemma {:induction false} BaseSizesAreClose(buffer: EpisodeBuffer, request: SealRequest, continued: bool)
    ensures BaseSize(buffer, request, true) <= BaseSize(buffer, request, continued) + 222
  {
  }

  lemma {:induction false} FirstEventIsSmall(events: seq<EpisodeEvent>)
    requires events != []
    ensures EventsSize(events[..1]) <= EventsSize(events)
  {
    assert events == events[..1] + events[1..];
    EventsSizeConcat(events[..1], events[1..]);
  }

  lemma {:induction false} SubstantiveStream(i: SealInput, prepared: PreparedEvents)
    requires Ready(i, prepared)
    ensures i.request.Substantive() || prepared.sums.substantive[|i.buffer.events|] > prepared.sums.substantive[0]
  {
    hide ValidateEpisodeInput, Prepared, SubstantiveCount;
    var events := i.buffer.events;
    ReadyHasEvents(i, prepared);
    PreparedSums(events, i.authority.hash);
    assert LineUp(events, i.authority.hash, 0) && LineUp(events, i.authority.hash, |events|);
    if !i.request.Substantive() {
      var e :| e in events && e.Substantive();
      var k :| 0 <= k < |events| && events[k] == e;
      CountMonotone(events, 0, |events|);
    }
  }

  /** An episode that seals as one atom has bases that encode and is one feasible segment. */
  lemma {:induction false} WholeEpisodeIsSegment(i: SealInput, prepared: PreparedEvents)
    requires Ready(i, prepared) && prepared.sums.Valid()
    requires SealEpisodeRange(i, prepared, 0, |i.buffer.events|, i.buffer.continues).Ok?
    requires !SealEpisodeRange(i, prepared, 0, |i.buffer.events|, i.buffer.continues).value.targetSizeExceeded
    ensures SegmentBaseBytes(i, prepared, i.buffer.continues).Ok? && SegmentBaseBytes(i, prepared, Some(0)).Ok?
    ensures ProblemOf(i, prepared, SegmentBaseBytes(i, prepared, i.buffer.continues).value,
                      SegmentBaseBytes(i, prepared, Some(0)).value).Segment(0, |i.buffer.events|)
  {
    hide ValidateEpisodeInput, Prepared, BaseSize, SegmentBaseBytes, ValidateMemoryAtomBody, AtomIdOf, RangeBody,
      BodyValue, EventsSize;
    ReadyHasEvents(i, prepared);
    var events, n := i.buffer.events, |i.buffer.events|;
    RangeSize(i, prepared, 0, n, i.buffer.continues);
    EncodedBody(RangeBody(i, prepared, 0, n, i.buffer.continues).value);
    assert events[0..n] == events;
    BaseSizesAreClose(i.buffer, i.request, i.buffer.continues.Some?);
    FirstEventIsSmall(events);
    BaseBytes(i, prepared, i.buffer.continues);
    BaseBytes(i, prepared, Some(0));
    RangeBytes(events, i.authority.hash, 0, n);
    SubstantiveStream(i, prepared);
  }

  lemma {:induction false} OneSegmentRoute(p: ChainProblem, ends: seq<nat>)
    requires p.sums.Valid() && p.sums.EventCount() > 0 && p.BestRoute(0, ends)
    ensures p.Segment(0, p.sums.EventCount()) <==> |ends| == 1
    ensures |ends| == 1 ==> RangesOf(0, ends) == [(0, p.sums.EventCount())]
  {
    var n := p.sums.EventCount();
    if p.Segment(0, n) {
      assert [n][1..] == [];
      assert p.Route(0, [n]);
      RouteIsNotEmpty(p, ends);
    }
    if |ends| == 1 {
      assert ends[1..] == [] && p.Route(ends[0], []);
    }
  }

  lemma {:induction false} OneRangeSeals(i: SealInput, prepared: PreparedEvents, firstBase: u64, continuedBase: u64,
                                         range: (nat, nat))
    ensures SealRanges(i, prepared, firstBase, continuedBase, [range], i.buffer.continues) ==
      var one := SealOne(i, prepared, firstBase, continuedBase, range, i.buffer.continues);
      if one.Ok? then Ok([one.value]) else Err(one.error)
  {
    hide SealOne;
    var one := SealOne(i, prepared, firstBase, continuedBase, range, i.buffer.continues);
    assert [range][1..] == [];
    if one.Ok? {
      assert SealRanges(i, prepared, firstBase, continuedBase, [], Some(one.value.atomId)) == Ok([]);
      assert [one.value] + [] == [one.value];
    }
  }

  /** `seal_episode` succeeds exactly when the chain has one episode, with the same atom. */
  lemma {:induction false} OneAtomIffChainOfOne(i: SealInput, sealed: SealedEpisode)
    ensures SealEpisode(i) == Ok(sealed) <==> SealChain(i) == Ok(SealedChain(|i.buffer.events|, [sealed]))
  {
    hide ValidateEpisodeInput, Prepared, SealEpisodeRange, SealPrepared;
    if SealEpisode(i).Ok? || SealChain(i).Ok? {
      var prepared := Prepared(i.buffer.events, i.authority.hash).value;
      ReadyHasEvents(i, prepared);
      PreparedSumsValid(i.buffer.events, i.authority.hash);
      if SealEpisode(i) == Ok(sealed) {
        WholeEpisodeIsSegment(i, prepared);
        SingleSegmentSeals(i, prepared, sealed);
      }
      if SealPrepared(i, prepared) == Ok(SealedChain(|i.buffer.events|, [sealed])) {
        ChainOfOneIsWhole(i, prepared, sealed);
      }
    }
  }

  lemma {:induction false} SingleSegmentSeals(i: SealInput, prepared: PreparedEvents, sealed: SealedEpisode)
    requires Ready(i, prepared) && prepared.sums.Valid()
    requires SegmentBaseBytes(i, prepared, i.buffer.continues).Ok? && SegmentBaseBytes(i, prepared, Some(0)).Ok?
    requires ProblemOf(i, prepared, SegmentBaseBytes(i, prepared, i.buffer.continues).value,
                       SegmentBaseBytes(i, prepared, Some(0)).value).Segment(0, |i.buffer.events|)
    requires SealEpisodeRange(i, prepared, 0, |i.buffer.events|, i.buffer.continues) == Ok(sealed)
    ensures SealPrepared(i, prepared) == Ok(SealedChain(|i.buffer.events|, [sealed]))
  {
    hide ValidateEpisodeInput, Prepared, SegmentBaseBytes, SealEpisodeRange, SealOne, SealRanges, EpisodesClose;
    ReadyHasEvents(i, prepared);
    var n := |i.buffer.events|;
    var firstBase := SegmentBaseBytes(i, prepared, i.buffer.continues).value;
    var continuedBase := SegmentBaseBytes(i, prepared, Some(0)).value;
    var p := ProblemOf(i, prepared, firstBase, continuedBase);
    assert [n][1..] == [];
    assert p.Route(0, [n]);
    BestRouteExists(p);
    var ends :| p.BestRoute(0, ends) && PlannedRanges(p) == Ok(RangesOf(0, ends));
    OneSegmentRoute(p, ends);
    ChecksNeverFire(i, prepared, firstBase, continuedBase, (0, n), i.buffer.continues);
    OneRangeSeals(i, prepared, firstBase, continuedBase, (0, n));
    RouteSeals(i, prepared, firstBase, continuedBase, 0, ends, i.buffer.continues);
  }

  lemma {:induction false} ChainOfOneIsWhole(i: SealInput, prepared: PreparedEvents, sealed: SealedEpisode)
    requires Ready(i, prepared) && prepared.sums.Valid()
    requires SealPrepared(i, prepared) == Ok(SealedChain(|i.buffer.events|, [sealed]))
    ensures SealEpisodeRange(i, prepared, 0, |i.buffer.events|, i.buffer.continues) == Ok(sealed)
    ensures !sealed.targetSizeExceeded
  {
    hide ValidateEpisodeInput, Prepared, SegmentBaseBytes, SealEpisodeRange, SealOne, SealRanges, EpisodesClose;
    ReadyHasEvents(i, prepared);
    var firstBase := SegmentBaseBytes(i, prepared, i.buffer.continues).value;
    var continuedBase := SegmentBaseBytes(i, prepared, Some(0)).value;
    var p := ProblemOf(i, prepared, firstBase, continuedBase);
    var ends :| p.BestRoute(0, ends) && PlannedRanges(p) == Ok(RangesOf(0, ends));
    RouteSeals(i, prepared, firstBase, continuedBase, 0, ends, i.buffer.continues);
    OneSegmentRoute(p, ends);
    var range := (0, |i.buffer.events|);
    ChecksNeverFire(i, prepared, firstBase, continuedBase, range, i.buffer.continues);
    OneRangeSeals(i, prepared, firstBase, continuedBase, range);
    SealedWithinTarget(i, prepared, firstBase, continuedBase, range, i.buffer.continues);
  }
}
