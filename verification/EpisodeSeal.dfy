/** Sealing: one atom for a whole episode, or a chain of target-sized atoms that together
    preserve the complete event stream. */
module EpisodeSeal {
  import opened Wrappers
  import opened Numbers
  import opened Digests
  import opened Model
  import opened Validation
  import opened EpisodePlan
  import opened Episodes
  import opened EpisodeSizes

  datatype SealedEpisode = SealedEpisode(
    atomId: AtomId, body: MemoryAtomBody, canonicalSizeBytes: u64, targetSizeExceeded: bool)

  datatype SealedChain = SealedChain(sourceEventCount: nat, episodes: seq<SealedEpisode>)

  /** Everything a seal is computed from. */
  datatype SealInput = SealInput(
    buffer: EpisodeBuffer, request: SealRequest, policy: Policy, authority: Authority)

  // ---------- one range ----------

  /** The body of events `start..end`: source edges at the chain's edges, event times inside. */
  function RangeBody(i: SealInput, prepared: PreparedEvents, start: nat, end: nat, continues: Option<AtomId>)
    : Result<MemoryAtomBody>
  {
    if start <= end <= |i.buffer.events| && end <= |prepared.digests| then
      var events := i.buffer.events[start..end];
      var startedAtUs := if start == 0 || events == [] then i.buffer.startedAtUs else events[0].atUs;
      var endedAtUs :=
        if end == |i.buffer.events| || events == [] then i.request.endedAtUs else events[|events| - 1].atUs;
      BuildEpisodeBody(i.buffer, i.request, i.authority.policyDigest, events, prepared.digests[start..end],
                       startedAtUs, endedAtUs, continues)
    else Err(CanonicalEncoding)
  }

  function SealEpisodeRange(i: SealInput, prepared: PreparedEvents, start: nat, end: nat, continues: Option<AtomId>)
    : Result<SealedEpisode>
  {
    var body :- RangeBody(i, prepared, start, end, continues);
    var _ :- ValidateMemoryAtomBody(body, i.policy, i.authority);
    var size :- EncodedSizeBytes(body);
    var atomId :- AtomIdOf(body, i.authority.hash);
    Ok(SealedEpisode(atomId, body, size, size > i.policy.atomTargetBytes))
  }

  function RangeBodyBytes(sums: EventSums, start: nat, end: nat): Result<u64> {
    if start < |sums.bytes| && end < |sums.bytes| && sums.bytes[start] <= sums.bytes[end]
    then Ok(sums.bytes[end] - sums.bytes[start])
    else Err(CanonicalEncoding)
  }

  function First<T>(s: seq<T>): seq<T> {
    if s == [] then [] else s[..1]
  }

  /** The size of a one-event body, less what that event accounts for. */
  function SegmentBaseBytes(i: SealInput, prepared: PreparedEvents, continues: Option<AtomId>): Result<u64>
  {
    var body :- BuildEpisodeBody(i.buffer, i.request, i.authority.policyDigest, First(i.buffer.events),
                                 First(prepared.digests), i.buffer.startedAtUs, i.request.endedAtUs, continues);
    var size :- EncodedSizeBytes(body);
    var first :- RangeBodyBytes(prepared.sums, 0, 1);
    if first <= size then Ok(size - first) else Err(CanonicalEncoding)
  }

  // ---------- seal_episode ----------

  function SealEpisode(i: SealInput): Result<SealedEpisode> {
    var _ :- ValidatePolicy(i.policy);
    var _ :- ValidateEpisodeInput(i.buffer, i.request, i.policy, i.authority.hash);
    var prepared :- Prepared(i.buffer.events, i.authority.hash);
    var sealed :- SealEpisodeRange(i, prepared, 0, |i.buffer.events|, i.buffer.continues);
    var _ :- Need(!sealed.targetSizeExceeded, EpisodeRequiresSplit(sealed.canonicalSizeBytes));
    Ok(sealed)
  }

  // ---------- seal_episode_chain ----------

  /** Seals the ranges in order, each naming the atom before it, with the run-time checks of
      the size model and of the target. */
  function SealRanges(i: SealInput, prepared: PreparedEvents, firstBase: u64, continuedBase: u64,
                      ranges: seq<(nat, nat)>, previous: Option<AtomId>): Result<seq<SealedEpisode>>
    decreases ranges
  {
    if ranges == [] then Ok([])
    else
      var first :- SealOne(i, prepared, firstBase, continuedBase, ranges[0], previous);
      var rest :- SealRanges(i, prepared, firstBase, continuedBase, ranges[1..], Some(first.atomId));
      Ok([first] + rest)
  }

  function SealOne(i: SealInput, prepared: PreparedEvents, firstBase: u64, continuedBase: u64,
                   range: (nat, nat), previous: Option<AtomId>): Result<SealedEpisode>
  {
    var sealed :- SealEpisodeRange(i, prepared, range.0, range.1, previous);
    var bytes :- RangeBodyBytes(prepared.sums, range.0, range.1);
    var planned :- CheckedAdd(if range.0 == 0 then firstBase else continuedBase, bytes).OkOr(CanonicalEncoding);
    var _ :- Need(sealed.canonicalSizeBytes == planned, SizeModelDrifted);
    var _ :- Need(!sealed.targetSizeExceeded, EpisodeRequiresSplit(sealed.canonicalSizeBytes));
    Ok(sealed)
  }

  /** One episode against the stream from `cursor`, and against the atom before it. */
  function EpisodeCloses(i: SealInput, prepared: PreparedEvents, episode: SealedEpisode,
                         cursor: nat, previous: Option<AtomId>): Result<()>
  {
    var _ :- Need(episode.body.payload.Episode?, InvalidAtomBody);
    var end := cursor + |episode.body.provenance.sourceEventDigests|;
    var _ :- Need(end <= |i.buffer.events| && end <= |prepared.digests|, ChainNotClosed);
    var _ :- Need(cursor < end, ChainNotClosed);
    var payload := episode.body.payload;
    var _ :- Need(payload.eventSequenceStart == i.buffer.events[cursor].sequence
              && payload.eventSequenceEnd == i.buffer.events[end - 1].sequence
              && payload.continues == previous
              && episode.body.provenance.sourceEventDigests == prepared.digests[cursor..end], ChainNotClosed);
    var size :- EncodedSizeBytes(episode.body);
    var _ :- Need(episode.canonicalSizeBytes == size
              && size <= i.policy.atomTargetBytes
              && size <= i.policy.atomHardMaxBytes, ChainNotClosed);
    var atomId :- AtomIdOf(episode.body, i.authority.hash);
    Need(episode.atomId == atomId, ChainNotClosed)
  }

  function EpisodesClose(i: SealInput, prepared: PreparedEvents, episodes: seq<SealedEpisode>,
                         cursor: nat, previous: Option<AtomId>): Result<nat>
  {
    if episodes == [] then Ok(cursor)
    else
      var first := episodes[0];
      var _ :- EpisodeCloses(i, prepared, first, cursor, previous);
      EpisodesClose(i, prepared, episodes[1..],
                    cursor + |first.body.provenance.sourceEventDigests|, Some(first.atomId))
  }

  function ChainCloses(i: SealInput, prepared: PreparedEvents, chain: SealedChain): Result<()> {
    var cursor :- EpisodesClose(i, prepared, chain.episodes, 0, i.buffer.continues);
    var _ :- Need(cursor == |i.buffer.events| && chain.sourceEventCount == |i.buffer.events| && chain.episodes != [],
            ChainNotClosed);
    Ok(())
  }

  /** `validate_episode_chain_closure` as a loop with a cursor and the previous atom. */
  method CheckChainClosure(i: SealInput, prepared: PreparedEvents, chain: SealedChain) returns (r: Result<()>)
    ensures r == ChainCloses(i, prepared, chain)
  {
    hide EpisodeCloses;
    var cursor: nat, previous := 0, i.buffer.continues;
    assert chain.episodes[0..] == chain.episodes;
    for k := 0 to |chain.episodes|
      invariant EpisodesClose(i, prepared, chain.episodes, 0, i.buffer.continues) ==
        EpisodesClose(i, prepared, chain.episodes[k..], cursor, previous)
    {
      assert chain.episodes[k..][1..] == chain.episodes[k + 1..];
      var episode := chain.episodes[k];
      var closes := EpisodeCloses(i, prepared, episode, cursor, previous);
      if closes.Err? {
        return closes;
      }
      cursor := cursor + |episode.body.provenance.sourceEventDigests|;
      previous := Some(episode.atomId);
    }
    if cursor != |i.buffer.events| || chain.sourceEventCount != |i.buffer.events| || chain.episodes == [] {
      return Err(ChainNotClosed);
    }
    r := Ok(());
  }

  function ProblemOf(i: SealInput, prepared: PreparedEvents, firstBase: u64, continuedBase: u64): ChainProblem {
    ChainProblem(prepared.sums, i.request.Substantive(), firstBase, continuedBase, i.policy.atomTargetBytes)
  }

  /** What the planner returns, as its contract determines it. */
  ghost function PlannedRanges(p: ChainProblem): (r: Result<seq<(nat, nat)>>)
    requires p.sums.Valid()
  {
    if exists ends :: p.BestRoute(0, ends) then
      var ends :| p.BestRoute(0, ends);
      Ok(RangesOf(0, ends))
    else Err(EpisodeRequiresSplit(SaturatingAdd(p.target, 1)))
  }

  ghost function SealPrepared(i: SealInput, prepared: PreparedEvents): Result<SealedChain>
    requires i.buffer.events != [] && Prepared(i.buffer.events, i.authority.hash) == Ok(prepared)
  {
    PreparedSumsValid(i.buffer.events, i.authority.hash);
    var firstBase :- SegmentBaseBytes(i, prepared, i.buffer.continues);
    var continuedBase :- SegmentBaseBytes(i, prepared, Some(0));
    var ranges :- PlannedRanges(ProblemOf(i, prepared, firstBase, continuedBase));
    var episodes :- SealRanges(i, prepared, firstBase, continuedBase, ranges, i.buffer.continues);
    var chain := SealedChain(|i.buffer.events|, episodes);
    var _ :- ChainCloses(i, prepared, chain);
    Ok(chain)
  }

  ghost function SealChain(i: SealInput): Result<SealedChain> {
    var _ :- ValidatePolicy(i.policy);
    var _ :- ValidateEpisodeInput(i.buffer, i.request, i.policy, i.authority.hash);
    var prepared :- Prepared(i.buffer.events, i.authority.hash);
    SealPrepared(i, prepared)
  }

  /** The chain loop: seal, check, remember the atom, go on. */
  method SealInOrder(i: SealInput, prepared: PreparedEvents, firstBase: u64, continuedBase: u64,
                     ranges: seq<(nat, nat)>) returns (r: Result<seq<SealedEpisode>>)
    ensures r == SealRanges(i, prepared, firstBase, continuedBase, ranges, i.buffer.continues)
  {
    hide SealOne;
    var episodes: seq<SealedEpisode> := [];
    var previous := i.buffer.continues;
    assert ranges[0..] == ranges;
    AfterNothing(SealRanges(i, prepared, firstBase, continuedBase, ranges, previous));
    for k := 0 to |ranges|
      invariant SealRanges(i, prepared, firstBase, continuedBase, ranges, i.buffer.continues) ==
        After(episodes, SealRanges(i, prepared, firstBase, continuedBase, ranges[k..], previous))
    {
      assert ranges[k..][1..] == ranges[k + 1..];
      var sealed := SealOne(i, prepared, firstBase, continuedBase, ranges[k], previous);
      if sealed.Err? {
        return Err(sealed.error);
      }
      AfterStep(episodes, sealed.value,
                SealRanges(i, prepared, firstBase, continuedBase, ranges[k + 1..], Some(sealed.value.atomId)));
      previous := Some(sealed.value.atomId);
      episodes := episodes + [sealed.value];
    }
    assert episodes + [] == episodes;
    r := Ok(episodes);
  }

  ghost function After(done: seq<SealedEpisode>, rest: Result<seq<SealedEpisode>>): Result<seq<SealedEpisode>> {
    if rest.Ok? then Ok(done + rest.value) else rest
  }

  lemma {:induction false} AfterNothing(rest: Result<seq<SealedEpisode>>)
    ensures After([], rest) == rest
  {
    if rest.Ok? {
      assert [] + rest.value == rest.value;
    }
  }

  lemma {:induction false} AfterStep(done: seq<SealedEpisode>, one: SealedEpisode, rest: Result<seq<SealedEpisode>>)
    ensures After(done, if rest.Ok? then Ok([one] + rest.value) else rest) == After(done + [one], rest)
  {
    if rest.Ok? {
      assert done + ([one] + rest.value) == done + [one] + rest.value;
    }
  }

  lemma {:induction false} PlannerMatches(p: ChainProblem, r: Result<seq<(nat, nat)>>)
    requires p.sums.Valid()
    requires r.Ok? <==> p.Feasible()
    requires r.Err? ==> r.error == EpisodeRequiresSplit(SaturatingAdd(p.target, 1))
    requires r.Ok? ==> exists ends :: p.BestRoute(0, ends) && r.value == RangesOf(0, ends)
    ensures r == PlannedRanges(p)
  {
    if r.Ok? {
      var ends :| p.BestRoute(0, ends) && r.value == RangesOf(0, ends);
      var chosen :| p.BestRoute(0, chosen) && PlannedRanges(p) == Ok(RangesOf(0, chosen));
      BestRouteIsUnique(p, ends, chosen);
    }
  }

  /** `seal_episode_chain`. */
  method SealEpisodeChain(i: SealInput) returns (r: Result<SealedChain>)
    ensures r == SealChain(i)
  {
    if i.policy != POC_V1 {
      return Err(PolicyMismatch);
    }
    var valid := ValidateEpisodeInput(i.buffer, i.request, i.policy, i.authority.hash);
    if valid.Err? {
      return Err(valid.error);
    }
    var prepared := Prepare(i.buffer.events, i.authority.hash);
    if prepared.Err? {
      return Err(prepared.error);
    }
    var p := prepared.value;
    PreparedSumsValid(i.buffer.events, i.authority.hash);
    var firstBase := SegmentBaseBytes(i, p, i.buffer.continues);
    if firstBase.Err? {
      return Err(firstBase.error);
    }
    var continuedBase := SegmentBaseBytes(i, p, Some(0));
    if continuedBase.Err? {
      return Err(continuedBase.error);
    }
    var ranges := PlanEpisodeRanges(ProblemOf(i, p, firstBase.value, continuedBase.value));
    PlannerMatches(ProblemOf(i, p, firstBase.value, continuedBase.value), ranges);
    if ranges.Err? {
      return Err(ranges.error);
    }
    var episodes := SealInOrder(i, p, firstBase.value, continuedBase.value, ranges.value);
    if episodes.Err? {
      return Err(episodes.error);
    }
    var chain := SealedChain(|i.buffer.events|, episodes.value);
    var closes := CheckChainClosure(i, p, chain);
    r := if closes.Err? then Err(closes.error) else Ok(chain);
  }
}
