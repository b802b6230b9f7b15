/** Episode events, the body built for a range of them, and input validation. */
module Episodes {
  import opened Wrappers
  import opened Numbers
  import opened Sequences
  import opened Digests
  import opened Canonical
  import opened CanonicalSize
  import opened Model
  import opened ModelValues
  import opened Validation
  import opened EpisodePlan

  const EVENT_HASH_DOMAIN: Text := Ascii("naome-memory:event:v1\0")

  datatype EpisodeEvent = EpisodeEvent(
    sequence: u64,
    atUs: u64,
    scope: MemoryScope,
    observation: Option<Observation>,
    interpretation: Option<Interpretation>,
    belief: Option<Belief>,
    decision: Option<DecisionRecord>,
    action: Option<ActionRecord>)
  {
    predicate Substantive() {
      observation.Some? || decision.Some? || action.Some?
    }
  }

  datatype EpisodeBuffer = EpisodeBuffer(
    scope: MemoryScope, startedAtUs: u64, events: seq<EpisodeEvent>, continues: Option<AtomId>)

  datatype SealRequest = SealRequest(
    asOfUs: u64,
    endedAtUs: u64,
    trigger: Text,
    sealReason: SealReason,
    goal: Option<Text>,
    plan: seq<Text>,
    internalStateBefore: TextMap,
    internalStateAfter: TextMap,
    rejectedAlternatives: seq<RejectedAlternative>,
    outcome: Option<Outcome>,
    feedback: seq<FeedbackSignal>,
    formationSignals: FormationSignals,
    topicKeys: TextSet,
    entityIds: TextSet,
    outcomeClass: Option<Text>,
    goalKey: Option<Text>,
    retentionPermission: RetentionPermission,
    artifacts: seq<ArtifactRef>,
    relations: seq<Relation>)
  {
    /** The request alone makes every atom substantive. */
    predicate Substantive() {
      outcome.Some? || feedback != []
    }
  }

  function ObservationOf(e: EpisodeEvent): Option<Observation> { e.observation }
  function InterpretationOf(e: EpisodeEvent): Option<Interpretation> { e.interpretation }
  function BeliefOf(e: EpisodeEvent): Option<Belief> { e.belief }
  function DecisionOf(e: EpisodeEvent): Option<DecisionRecord> { e.decision }
  function ActionOf(e: EpisodeEvent): Option<ActionRecord> { e.action }

  function EventValue(e: EpisodeEvent): Value {
    Object([
      Named("sequence", Integer(e.sequence)),
      Named("at_us", Integer(e.atUs)),
      Named("scope", ScopeValue(e.scope)),
      Named("observation", Optional(e.observation, ObservationValue)),
      Named("interpretation", Optional(e.interpretation, InterpretationValue)),
      Named("belief", Optional(e.belief, BeliefValue)),
      Named("decision", Optional(e.decision, DecisionValue)),
      Named("action", Optional(e.action, ActionValue))])
  }

  // ---------- digests and prefix sums ----------

  datatype PreparedEvents = PreparedEvents(digests: seq<Digest>, sums: EventSums)

  function FramedSize(v: Value): Result<u64> {
    var size :- EncodedSize(v);
    CheckedAdd(size, 8).OkOr(CanonicalEncoding)
  }

  /** The frame an optional record adds to its list; nothing when it is absent. */
  function FramedPart<T>(part: Option<T>, of: T -> Value): Result<u64> {
    match part case None => Ok(0) case Some(v) => FramedSize(of(v))
  }

  function Accumulate(sum: u64, part: Result<u64>): Result<u64> {
    var bytes :- part;
    CheckedAdd(sum, bytes).OkOr(CanonicalEncoding)
  }

  /** The bytes one event adds to a body: its digest and each record it carries, framed. */
  function EventBodyBytes(e: EpisodeEvent, digest: Digest): Result<u64> {
    var b0 :- FramedSize(DigestValue(digest));
    var b1 :- Accumulate(b0, FramedPart(e.observation, ObservationValue));
    var b2 :- Accumulate(b1, FramedPart(e.interpretation, InterpretationValue));
    var b3 :- Accumulate(b2, FramedPart(e.belief, BeliefValue));
    var b4 :- Accumulate(b3, FramedPart(e.decision, DecisionValue));
    Accumulate(b4, FramedPart(e.action, ActionValue))
  }

  function EventDigest(e: EpisodeEvent, hash: Hash): Result<Digest> {
    var bytes :- Encode(EventValue(e)).OkOr(CanonicalEncoding);
    Ok(hash(EVENT_HASH_DOMAIN, bytes))
  }

  /** Digests and sums of a prefix, extended by one event. */
  function Extend(p: PreparedEvents, e: EpisodeEvent, hash: Hash): Result<PreparedEvents>
    requires p.sums.bytes != [] && p.sums.substantive != []
  {
    var digest :- EventDigest(e, hash);
    var bytes :- EventBodyBytes(e, digest);
    var total :- CheckedAdd(p.sums.bytes[|p.sums.bytes| - 1], bytes).OkOr(CanonicalEncoding);
    var count := p.sums.substantive[|p.sums.substantive| - 1] + (if e.Substantive() then 1 else 0);
    Ok(PreparedEvents(p.digests + [digest], EventSums(p.sums.bytes + [total], p.sums.substantive + [count])))
  }

  function Prepared(events: seq<EpisodeEvent>, hash: Hash): (r: Result<PreparedEvents>)
    ensures r.Ok? ==>
      |r.value.digests| == |events| && |r.value.sums.bytes| == |r.value.sums.substantive| == |events| + 1
  {
    if events == [] then Ok(PreparedEvents([], EventSums([0], [0])))
    else
      var before :- Prepared(events[..|events| - 1], hash);
      Extend(before, events[|events| - 1], hash)
  }

  /** `PreparedEpisodeEvents::new`: one pass that grows the three vectors. */
  method Prepare(events: seq<EpisodeEvent>, hash: Hash) returns (r: Result<PreparedEvents>)
    ensures r == Prepared(events, hash)
  {
    var p := PreparedEvents([], EventSums([0], [0]));
    var i := 0;
    while i < |events|
      invariant i <= |events| && Prepared(events[..i], hash) == Ok(p)
    {
      PreparedStep(events, i, hash);
      var next := Extend(p, events[i], hash);
      if next.Err? {
        PreparedFails(events, i + 1, hash);
        return next;
      }
      p := next.value;
      i := i + 1;
    }
    assert events[..i] == events;
    r := Ok(p);
  }

  lemma {:induction false} PreparedStep(events: seq<EpisodeEvent>, i: nat, hash: Hash)
    requires i < |events| && Prepared(events[..i], hash).Ok?
    ensures Prepared(events[..i + 1], hash) == Extend(Prepared(events[..i], hash).value, events[i], hash)
  {
    var prefix := events[..i + 1];
    assert prefix[..|prefix| - 1] == events[..i] && prefix[|prefix| - 1] == events[i];
  }

  lemma {:induction false} PreparedFails(events: seq<EpisodeEvent>, i: nat, hash: Hash)
    requires i <= |events| && Prepared(events[..i], hash).Err?
    ensures Prepared(events, hash) == Err(Prepared(events[..i], hash).error)
  {
    if i == |events| {
      assert events[..i] == events;
    } else {
      var prefix := events[..|events| - 1];
      assert prefix[..i] == events[..i];
      PreparedFails(prefix, i, hash);
    }
  }

  // ---------- the body of a range ----------

  predicate RelationLeq(a: Relation, b: Relation) {
    a.target < b.target || (a.target == b.target && a.kind.Key() <= b.kind.Key())
  }

  function KeptRelation(r: Relation): Option<Relation> {
    if r.kind == Continues then None else Some(r)
  }

  function EpisodeRelations(request: SealRequest, continues: Option<AtomId>): seq<Relation> {
    var kept := FilterMap(KeptRelation, request.relations);
    SortBy(RelationLeq, if continues.Some? then kept + [Relation(Continues, continues.value)] else kept)
  }

  function BuildEpisodeBody(
      buffer: EpisodeBuffer, request: SealRequest, policyDigest: Digest, events: seq<EpisodeEvent>,
      digests: seq<Digest>, startedAtUs: u64, endedAtUs: u64, continues: Option<AtomId>): Result<MemoryAtomBody>
  {
    if events == [] then Err(EmptyEpisode)
    else Ok(MemoryAtomBody(
      contractVersion := Ascii("atom-v1"),
      scope := buffer.scope,
      interval := TimeInterval(startedAtUs, endedAtUs, request.asOfUs),
      trigger := request.trigger,
      sealReason := request.sealReason,
      goal := request.goal,
      plan := request.plan,
      internalStateBefore := request.internalStateBefore,
      internalStateAfter := request.internalStateAfter,
      observations := FilterMap(ObservationOf, events),
      interpretations := FilterMap(InterpretationOf, events),
      beliefs := FilterMap(BeliefOf, events),
      decisions := FilterMap(DecisionOf, events),
      rejectedAlternatives := request.rejectedAlternatives,
      actions := FilterMap(ActionOf, events),
      outcome := request.outcome,
      feedback := request.feedback,
      formationSignals := request.formationSignals,
      topicKeys := request.topicKeys,
      entityIds := request.entityIds,
      outcomeClass := request.outcomeClass,
      goalKey := request.goalKey,
      provenance := Provenance(Ascii("naome-memory-core/seal_episode"), digests, policyDigest),
      relations := EpisodeRelations(request, continues),
      artifacts := request.artifacts,
      retentionPermission := request.retentionPermission,
      payload := Episode(events[0].sequence, events[|events| - 1].sequence, continues)))
  }

  // ---------- input validation ----------

  /** Sequence numbers count up from `expected`, scopes agree, and times stay inside the
      episode and never go back. */
  function ValidateEvents(events: seq<EpisodeEvent>, buffer: EpisodeBuffer, endedAtUs: u64,
                          expected: nat, previousAtUs: Option<u64>): Result<()>
  {
    if events == [] then Ok(())
    else
      var e := events[0];
      var _ :- Need(e.sequence == expected, NonContiguousEvents(expected, e.sequence));
      var _ :- Need(e.scope == buffer.scope, EventScopeMismatch(e.sequence));
      var _ :- Need(buffer.startedAtUs <= e.atUs <= endedAtUs, EventTimeOutOfRange(e.sequence));
      var _ :- Need(previousAtUs.Some? ==> previousAtUs.value <= e.atUs, NonMonotonicEventTime(e.sequence));
      var _ :- Need(expected + 1 < TWO64, NonContiguousEvents(expected, e.sequence));
      ValidateEvents(events[1..], buffer, endedAtUs, expected + 1, Some(e.atUs))
  }

  /** The sealing path checks artifacts one by one, without the duplicate rule. */
  function ValidateRequestArtifacts(artifacts: seq<ArtifactRef>, policy: Policy, hash: Hash): Result<()> {
    if artifacts == [] then Ok(())
    else
      var a := artifacts[0];
      var _ :- Need(a.sizeBytes <= policy.artifactMaxBytes, ArtifactTooLarge);
      var _ :- Need(a.inlinePayload.Some? ==> |a.inlinePayload.value| < TWO64, CanonicalEncoding);
      var _ :- Need(a.inlinePayload.Some? ==> |a.inlinePayload.value| <= policy.inlinePayloadMaxBytes,
        InlinePayloadTooLarge);
      var _ :- Need(a.inlinePayload.Some? ==> |a.inlinePayload.value| == a.sizeBytes
                && hash([], a.inlinePayload.value) == a.digest, ArtifactDigestMismatch);
      ValidateRequestArtifacts(artifacts[1..], policy, hash)
  }

  function ValidateEpisodeInput(buffer: EpisodeBuffer, request: SealRequest, policy: Policy, hash: Hash): Result<()> {
    var _ :- ValidateScope(buffer.scope);
    var _ :- Need(request.trigger != [], EmptyField);
    var _ :- Need(buffer.events != [], EmptyEpisode);
    var _ :- Need(buffer.startedAtUs <= request.endedAtUs <= request.asOfUs, InvalidTimeInterval);
    var _ :- ValidateEvents(buffer.events, buffer, request.endedAtUs, buffer.events[0].sequence, None);
    var _ :- ValidateRequestArtifacts(request.artifacts, policy, hash);
    var _ :- Need((exists e :: e in buffer.events && e.Substantive()) || request.Substantive(),
      InsufficientEpisodeContent);
    Ok(())
  }
}
