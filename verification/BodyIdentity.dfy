/** The content address covers the whole body: bodies with the same canonical bytes are equal. */
module BodyIdentity {
  import opened Wrappers
  import opened Numbers
  import opened Sequences
  import opened Digests
  import opened Canonical
  import opened Consensus
  import opened Model
  import opened ModelValues
  import opened Validation
  import opened AtomIdentity

  ghost predicate Same(v: Value, w: Value) {
    Encode(v).Some? && Encode(v) == Encode(w)
  }

  // ---------- parts of equal encodings ----------

  lemma {:induction false} SameText(a: Text, b: Text)
    requires Same(Str(a), Str(b))
    ensures a == b
  {
    EncodingIsInjective(Str(a), Str(b));
  }

  lemma {:induction false} SameDigest(a: Digest, b: Digest)
    requires Same(DigestValue(a), DigestValue(b))
    ensures a == b
  {
    SameText(Hex(a), Hex(b));
    HexInjective(a, b);
  }

  lemma {:induction false} SameInteger(a: int, b: int)
    requires Same(Integer(a), Integer(b))
    ensures a == b
  {
    IntegerInjective(a, b);
  }

  lemma {:induction false} SameBool(a: bool, b: bool)
    requires Same(Bool(a), Bool(b))
    ensures a == b
  {
    EncodeTag(Bool(a));
    EncodeTag(Bool(b));
  }

  /** A null is never the encoding of anything else. */
  lemma {:induction false} SameOptional<T>(a: Option<T>, b: Option<T>, of: T -> Value)
    requires Same(Optional(a, of), Optional(b, of))
    requires (a.Some? ==> of(a.value) != Null) && (b.Some? ==> of(b.value) != Null)
    ensures a.Some? == b.Some?
    ensures a.Some? ==> Same(of(a.value), of(b.value))
  {
    EncodeTag(Optional(a, of));
    EncodeTag(Optional(b, of));
  }

  lemma {:induction false} SameOptionalText(a: Option<Text>, b: Option<Text>)
    requires Same(Optional(a, TextValue), Optional(b, TextValue))
    ensures a == b
  {
    hide Encode;
    SameOptional(a, b, TextValue);
    if a.Some? {
      SameText(a.value, b.value);
    }
  }

  lemma {:induction false} SameOptionalDigest(a: Option<Digest>, b: Option<Digest>)
    requires Same(Optional(a, DigestValue), Optional(b, DigestValue))
    ensures a == b
  {
    hide Encode, Hex;
    SameOptional(a, b, DigestValue);
    if a.Some? {
      SameDigest(a.value, b.value);
    }
  }

  lemma {:induction false} SameList<T>(a: seq<T>, b: seq<T>, of: T -> Value)
    requires Same(ListOf(a, of), ListOf(b, of))
    ensures |a| == |b| && forall i :: 0 <= i < |a| ==> Same(of(a[i]), of(b[i]))
  {
    var va, vb := Map(of, a), Map(of, b);
    TaggedCount(6, |va|, |vb|, EncodeItems(va).value, EncodeItems(vb).value);
    ArrayMembers(va, vb);
    forall i | 0 <= i < |a| ensures Same(of(a[i]), of(b[i])) {
      assert va[i] == of(a[i]) && vb[i] == of(b[i]);
    }
  }

  /** Objects with the same distinct keys agree member by member. */
  lemma {:induction false} SameMembers(a: seq<Entry>, b: seq<Entry>)
    requires Same(Object(a), Object(b)) && DistinctKeys(b)
    requires |a| == |b| && forall i :: 0 <= i < |a| ==> a[i].key == b[i].key
    ensures forall i :: 0 <= i < |a| ==> Same(a[i].value, b[i].value)
  {
    hide Encode;
    forall i | 0 <= i < |a| ensures Same(a[i].value, b[i].value) {
      OnlyMember(a, b, i, i);
    }
  }

  lemma {:induction false} SameTexts(a: seq<Text>, b: seq<Text>)
    requires Same(ListOf(a, TextValue), ListOf(b, TextValue))
    ensures a == b
  {
    hide Encode;
    SameList(a, b, TextValue);
    forall i | 0 <= i < |a| ensures a[i] == b[i] {
      SameText(a[i], b[i]);
    }
  }

  lemma {:induction false} SameDigests(a: seq<Digest>, b: seq<Digest>)
    requires Same(ListOf(a, DigestValue), ListOf(b, DigestValue))
    ensures a == b
  {
    SameDigestLists(a, b);
  }

  lemma {:induction false} SameBytesList(a: seq<byte>, b: seq<byte>)
    requires Same(InlineValue(a), InlineValue(b))
    ensures a == b
  {
    hide Encode;
    SameList(a, b, ByteValue);
    forall i | 0 <= i < |a| ensures a[i] == b[i] {
      SameInteger(a[i], b[i]);
    }
  }

  // ---------- maps ----------

  lemma {:induction false} FirstIsLeast<K(!new)>(less: Less<K>, a: seq<K>)
    requires KeysIncrease(less, a) && a != []
    ensures a[0] in a && forall x :: x in a ==> x == a[0] || less(a[0], x)
  {
  }

  /** Strictly ordered sequences with the same members are the same sequence. */
  lemma {:induction false} SameIncreasing<K(!new)>(less: Less<K>, a: seq<K>, b: seq<K>)
    requires StrictOrder(less) && KeysIncrease(less, a) && KeysIncrease(less, b)
    requires forall x :: x in a <==> x in b
    ensures a == b
  {
    if a == [] {
      if b != [] {
        FirstIsLeast(less, b);
      }
    } else {
      FirstIsLeast(less, a);
      FirstIsLeast(less, b);
      assert a[0] == b[0];
      assert a == [a[0]] + a[1..] && b == [b[0]] + b[1..];
      forall x ensures x in a[1..] <==> x in b[1..] {
        if x in a[1..] {
          assert x in a && less(a[0], x);
        }
        if x in b[1..] {
          assert x in b && less(b[0], x);
        }
      }
      SameIncreasing(less, a[1..], b[1..]);
    }
  }

  /** Each pair of one map is in the other. */
  lemma {:induction false} PairIsThere(a: TextMap, b: TextMap, p: TextPair)
    requires Same(TextMapValue(a), TextMapValue(b)) && p in a
    ensures p in b
  {
    hide Encode;
    var i :| 0 <= i < |a| && a[i] == p;
    var ea, eb := Map(PairEntry, a), Map(PairEntry, b);
    var j := ObjectMember(ea, eb, i);
    assert ea[i] == PairEntry(a[i]) && eb[j] == PairEntry(b[j]);
    SameText(a[i].value, b[j].value);
    assert b[j] == p;
  }

  lemma {:induction false} MapIncreases(m: TextMap)
    ensures KeysIncrease<TextPair>(PairLess, m)
  {
    hide TextLess;
  }

  lemma {:induction false} SameTextMaps(a: TextMap, b: TextMap)
    requires Same(TextMapValue(a), TextMapValue(b))
    ensures a == b
  {
    hide Encode, PairLess, StrictOrder, TextMapValue;
    forall p ensures p in a <==> p in b {
      if p in a { PairIsThere(a, b, p); }
      if p in b { PairIsThere(b, a, p); }
    }
    PairIsOrdered();
    MapIncreases(a);
    MapIncreases(b);
    SameIncreasing<TextPair>(PairLess, a, b);
  }

  /** The source digests of a semantic payload in key order, as an ordered map iterates. */
  ghost predicate InKeyOrder(digests: seq<SourceDigest>) {
    forall i, j :: 0 <= i < j < |digests| ==> digests[i].source < digests[j].source
  }

  predicate SourceLess(a: SourceDigest, b: SourceDigest) {
    a.source < b.source || (a.source == b.source && a.digest < b.digest)
  }

  lemma {:induction false} SourceIsThere(a: seq<SourceDigest>, b: seq<SourceDigest>, s: SourceDigest)
    requires Same(Object(Map(SourceDigestEntry, a)), Object(Map(SourceDigestEntry, b))) && s in a
    ensures s in b
  {
    hide Encode, Hex;
    var i :| 0 <= i < |a| && a[i] == s;
    var ea, eb := Map(SourceDigestEntry, a), Map(SourceDigestEntry, b);
    var j := ObjectMember(ea, eb, i);
    assert ea[i] == SourceDigestEntry(a[i]) && eb[j] == SourceDigestEntry(b[j]);
    HexInjective(a[i].source, b[j].source);
    SameDigest(a[i].digest, b[j].digest);
    assert b[j] == s;
  }

  lemma {:induction false} SameSourceDigests(a: seq<SourceDigest>, b: seq<SourceDigest>)
    requires Same(Object(Map(SourceDigestEntry, a)), Object(Map(SourceDigestEntry, b)))
    requires InKeyOrder(a) && InKeyOrder(b)
    ensures a == b
  {
    hide Encode, Hex, SourceDigestEntry;
    forall s ensures s in a <==> s in b {
      if s in a { SourceIsThere(a, b, s); }
      if s in b { SourceIsThere(b, a, s); }
    }
    SameIncreasing(SourceLess, a, b);
  }

  // ---------- records ----------

  lemma {:induction false} SameScope(a: MemoryScope, b: MemoryScope)
    requires Same(ScopeValue(a), ScopeValue(b))
    ensures a == b
  {
    hide Encode, Hex;
    var x, y := ScopeValue(a).entries, ScopeValue(b).entries;
    SameMembers(x, y);
    assert Same(x[0].value, y[0].value);
    SameText(a.memorySpaceId, b.memorySpaceId);
    assert Same(x[1].value, y[1].value);
    SameOptionalText(a.repositoryId, b.repositoryId);
    assert Same(x[2].value, y[2].value);
    SameOptionalText(a.taskId, b.taskId);
    assert Same(x[3].value, y[3].value);
    SameOptionalText(a.agentId, b.agentId);
    assert Same(x[4].value, y[4].value);
    SameText(a.sessionId, b.sessionId);
  }

  lemma {:induction false} SameInterval(a: TimeInterval, b: TimeInterval)
    requires Same(IntervalValue(a), IntervalValue(b))
    ensures a == b
  {
    hide Encode, Hex;
    var x, y := IntervalValue(a).entries, IntervalValue(b).entries;
    SameMembers(x, y);
    assert Same(x[0].value, y[0].value);
    SameInteger(a.startedAtUs, b.startedAtUs);
    assert Same(x[1].value, y[1].value);
    SameInteger(a.endedAtUs, b.endedAtUs);
    assert Same(x[2].value, y[2].value);
    SameInteger(a.recordedAtUs, b.recordedAtUs);
  }

  lemma {:induction false} SameObservation(a: Observation, b: Observation)
    requires Same(ObservationValue(a), ObservationValue(b))
    ensures a == b
  {
    hide Encode, Hex;
    var x, y := ObservationValue(a).entries, ObservationValue(b).entries;
    SameMembers(x, y);
    assert Same(x[0].value, y[0].value);
    SameInteger(a.atUs, b.atUs);
    assert Same(x[1].value, y[1].value);
    SameText(a.source, b.source);
    assert Same(x[2].value, y[2].value);
    SameText(a.content, b.content);
    assert Same(x[3].value, y[3].value);
    SameOptionalDigest(a.artifactDigest, b.artifactDigest);
  }

  lemma {:induction false} SameInterpretation(a: Interpretation, b: Interpretation)
    requires Same(InterpretationValue(a), InterpretationValue(b))
    ensures a == b
  {
    hide Encode, Hex;
    var x, y := InterpretationValue(a).entries, InterpretationValue(b).entries;
    SameMembers(x, y);
    assert Same(x[0].value, y[0].value);
    SameText(a.content, b.content);
    assert Same(x[1].value, y[1].value);
    SameInteger(a.confidence, b.confidence);
    assert Same(x[2].value, y[2].value);
    SameDigests(a.evidence, b.evidence);
  }

  lemma {:induction false} SameBelief(a: Belief, b: Belief)
    requires Same(BeliefValue(a), BeliefValue(b))
    ensures a == b
  {
    hide Encode, Hex;
    var x, y := BeliefValue(a).entries, BeliefValue(b).entries;
    SameMembers(x, y);
    assert Same(x[0].value, y[0].value);
    SameText(a.proposition, b.proposition);
    assert Same(x[1].value, y[1].value);
    SameInteger(a.confidence, b.confidence);
    assert Same(x[2].value, y[2].value);
    SameDigests(a.evidence, b.evidence);
  }

  lemma {:induction false} SameDecision(a: DecisionRecord, b: DecisionRecord)
    requires Same(DecisionValue(a), DecisionValue(b))
    ensures a == b
  {
    hide Encode, Hex;
    var x, y := DecisionValue(a).entries, DecisionValue(b).entries;
    SameMembers(x, y);
    assert Same(x[0].value, y[0].value);
    SameText(a.decision, b.decision);
    assert Same(x[1].value, y[1].value);
    SameText(a.rationale, b.rationale);
  }

  lemma {:induction false} SameAlternative(a: RejectedAlternative, b: RejectedAlternative)
    requires Same(AlternativeValue(a), AlternativeValue(b))
    ensures a == b
  {
    hide Encode, Hex;
    var x, y := AlternativeValue(a).entries, AlternativeValue(b).entries;
    SameMembers(x, y);
    assert Same(x[0].value, y[0].value);
    SameText(a.alternative, b.alternative);
    assert Same(x[1].value, y[1].value);
    SameText(a.reason, b.reason);
  }

  lemma {:induction false} SameAction(a: ActionRecord, b: ActionRecord)
    requires Same(ActionValue(a), ActionValue(b))
    ensures a == b
  {
    hide Encode, Hex;
    assert Ascii("action")[0] != Ascii("result")[0];
    var x, y := ActionValue(a).entries, ActionValue(b).entries;
    SameMembers(x, y);
    assert Same(x[0].value, y[0].value);
    SameText(a.action, b.action);
    assert Same(x[1].value, y[1].value);
    SameOptionalText(a.result, b.result);
  }

  lemma {:induction false} SameOutcome(a: Outcome, b: Outcome)
    requires Same(OutcomeValue(a), OutcomeValue(b))
    ensures a == b
  {
    hide Encode, Hex;
    var x, y := OutcomeValue(a).entries, OutcomeValue(b).entries;
    SameMembers(x, y);
    assert Same(x[0].value, y[0].value);
    SameText(a.class_, b.class_);
    assert Same(x[1].value, y[1].value);
    SameText(a.summary, b.summary);
    assert Same(x[2].value, y[2].value);
    SameBool(a.succeeded, b.succeeded);
  }

  lemma {:induction false} SameFeedback(a: FeedbackSignal, b: FeedbackSignal)
    requires Same(FeedbackValue(a), FeedbackValue(b))
    ensures a == b
  {
    hide Encode, Hex;
    var x, y := FeedbackValue(a).entries, FeedbackValue(b).entries;
    SameMembers(x, y);
    assert Same(x[0].value, y[0].value);
    SameText(a.source, b.source);
    assert Same(x[1].value, y[1].value);
    SameBool(a.positive, b.positive);
    assert Same(x[2].value, y[2].value);
    SameOptionalText(a.note, b.note);
  }

  lemma {:induction false} SameSignals(a: FormationSignals, b: FormationSignals)
    requires Same(SignalsValue(a), SignalsValue(b))
    ensures a == b
  {
    hide Encode, Hex;
    assert Ascii("utility")[0] != Ascii("novelty")[0];
    var x, y := SignalsValue(a).entries, SignalsValue(b).entries;
    SameMembers(x, y);
    assert Same(x[0].value, y[0].value);
    SameInteger(a.utility, b.utility);
    assert Same(x[1].value, y[1].value);
    SameInteger(a.salience, b.salience);
    assert Same(x[2].value, y[2].value);
    SameInteger(a.novelty, b.novelty);
    assert Same(x[3].value, y[3].value);
    SameInteger(a.uncertainty, b.uncertainty);
  }

  lemma {:induction false} SameProvenance(a: Provenance, b: Provenance)
    requires Same(ProvenanceValue(a), ProvenanceValue(b))
    ensures a == b
  {
    hide Encode, Hex;
    var x, y := ProvenanceValue(a).entries, ProvenanceValue(b).entries;
    SameMembers(x, y);
    assert Same(x[0].value, y[0].value);
    SameText(a.producer, b.producer);
    assert Same(x[1].value, y[1].value);
    SameDigests(a.sourceEventDigests, b.sourceEventDigests);
    assert Same(x[2].value, y[2].value);
    SameDigest(a.policyDigest, b.policyDigest);
  }

  lemma {:induction false} SameScore(a: ConsolidationScore, b: ConsolidationScore)
    requires Same(ScoreValue(a), ScoreValue(b))
    ensures a == b
  {
    hide Encode, Hex;
    assert Ascii("support")[0] != Ascii("utility")[0];
    assert Ascii("support")[0] != Ascii("novelty")[0];
    assert Ascii("utility")[0] != Ascii("novelty")[0];
    assert Ascii("salience")[0] != Ascii("cohesion")[0];
    var x, y := ScoreValue(a).entries, ScoreValue(b).entries;
    SameMembers(x, y);
    assert Same(x[0].value, y[0].value);
    SameInteger(a.support, b.support);
    assert Same(x[1].value, y[1].value);
    SameInteger(a.diversity, b.diversity);
    assert Same(x[2].value, y[2].value);
    SameInteger(a.utility, b.utility);
    assert Same(x[3].value, y[3].value);
    SameInteger(a.salience, b.salience);
    assert Same(x[4].value, y[4].value);
    SameInteger(a.cohesion, b.cohesion);
    assert Same(x[5].value, y[5].value);
    SameInteger(a.novelty, b.novelty);
    assert Same(x[6].value, y[6].value);
    SameInteger(a.uncertainty, b.uncertainty);
    assert Same(x[7].value, y[7].value);
    SameInteger(a.total, b.total);
  }

  lemma {:induction false} SameReason(a: SealReason, b: SealReason)
    requires Same(SealReasonValue(a), SealReasonValue(b))
    ensures a == b
  {
    SameText(SealReasonValue(a).text, SealReasonValue(b).text);
    assert Ascii("handoff")[0] != Ascii("timeout")[0];
  }

  lemma {:induction false} SamePermission(a: RetentionPermission, b: RetentionPermission)
    requires Same(PermissionValue(a), PermissionValue(b))
    ensures a == b
  {
    SameText(PermissionValue(a).text, PermissionValue(b).text);
  }

  lemma {:induction false} SameKind(a: RelationKind, b: RelationKind)
    requires Same(KindValue(a), KindValue(b))
    ensures a == b
  {
    SameText(KindValue(a).text, KindValue(b).text);
  }

  lemma {:induction false} SameRelation(a: Relation, b: Relation)
    requires Same(RelationValue(a), RelationValue(b))
    ensures a == b
  {
    hide Encode, Hex;
    var x, y := RelationValue(a).entries, RelationValue(b).entries;
    SameMembers(x, y);
    assert Same(x[0].value, y[0].value);
    SameKind(a.kind, b.kind);
    assert Same(x[1].value, y[1].value);
    SameDigest(a.target, b.target);
  }

  lemma {:induction false} SameInline(a: Option<seq<byte>>, b: Option<seq<byte>>)
    requires Same(Optional(a, InlineValue), Optional(b, InlineValue))
    ensures a == b
  {
    hide Encode;
    SameOptional(a, b, InlineValue);
    if a.Some? {
      SameBytesList(a.value, b.value);
    }
  }

  lemma {:induction false} SameArtifact(a: ArtifactRef, b: ArtifactRef)
    requires Same(ArtifactValue(a), ArtifactValue(b))
    ensures a == b
  {
    hide Encode, Hex;
    assert Ascii("size_bytes")[0] != Ascii("media_type")[0];
    var x, y := ArtifactValue(a).entries, ArtifactValue(b).entries;
    SameMembers(x, y);
    assert Same(x[0].value, y[0].value);
    SameDigest(a.digest, b.digest);
    assert Same(x[1].value, y[1].value);
    SameInteger(a.sizeBytes, b.sizeBytes);
    assert Same(x[2].value, y[2].value);
    SameText(a.mediaType, b.mediaType);
    assert Same(x[3].value, y[3].value);
    SameBool(a.retentionAllowed, b.retentionAllowed);
    assert Same(x[4].value, y[4].value);
    SameInline(a.inlinePayload, b.inlinePayload);
  }

  // ---------- lists of records ----------

  lemma {:induction false} SameObservations(a: seq<Observation>, b: seq<Observation>)
    requires Same(ListOf(a, ObservationValue), ListOf(b, ObservationValue))
    ensures a == b
  {
    hide Encode, ObservationValue;
    SameList(a, b, ObservationValue);
    forall i | 0 <= i < |a| ensures a[i] == b[i] {
      SameObservation(a[i], b[i]);
    }
  }

  lemma {:induction false} SameInterpretations(a: seq<Interpretation>, b: seq<Interpretation>)
    requires Same(ListOf(a, InterpretationValue), ListOf(b, InterpretationValue))
    ensures a == b
  {
    hide Encode, InterpretationValue;
    SameList(a, b, InterpretationValue);
    forall i | 0 <= i < |a| ensures a[i] == b[i] {
      SameInterpretation(a[i], b[i]);
    }
  }

  lemma {:induction false} SameBeliefs(a: seq<Belief>, b: seq<Belief>)
    requires Same(ListOf(a, BeliefValue), ListOf(b, BeliefValue))
    ensures a == b
  {
    hide Encode, BeliefValue;
    SameList(a, b, BeliefValue);
    forall i | 0 <= i < |a| ensures a[i] == b[i] {
      SameBelief(a[i], b[i]);
    }
  }

  lemma {:induction false} SameDecisions(a: seq<DecisionRecord>, b: seq<DecisionRecord>)
    requires Same(ListOf(a, DecisionValue), ListOf(b, DecisionValue))
    ensures a == b
  {
    hide Encode, DecisionValue;
    SameList(a, b, DecisionValue);
    forall i | 0 <= i < |a| ensures a[i] == b[i] {
      SameDecision(a[i], b[i]);
    }
  }

  lemma {:induction false} SameAlternatives(a: seq<RejectedAlternative>, b: seq<RejectedAlternative>)
    requires Same(ListOf(a, AlternativeValue), ListOf(b, AlternativeValue))
    ensures a == b
  {
    hide Encode, AlternativeValue;
    SameList(a, b, AlternativeValue);
    forall i | 0 <= i < |a| ensures a[i] == b[i] {
      SameAlternative(a[i], b[i]);
    }
  }

  lemma {:induction false} SameActions(a: seq<ActionRecord>, b: seq<ActionRecord>)
    requires Same(ListOf(a, ActionValue), ListOf(b, ActionValue))
    ensures a == b
  {
    hide Encode, ActionValue;
    SameList(a, b, ActionValue);
    forall i | 0 <= i < |a| ensures a[i] == b[i] {
      SameAction(a[i], b[i]);
    }
  }

  lemma {:induction false} SameFeedbackList(a: seq<FeedbackSignal>, b: seq<FeedbackSignal>)
    requires Same(ListOf(a, FeedbackValue), ListOf(b, FeedbackValue))
    ensures a == b
  {
    hide Encode, FeedbackValue;
    SameList(a, b, FeedbackValue);
    forall i | 0 <= i < |a| ensures a[i] == b[i] {
      SameFeedback(a[i], b[i]);
    }
  }

  lemma {:induction false} SameRelations(a: seq<Relation>, b: seq<Relation>)
    requires Same(ListOf(a, RelationValue), ListOf(b, RelationValue))
    ensures a == b
  {
    hide Encode, RelationValue;
    SameList(a, b, RelationValue);
    forall i | 0 <= i < |a| ensures a[i] == b[i] {
      SameRelation(a[i], b[i]);
    }
  }

  lemma {:induction false} SameArtifacts(a: seq<ArtifactRef>, b: seq<ArtifactRef>)
    requires Same(ListOf(a, ArtifactValue), ListOf(b, ArtifactValue))
    ensures a == b
  {
    hide Encode, ArtifactValue;
    SameList(a, b, ArtifactValue);
    forall i | 0 <= i < |a| ensures a[i] == b[i] {
      SameArtifact(a[i], b[i]);
    }
  }

  lemma {:induction false} SameOptionalOutcome(a: Option<Outcome>, b: Option<Outcome>)
    requires Same(Optional(a, OutcomeValue), Optional(b, OutcomeValue))
    ensures a == b
  {
    hide Encode;
    SameOptional(a, b, OutcomeValue);
    if a.Some? {
      SameOutcome(a.value, b.value);
    }
  }

  // ---------- payloads ----------

  ghost predicate OrderedPayload(p: MemoryPayload) {
    p.Semantic? ==> InKeyOrder(p.sourceBodyDigests)
  }

  lemma {:induction false} SamePayloadKind(a: MemoryPayload, b: MemoryPayload)
    requires Same(PayloadValue(a), PayloadValue(b))
    ensures a.Semantic? == b.Semantic?
    ensures Same(PayloadValue(a).entries[1].value, PayloadValue(b).entries[1].value)
  {
    hide Encode, Hex, ScoreValue;
    assert Ascii("kind")[0] != Ascii("data")[0];
    var x, y := PayloadValue(a).entries, PayloadValue(b).entries;
    SameMembers(x, y);
    assert Same(x[0].value, y[0].value);
    SameText(PayloadValue(a).entries[0].value.text, PayloadValue(b).entries[0].value.text);
  }

  lemma {:induction false} SameSemantic(a: MemoryPayload, b: MemoryPayload)
    requires a.Semantic? && b.Semantic? && OrderedPayload(a) && OrderedPayload(b)
    requires Same(PayloadValue(a).entries[1].value, PayloadValue(b).entries[1].value)
    ensures a == b
  {
    hide Encode, Hex, ScoreValue;
    var x, y := PayloadValue(a).entries[1].value.entries, PayloadValue(b).entries[1].value.entries;
    assert Ascii("source_ids")[1] != Ascii("supersedes")[1];
    assert Ascii("source_body_digests")[0] != Ascii("consensus_numerator")[0];
    SameMembers(x, y);
    assert Same(x[0].value, y[0].value) && Same(x[1].value, y[1].value) && Same(x[2].value, y[2].value);
    assert Same(x[3].value, y[3].value) && Same(x[4].value, y[4].value) && Same(x[5].value, y[5].value);
    SameDigests(a.sourceIds, b.sourceIds);
    SameSourceDigests(a.sourceBodyDigests, b.sourceBodyDigests);
    SameScore(a.score, b.score);
    SameInteger(a.consensusNumerator, b.consensusNumerator);
    SameInteger(a.consensusDenominator, b.consensusDenominator);
    SameOptionalDigest(a.supersedes, b.supersedes);
  }

  lemma {:induction false} SameEpisode(a: MemoryPayload, b: MemoryPayload)
    requires a.Episode? && b.Episode?
    requires Same(PayloadValue(a).entries[1].value, PayloadValue(b).entries[1].value)
    ensures a == b
  {
    hide Encode, Hex;
    var x, y := PayloadValue(a).entries[1].value.entries, PayloadValue(b).entries[1].value.entries;
    SameMembers(x, y);
    assert Same(x[0].value, y[0].value) && Same(x[1].value, y[1].value) && Same(x[2].value, y[2].value);
    SameInteger(a.eventSequenceStart, b.eventSequenceStart);
    SameInteger(a.eventSequenceEnd, b.eventSequenceEnd);
    SameOptionalDigest(a.continues, b.continues);
  }

  lemma {:induction false} SamePayload(a: MemoryPayload, b: MemoryPayload)
    requires Same(PayloadValue(a), PayloadValue(b)) && OrderedPayload(a) && OrderedPayload(b)
    ensures a == b
  {
    SamePayloadKind(a, b);
    hide PayloadValue, Same;
    if a.Semantic? {
      SameSemantic(a, b);
    } else {
      SameEpisode(a, b);
    }
  }

  // ---------- the whole body ----------

  /** Length and first character tell the field names of a body apart. */
  function Code(key: Text): int {
    |key| * 256 + (if key == [] then 0 else key[0])
  }

  /** The position of a field of that code among the entries of a body. */
  function Place(code: int): nat {
    if code == 16 * 256 + 99 then 0
    else if code == 5 * 256 + 115 then 1
    else if code == 7 * 256 + 116 then 2
    else if code == 11 * 256 + 115 then 3
    else if code == 4 * 256 + 103 then 4
    else if code == 4 * 256 + 112 then 5
    else if code == 21 * 256 + 105 then 6
    else if code == 20 * 256 + 105 then 7
    else if code == 21 * 256 + 114 then 8
    else if code == 7 * 256 + 111 then 9
    else if code == 10 * 256 + 116 then 10
    else if code == 10 * 256 + 101 then 11
    else if code == 13 * 256 + 111 then 12
    else if code == 8 * 256 + 103 then 13
    else if code == 8 * 256 + 102 then 14
    else if code == 17 * 256 + 102 then 15
    else if code == 9 * 256 + 97 then 16
    else if code == 20 * 256 + 114 then 17
    else if code == 12 * 256 + 111 then 18
    else if code == 15 * 256 + 105 then 19
    else if code == 7 * 256 + 98 then 20
    else if code == 9 * 256 + 100 then 21
    else if code == 7 * 256 + 97 then 22
    else if code == 8 * 256 + 105 then 23
    else if code == 10 * 256 + 112 then 24
    else if code == 9 * 256 + 114 then 25
    else if code == 7 * 256 + 112 then 26
    else 27
  }

  ghost predicate PlacedFrom(entries: seq<Entry>, offset: nat) {
    forall i :: 0 <= i < |entries| ==> Place(Code(entries[i].key)) == offset + i
  }

  lemma {:induction false} PlacedConcat(a: seq<Entry>, b: seq<Entry>, offset: nat)
    requires PlacedFrom(a, offset) && PlacedFrom(b, offset + |a|)
    ensures PlacedFrom(a + b, offset)
  {
    hide Place, Code;
    forall i | 0 <= i < |a + b| ensures Place(Code((a + b)[i].key)) == offset + i {
      if i >= |a| {
        assert (a + b)[i] == b[i - |a|];
      }
    }
  }

  lemma {:induction false} HeadPlaces(b: MemoryAtomBody)
    ensures |HeadEntries(b)| == 5 && PlacedFrom(HeadEntries(b), 0)
  {
    hide ScopeValue, SealReasonValue, Optional, Ascii;
    var e := HeadEntries(b);
    CodeIs(e[0].key, "contract_version");
    CodeIs(e[1].key, "scope");
    CodeIs(e[2].key, "trigger");
    CodeIs(e[3].key, "seal_reason");
    CodeIs(e[4].key, "goal");
  }

  lemma {:induction false} StatePlaces(b: MemoryAtomBody)
    ensures |StateEntries(b)| == 5 && PlacedFrom(StateEntries(b), 5)
  {
    hide ListOf, TextMapValue, Optional, Ascii;
    var e := StateEntries(b);
    CodeIs(e[0].key, "plan");
    CodeIs(e[1].key, "internal_state_before");
    CodeIs(e[2].key, "internal_state_after");
    CodeIs(e[3].key, "rejected_alternatives");
    CodeIs(e[4].key, "outcome");
  }

  lemma {:induction false} KeyPlaces(b: MemoryAtomBody)
    ensures |KeyEntries(b)| == 4 && PlacedFrom(KeyEntries(b), 10)
  {
    hide ListOf, Optional, Ascii;
    var e := KeyEntries(b);
    CodeIs(e[0].key, "topic_keys");
    CodeIs(e[1].key, "entity_ids");
    CodeIs(e[2].key, "outcome_class");
    CodeIs(e[3].key, "goal_key");
  }

  lemma {:induction false} RetentionPlaces(b: MemoryAtomBody)
    ensures |RetentionEntries(b)| == 4 && PlacedFrom(RetentionEntries(b), 14)
  {
    hide ListOf, SignalsValue, PermissionValue, Ascii;
    var e := RetentionEntries(b);
    CodeIs(e[0].key, "feedback");
    CodeIs(e[1].key, "formation_signals");
    CodeIs(e[2].key, "artifacts");
    CodeIs(e[3].key, "retention_permission");
  }

  lemma {:induction false} RecordPlaces(b: MemoryAtomBody)
    ensures |RecordEntries(b)| == 5 && PlacedFrom(RecordEntries(b), 18)
  {
    hide ListOf, Ascii;
    var e := RecordEntries(b);
    CodeIs(e[0].key, "observations");
    CodeIs(e[1].key, "interpretations");
    CodeIs(e[2].key, "beliefs");
    CodeIs(e[3].key, "decisions");
    CodeIs(e[4].key, "actions");
  }

  lemma {:induction false} ClosurePlaces(b: MemoryAtomBody)
    ensures |ClosureEntries(b)| == 4 && PlacedFrom(ClosureEntries(b), 23)
  {
    hide IntervalValue, ProvenanceValue, ListOf, PayloadValue, Ascii;
    var e := ClosureEntries(b);
    CodeIs(e[0].key, "interval");
    CodeIs(e[1].key, "provenance");
    CodeIs(e[2].key, "relations");
    CodeIs(e[3].key, "payload");
  }

  lemma {:induction false} CodeIs(key: Text, name: string)
    requires name != [] && key == Ascii(name)
    ensures Code(key) == |name| * 256 + name[0] as int % 256
  {
  }

  lemma {:induction false} BodyPlaces(b: MemoryAtomBody)
    ensures |FixedEntries(b)| == 18 && |RangeEntries(b)| == 9
    ensures PlacedFrom(FixedEntries(b) + RangeEntries(b), 0)
  {
    hide PlacedFrom, HeadEntries, StateEntries, KeyEntries, RetentionEntries, RecordEntries, ClosureEntries;
    HeadPlaces(b);
    StatePlaces(b);
    KeyPlaces(b);
    RetentionPlaces(b);
    RecordPlaces(b);
    ClosurePlaces(b);
    PlacedConcat(HeadEntries(b), StateEntries(b), 0);
    PlacedConcat(HeadEntries(b) + StateEntries(b), KeyEntries(b), 0);
    PlacedConcat(HeadEntries(b) + StateEntries(b) + KeyEntries(b), RetentionEntries(b), 0);
    PlacedConcat(RecordEntries(b), ClosureEntries(b), 18);
    PlacedConcat(FixedEntries(b), RangeEntries(b), 0);
  }

  ghost predicate Agree(a: seq<Entry>, b: seq<Entry>) {
    |a| == |b| && forall i :: 0 <= i < |a| ==> Same(a[i].value, b[i].value)
  }

  lemma {:induction false} AgreeSplit(a: seq<Entry>, b: seq<Entry>, c: seq<Entry>, d: seq<Entry>)
    requires |a| == |c| && Agree(a + b, c + d)
    ensures Agree(a, c) && Agree(b, d)
  {
    hide Same;
    forall i | 0 <= i < |a| ensures Same(a[i].value, c[i].value) {
      assert (a + b)[i] == a[i] && (c + d)[i] == c[i];
    }
    forall i | 0 <= i < |b| ensures Same(b[i].value, d[i].value) {
      assert (a + b)[|a| + i] == b[i] && (c + d)[|a| + i] == d[i];
    }
  }

  lemma {:induction false} SameHead(a: MemoryAtomBody, b: MemoryAtomBody)
    requires Agree(HeadEntries(a), HeadEntries(b))
    ensures a.contractVersion == b.contractVersion && a.scope == b.scope && a.trigger == b.trigger
    ensures a.sealReason == b.sealReason && a.goal == b.goal
  {
    hide Same, ScopeValue, SealReasonValue, Optional, Ascii;
    var x, y := HeadEntries(a), HeadEntries(b);
    assert Same(x[0].value, y[0].value) && Same(x[1].value, y[1].value) && Same(x[2].value, y[2].value);
    assert Same(x[3].value, y[3].value) && Same(x[4].value, y[4].value);
    SameText(a.contractVersion, b.contractVersion);
    SameScope(a.scope, b.scope);
    SameText(a.trigger, b.trigger);
    SameReason(a.sealReason, b.sealReason);
    SameOptionalText(a.goal, b.goal);
  }

  lemma {:induction false} SameState(a: MemoryAtomBody, b: MemoryAtomBody)
    requires Agree(StateEntries(a), StateEntries(b))
    ensures a.plan == b.plan && a.internalStateBefore == b.internalStateBefore
    ensures a.internalStateAfter == b.internalStateAfter
    ensures a.rejectedAlternatives == b.rejectedAlternatives && a.outcome == b.outcome
  {
    hide Same, ListOf, TextMapValue, Optional, Ascii;
    var x, y := StateEntries(a), StateEntries(b);
    assert Same(x[0].value, y[0].value) && Same(x[1].value, y[1].value) && Same(x[2].value, y[2].value);
    assert Same(x[3].value, y[3].value) && Same(x[4].value, y[4].value);
    SameTexts(a.plan, b.plan);
    SameTextMaps(a.internalStateBefore, b.internalStateBefore);
    SameTextMaps(a.internalStateAfter, b.internalStateAfter);
    SameAlternatives(a.rejectedAlternatives, b.rejectedAlternatives);
    SameOptionalOutcome(a.outcome, b.outcome);
  }

  lemma {:induction false} SameKeys(a: MemoryAtomBody, b: MemoryAtomBody)
    requires Agree(KeyEntries(a), KeyEntries(b))
    ensures a.topicKeys == b.topicKeys && a.entityIds == b.entityIds
    ensures a.outcomeClass == b.outcomeClass && a.goalKey == b.goalKey
  {
    hide Same, ListOf, Optional, Ascii;
    var x, y := KeyEntries(a), KeyEntries(b);
    assert Same(x[0].value, y[0].value) && Same(x[1].value, y[1].value);
    assert Same(x[2].value, y[2].value) && Same(x[3].value, y[3].value);
    SameTexts(a.topicKeys, b.topicKeys);
    SameTexts(a.entityIds, b.entityIds);
    SameOptionalText(a.outcomeClass, b.outcomeClass);
    SameOptionalText(a.goalKey, b.goalKey);
  }

  lemma {:induction false} SameRetention(a: MemoryAtomBody, b: MemoryAtomBody)
    requires Agree(RetentionEntries(a), RetentionEntries(b))
    ensures a.feedback == b.feedback && a.formationSignals == b.formationSignals
    ensures a.artifacts == b.artifacts && a.retentionPermission == b.retentionPermission
  {
    hide Same, ListOf, SignalsValue, PermissionValue, Ascii;
    var x, y := RetentionEntries(a), RetentionEntries(b);
    assert Same(x[0].value, y[0].value) && Same(x[1].value, y[1].value);
    assert Same(x[2].value, y[2].value) && Same(x[3].value, y[3].value);
    SameFeedbackList(a.feedback, b.feedback);
    SameSignals(a.formationSignals, b.formationSignals);
    SameArtifacts(a.artifacts, b.artifacts);
    SamePermission(a.retentionPermission, b.retentionPermission);
  }

  lemma {:induction false} SameRecords(a: MemoryAtomBody, b: MemoryAtomBody)
    requires Agree(RecordEntries(a), RecordEntries(b))
    ensures a.observations == b.observations && a.interpretations == b.interpretations
    ensures a.beliefs == b.beliefs && a.decisions == b.decisions && a.actions == b.actions
  {
    hide Same, ListOf, Ascii;
    var x, y := RecordEntries(a), RecordEntries(b);
    assert Same(x[0].value, y[0].value) && Same(x[1].value, y[1].value) && Same(x[2].value, y[2].value);
    assert Same(x[3].value, y[3].value) && Same(x[4].value, y[4].value);
    SameObservations(a.observations, b.observations);
    SameInterpretations(a.interpretations, b.interpretations);
    SameBeliefs(a.beliefs, b.beliefs);
    SameDecisions(a.decisions, b.decisions);
    SameActions(a.actions, b.actions);
  }

  lemma {:induction false} SameClosure(a: MemoryAtomBody, b: MemoryAtomBody)
    requires Agree(ClosureEntries(a), ClosureEntries(b))
    requires OrderedPayload(a.payload) && OrderedPayload(b.payload)
    ensures a.interval == b.interval && a.provenance == b.provenance
    ensures a.relations == b.relations && a.payload == b.payload
  {
    hide Same, IntervalValue, ProvenanceValue, ListOf, PayloadValue, Ascii;
    var x, y := ClosureEntries(a), ClosureEntries(b);
    assert Same(x[0].value, y[0].value) && Same(x[1].value, y[1].value);
    assert Same(x[2].value, y[2].value) && Same(x[3].value, y[3].value);
    SameInterval(a.interval, b.interval);
    SameProvenance(a.provenance, b.provenance);
    SameRelations(a.relations, b.relations);
    SamePayload(a.payload, b.payload);
  }

  /** Object members in the same places agree. */
  lemma {:induction false} PlacedMembers(a: seq<Entry>, b: seq<Entry>)
    requires Same(Object(a), Object(b)) && |a| == |b| && PlacedFrom(a, 0) && PlacedFrom(b, 0)
    ensures Agree(a, b)
  {
    hide Encode, Place, Code;
    forall i | 0 <= i < |a| ensures Same(a[i].value, b[i].value) {
      forall j | 0 <= j < |b| && b[j].key == a[i].key ensures j == i {
        assert Place(Code(a[i].key)) == 0 + i && Place(Code(b[j].key)) == 0 + j;
      }
      OnlyMember(a, b, i, i);
    }
  }

  lemma {:induction false} EntriesAgree(a: MemoryAtomBody, b: MemoryAtomBody)
    requires Same(BodyValue(a), BodyValue(b))
    ensures Agree(HeadEntries(a), HeadEntries(b)) && Agree(StateEntries(a), StateEntries(b))
    ensures Agree(KeyEntries(a), KeyEntries(b)) && Agree(RetentionEntries(a), RetentionEntries(b))
    ensures Agree(RecordEntries(a), RecordEntries(b)) && Agree(ClosureEntries(a), ClosureEntries(b))
  {
    var x, y := FixedEntries(a) + RangeEntries(a), FixedEntries(b) + RangeEntries(b);
    BodyPlaces(a);
    BodyPlaces(b);
    hide Same, PlacedFrom;
    PlacedMembers(x, y);
    HeadPlaces(a); HeadPlaces(b);
    StatePlaces(a); StatePlaces(b);
    KeyPlaces(a); KeyPlaces(b);
    RecordPlaces(a); RecordPlaces(b);
    hide HeadEntries, StateEntries, KeyEntries, RetentionEntries, RecordEntries, ClosureEntries;
    AgreeSplit(FixedEntries(a), RangeEntries(a), FixedEntries(b), RangeEntries(b));
    AgreeSplit(RecordEntries(a), ClosureEntries(a), RecordEntries(b), ClosureEntries(b));
    var ha, hb := HeadEntries(a) + StateEntries(a), HeadEntries(b) + StateEntries(b);
    AgreeSplit(ha + KeyEntries(a), RetentionEntries(a), hb + KeyEntries(b), RetentionEntries(b));
    AgreeSplit(ha, KeyEntries(a), hb, KeyEntries(b));
    AgreeSplit(HeadEntries(a), StateEntries(a), HeadEntries(b), StateEntries(b));
  }

  /** These are the canonical bytes of that body, its maps in key order. */
  ghost predicate AreBytesOf(bytes: seq<byte>, body: MemoryAtomBody) {
    AtomBytes(body) == Ok(bytes) && OrderedPayload(body.payload)
  }

  /** Canonical bytes identify a body: every field of it can be recovered from them. */
  lemma {:induction false} BytesDetermineBody(bytes: seq<byte>, a: MemoryAtomBody, b: MemoryAtomBody)
    requires AreBytesOf(bytes, a) && AreBytesOf(bytes, b)
    ensures a == b
  {
    hide Encode, HeadEntries, StateEntries, KeyEntries, RetentionEntries, RecordEntries, ClosureEntries;
    assert Same(BodyValue(a), BodyValue(b));
    EntriesAgree(a, b);
    hide Agree;
    SameHead(a, b);
    SameState(a, b);
    SameKeys(a, b);
    SameRetention(a, b);
    SameRecords(a, b);
    SameClosure(a, b);
  }

  /** Where the hash separates the two encodings, atoms at one address have one body. */
  lemma {:induction false} AddressDeterminesBody(a: MemoryAtomBody, b: MemoryAtomBody, hash: Hash)
    requires AtomIdOf(a, hash).Ok? && AtomIdOf(a, hash) == AtomIdOf(b, hash)
    requires OrderedPayload(a.payload) && OrderedPayload(b.payload)
    requires CollisionFree(hash, ATOM_HASH_DOMAIN, {AtomBytes(a).value, AtomBytes(b).value})
    ensures a == b
  {
    hide AtomBytes, OrderedPayload;
    BytesDetermineBody(AtomBytes(a).value, a, b);
  }
}
