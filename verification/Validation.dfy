/** Complete validation of an immutable atom body against the committed policy, and the
    content address and sizes derived from its canonical bytes. */
module Validation {
  import opened Wrappers
  import opened Numbers
  import opened Sequences
  import opened Digests
  import opened Canonical
  import opened CanonicalSize
  import opened Model
  import opened ModelValues

  const ATOM_HASH_DOMAIN: Text := Ascii("naome-memory:atom:v1\0")

  /** The hash in use, and the digest of the one accepted policy. */
  datatype Authority = Authority(hash: Hash, policyDigest: Digest)

  function ValidatePolicy(policy: Policy): Result<()> {
    Need(policy == POC_V1, PolicyMismatch)
  }

  // ---------- addresses and sizes ----------

  function AtomBytes(body: MemoryAtomBody): Result<seq<byte>> {
    Encode(BodyValue(body)).OkOr(CanonicalEncoding)
  }

  function AtomIdOf(body: MemoryAtomBody, hash: Hash): Result<AtomId> {
    var bytes :- AtomBytes(body);
    Ok(hash(ATOM_HASH_DOMAIN, bytes))
  }

  function EncodedSizeBytes(body: MemoryAtomBody): Result<u64> {
    EncodedSize(BodyValue(body))
  }

  /** Total size of the artifacts that may be retained, or an overflow. */
  function RetainedBytes(artifacts: seq<ArtifactRef>): Result<u64> {
    if artifacts == [] then Ok(0)
    else
      var last := artifacts[|artifacts| - 1];
      var sum :- RetainedBytes(artifacts[..|artifacts| - 1]);
      if last.retentionAllowed then CheckedAdd(sum, last.sizeBytes).OkOr(CanonicalEncoding) else Ok(sum)
  }

  function ExactPackageBytes(body: MemoryAtomBody): Result<u64> {
    var artifactBytes :- RetainedBytes(body.artifacts);
    var bodyBytes :- EncodedSizeBytes(body);
    CheckedAdd(bodyBytes, artifactBytes).OkOr(CanonicalEncoding)
  }

  function RetainedDigest(artifact: ArtifactRef): Option<Digest> {
    if artifact.retentionAllowed then Some(artifact.digest) else None
  }

  function RetainedArtifactDigests(body: MemoryAtomBody): seq<Digest> {
    SortDedup(FilterMap(RetainedDigest, body.artifacts))
  }

  // ---------- parts ----------

  function ValidateScope(scope: MemoryScope): Result<()> {
    var _ :- Need(scope.memorySpaceId != [], EmptyField);
    var _ :- Need(scope.sessionId != [], EmptyField);
    var _ :- Need(scope.repositoryId != Some([]), EmptyField);
    var _ :- Need(scope.taskId != Some([]), EmptyField);
    var _ :- Need(scope.agentId != Some([]), EmptyField);
    Ok(())
  }

  function ValidateArtifact(artifact: ArtifactRef, policy: Policy, hash: Hash): Result<()> {
    var _ :- Need(artifact.mediaType != [], EmptyField);
    var _ :- Need(artifact.sizeBytes <= policy.artifactMaxBytes, ArtifactTooLarge);
    match artifact.inlinePayload
    case None => Ok(())
    case Some(inline) =>
      var _ :- Need(|inline| < TWO64, CanonicalEncoding);
      var _ :- Need(|inline| <= policy.inlinePayloadMaxBytes, InlinePayloadTooLarge);
      var _ :- Need(|inline| == artifact.sizeBytes && hash([], inline) == artifact.digest, ArtifactDigestMismatch);
      Ok(())
  }

  /** The artifacts in order, against the digests already seen. */
  function ValidateArtifacts(artifacts: seq<ArtifactRef>, seen: set<Digest>, policy: Policy, hash: Hash): Result<()> {
    if artifacts == [] then Ok(())
    else
      var _ :- Need(artifacts[0].digest !in seen, InvalidAtomBody);
      var _ :- ValidateArtifact(artifacts[0], policy, hash);
      ValidateArtifacts(artifacts[1..], seen + {artifacts[0].digest}, policy, hash)
  }

  /** The loop that grows the set of seen digests. */
  method CheckArtifacts(artifacts: seq<ArtifactRef>, policy: Policy, hash: Hash) returns (r: Result<()>)
    ensures r == ValidateArtifacts(artifacts, {}, policy, hash)
  {
    var digests: set<Digest> := {};
    assert artifacts[0..] == artifacts;
    for i := 0 to |artifacts|
      invariant ValidateArtifacts(artifacts, {}, policy, hash) ==
        ValidateArtifacts(artifacts[i..], digests, policy, hash)
    {
      assert artifacts[i..][1..] == artifacts[i + 1..];
      if artifacts[i].digest in digests {
        return Err(InvalidAtomBody);
      }
      var one := ValidateArtifact(artifacts[i], policy, hash);
      if one.Err? {
        return one;
      }
      digests := digests + {artifacts[i].digest};
    }
    r := Ok(());
  }

  /** Artifacts pass exactly when their digests are new and distinct and each passes by itself. */
  lemma {:induction false} ArtifactsPassIff(artifacts: seq<ArtifactRef>, seen: set<Digest>, policy: Policy, hash: Hash)
    ensures ValidateArtifacts(artifacts, seen, policy, hash).Ok? <==>
      && (forall i :: 0 <= i < |artifacts| ==> artifacts[i].digest !in seen)
      && (forall i, j :: 0 <= i < j < |artifacts| ==> artifacts[i].digest != artifacts[j].digest)
      && (forall i :: 0 <= i < |artifacts| ==> ValidateArtifact(artifacts[i], policy, hash).Ok?)
  {
    if artifacts != [] {
      var seen' := seen + {artifacts[0].digest};
      ArtifactsPassIff(artifacts[1..], seen', policy, hash);
      assert forall i :: 1 <= i < |artifacts| ==> artifacts[i] == artifacts[1..][i - 1];
    }
  }

  function ContinuesTarget(r: Relation): Option<AtomId> {
    if r.kind == Continues then Some(r.target) else None
  }

  function DerivedTarget(r: Relation): Option<AtomId> {
    if r.kind == DerivedFrom then Some(r.target) else None
  }

  function SupersedesTarget(r: Relation): Option<AtomId> {
    if r.kind == Supersedes then Some(r.target) else None
  }

  function Singleton<T>(value: Option<T>): seq<T> {
    if value.Some? then [value.value] else []
  }

  function ArtifactDigestOf(o: Observation): Option<Digest> {
    o.artifactDigest
  }

  function ValidateEpisodeBody(body: MemoryAtomBody): Result<()>
    requires body.payload.Episode?
  {
    var payload := body.payload;
    var digests := body.provenance.sourceEventDigests;
    var _ :- Need(payload.eventSequenceStart <= payload.eventSequenceEnd, InvalidAtomBody);
    var eventCount := payload.eventSequenceEnd - payload.eventSequenceStart + 1;
    var _ :- Need(eventCount < TWO64, InvalidAtomBody);
    var _ :- Need(|digests| == eventCount, InvalidAtomBody);
    var _ :- Need(Distinct(digests), InvalidAtomBody);
    var _ :- Need(body.observations != [] || body.decisions != [] || body.actions != []
              || body.outcome.Some? || body.feedback != [], InsufficientEpisodeContent);
    var _ :- Need(FilterMap(ContinuesTarget, body.relations) == Singleton(payload.continues), InvalidAtomBody);
    Ok(())
  }

  function LookupSource(digests: seq<SourceDigest>, source: AtomId): Option<Digest> {
    if digests == [] then None
    else if digests[0].source == source then Some(digests[0].digest)
    else LookupSource(digests[1..], source)
  }

  function ValidateSemanticBody(body: MemoryAtomBody, policy: Policy): Result<()>
    requires body.payload.Semantic?
  {
    var payload := body.payload;
    var derived := FilterMap(DerivedTarget, body.relations);
    var superseded := FilterMap(SupersedesTarget, body.relations);
    var _ :- Need(body.retentionPermission == SemanticAllowed, InvalidAtomBody);
    var _ :- Need(body.observations == [] && body.interpretations == [] && body.beliefs == [] && body.decisions == []
              && body.rejectedAlternatives == [] && body.actions == [] && body.outcome.None?
              && body.feedback == [] && body.artifacts == [], InvalidAtomBody);
    var _ :- Need(|payload.sourceIds| >= policy.minSemanticSources, InvalidAtomBody);
    var _ :- Need(forall i :: 0 <= i < |payload.sourceIds| - 1 ==> payload.sourceIds[i] < payload.sourceIds[i + 1],
            InvalidAtomBody);
    var _ :- Need(|payload.sourceBodyDigests| == |payload.sourceIds|
              && forall source :: source in payload.sourceIds ==>
                   LookupSource(payload.sourceBodyDigests, source) == Some(source), InvalidAtomBody);
    var _ :- Need(body.provenance.sourceEventDigests == payload.sourceIds, InvalidAtomBody);
    var _ :- Need(payload.consensusNumerator == policy.consensusNumerator
              && payload.consensusDenominator == policy.consensusDenominator, InvalidAtomBody);
    var _ :- Need(derived == payload.sourceIds, InvalidAtomBody);
    var _ :- Need(superseded == Singleton(payload.supersedes)
              && |body.relations| == |derived| + |superseded|, InvalidAtomBody);
    Ok(())
  }

  // ---------- the whole body ----------

  /** Every rule except the two byte limits at the end. */
  function ValidateStructure(body: MemoryAtomBody, policy: Policy, authority: Authority): Result<()> {
    var _ :- Need(body.contractVersion == Ascii("atom-v1"), UnknownVersion);
    var _ :- ValidateScope(body.scope);
    var _ :- Need(body.trigger != [], EmptyField);
    var _ :- Need(body.provenance.producer != [], EmptyField);
    var _ :- Need(body.provenance.policyDigest == authority.policyDigest, PolicyMismatch);
    var _ :- Need(body.interval.startedAtUs <= body.interval.endedAtUs <= body.interval.recordedAtUs,
      InvalidTimeInterval);
    var _ :- Need(forall o :: o in body.observations ==>
              body.interval.startedAtUs <= o.atUs <= body.interval.endedAtUs, InvalidAtomBody);
    var _ :- Need(forall o :: o in body.observations ==> o.source != [] && o.content != [], InvalidAtomBody);
    var _ :- Need(body.outcome.Some? && body.outcomeClass.Some? ==>
              body.outcome.value.class_ == body.outcomeClass.value, InvalidAtomBody);
    var _ :- ValidateArtifacts(body.artifacts, {}, policy, authority.hash);
    var _ :- Need(forall d :: d in FilterMap(ArtifactDigestOf, body.observations) ==>
              exists a :: a in body.artifacts && a.digest == d, UndeclaredArtifactReference);
    var _ :- Need(Distinct(body.relations), InvalidAtomBody);
    match body.payload
    case Episode(_, _, _) => ValidateEpisodeBody(body)
    case Semantic(_, _, _, _, _, _) => ValidateSemanticBody(body, policy)
  }

  function ValidateMemoryAtomBody(body: MemoryAtomBody, policy: Policy, authority: Authority): Result<()> {
    var _ :- ValidatePolicy(policy);
    var _ :- ValidateStructure(body, policy, authority);
    var size :- EncodedSizeBytes(body);
    var _ :- Need(size <= policy.atomHardMaxBytes, AtomTooLarge(size));
    if body.retentionPermission == SemanticAndExactAllowed then
      var _ :- Need(forall a :: a in body.artifacts ==> a.inlinePayload.None? || a.retentionAllowed, InvalidAtomBody);
      var package :- ExactPackageBytes(body);
      var _ :- Need(package <= policy.exactPackageMaxBytes, ExactPackageTooLarge);
      Ok(())
    else
      Ok(())
  }

  // ---------- what a valid body provides ----------

  /** A valid body has an address, and its size is the modelled one, within the hard limit. */
  lemma {:induction false} ValidBodyIsAddressed(body: MemoryAtomBody, policy: Policy, authority: Authority)
    requires ValidateMemoryAtomBody(body, policy, authority).Ok?
    ensures AtomBytes(body).Ok? && AtomIdOf(body, authority.hash).Ok?
    ensures EncodedSizeBytes(body) == Ok(Size(BodyValue(body)))
    ensures 0 < Size(BodyValue(body)) <= policy.atomHardMaxBytes
  {
    BodyRepresentable(body);
    EncodedSizeIsModel(BodyValue(body));
    SmallValuesEncode(BodyValue(body));
  }

  lemma {:induction false} ValidSourcesIncrease(body: MemoryAtomBody, policy: Policy, authority: Authority)
    requires ValidateMemoryAtomBody(body, policy, authority).Ok? && body.payload.Semantic?
    ensures |body.payload.sourceIds| >= policy.minSemanticSources
    ensures StrictlyIncreasing(body.payload.sourceIds)
  {
    assert ValidateStructure(body, policy, authority).Ok?;
    StructureCoversPayload(body, policy, authority);
    SemanticSourcesIncrease(body, policy);
  }

  lemma {:induction false} StructureCoversPayload(body: MemoryAtomBody, policy: Policy, authority: Authority)
    requires ValidateStructure(body, policy, authority).Ok?
    ensures body.payload.Semantic? ==> ValidateSemanticBody(body, policy).Ok?
    ensures body.payload.Episode? ==> ValidateEpisodeBody(body).Ok?
  {
  }

  lemma {:induction false} SemanticSourcesIncrease(body: MemoryAtomBody, policy: Policy)
    requires body.payload.Semantic? && ValidateSemanticBody(body, policy).Ok?
    ensures |body.payload.sourceIds| >= policy.minSemanticSources
    ensures StrictlyIncreasing(body.payload.sourceIds)
  {
    AdjacentIncrease(body.payload.sourceIds);
  }

  lemma {:induction false} AdjacentIncrease(s: seq<int>)
    requires forall i :: 0 <= i < |s| - 1 ==> s[i] < s[i + 1]
    ensures StrictlyIncreasing(s)
  {
    if s != [] {
      var n := |s| - 1;
      AdjacentIncrease(s[..n]);
      if n > 0 {
        assert s[n - 1] < s[n - 1 + 1];
        assert forall i :: 0 <= i < n ==> s[..n][i] == s[i];
      }
    }
  }
}
