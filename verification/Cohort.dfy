/** Admission of a retirement cohort: the snapshot checks and the complete validation of every
    candidate, in address order. */
module Cohort {
  import opened Wrappers
  import opened Numbers
  import opened Sequences
  import opened Digests
  import opened Model
  import opened Validation
  import opened Consolidation
  import opened Plans

  // ---------- up-front checks ----------

  function CheckSnapshot(snapshot: RetirementSnapshot, policy: Policy): Result<()> {
    var _ :- Need(snapshot.contractVersion == Ascii("retirement-snapshot-v1"), UnknownVersion);
    var _ :- Need(snapshot.memorySpaceId != [], EmptyField);
    var _ :- Need(|snapshot.atoms| <= policy.maxCohortAtoms, CohortTooLarge);
    var _ :- Need(snapshot.atoms != [], EmptyRetirementCohort);
    var _ :- Need((snapshot.cohortDay + 1) * DAY_US < TWO64, InvalidAtomBody);
    var _ :- Need(snapshot.asOfUs >= (snapshot.cohortDay + 1) * DAY_US, RetirementCohortNotClosed);
    Ok(())
  }

  predicate CandidateLeq(a: RetirementCandidate, b: RetirementCandidate) {
    a.atomId <= b.atomId
  }

  function Ordered(atoms: seq<RetirementCandidate>): seq<RetirementCandidate> {
    SortBy(CandidateLeq, atoms)
  }

  /** Exact package size and address from one encoding of the body. */
  function CheckAddress(candidate: RetirementCandidate, body: MemoryAtomBody, hash: Hash): Result<()> {
    var bytes :- AtomBytes(body);
    var _ :- Need(|bytes| < TWO64, CanonicalEncoding);
    var artifactBytes :- RetainedBytes(body.artifacts);
    var package :- CheckedAdd(|bytes|, artifactBytes).OkOr(CanonicalEncoding);
    Need(package == candidate.exactPackageBytes && hash(ATOM_HASH_DOMAIN, bytes) == candidate.atomId,
         AtomDigestMismatch(candidate.atomId))
  }

  function CheckBody(candidate: RetirementCandidate, body: MemoryAtomBody, expires: u64,
      snapshot: RetirementSnapshot, policy: Policy, authority: Authority): Result<()>
  {
    var _ :- ValidateMemoryAtomBody(body, policy, authority);
    var expected :- CheckedAdd(body.interval.recordedAtUs, policy.stmHorizonUs)
      .OkOr(InvalidRetirementCandidate(candidate.atomId));
    var _ :- Need(expires == expected, InvalidRetirementCandidate(candidate.atomId));
    var _ :- Need(body.payload.Episode?, InvalidRetirementCandidate(candidate.atomId));
    var _ :- Need(body.scope.memorySpaceId == snapshot.memorySpaceId, MemorySpaceMismatch);
    CheckAddress(candidate, body, authority.hash)
  }

  function CheckCandidate(candidate: RetirementCandidate, snapshot: RetirementSnapshot, policy: Policy,
      authority: Authority): Result<()>
  {
    var invalid := InvalidRetirementCandidate(candidate.atomId);
    var _ :- Need(candidate.state.retentionTier == ShortTerm && candidate.state.contentStatus == Present
              && candidate.state.retirementRunId.None? && candidate.state.supersededBy.None?, invalid);
    var expires :- candidate.state.expiresAtUs.OkOr(invalid);
    var _ :- Need(expires / DAY_US == snapshot.cohortDay, invalid);
    var _ :- Need(candidate.integrity == Complete, invalid);
    var _ :- Need(candidate.bodyDigest == candidate.atomId, AtomDigestMismatch(candidate.atomId));
    var body :- candidate.body.OkOr(AtomDigestMismatch(candidate.atomId));
    CheckBody(candidate, body, expires, snapshot, policy, authority)
  }

  /** The candidates in order, each different from its predecessor. */
  function CheckCandidates(candidates: seq<RetirementCandidate>, previous: Option<AtomId>,
      snapshot: RetirementSnapshot, policy: Policy, authority: Authority): Result<()>
  {
    if candidates == [] then Ok(())
    else
      var _ :- Need(previous != Some(candidates[0].atomId), DuplicateAtom(candidates[0].atomId));
      var _ :- CheckCandidate(candidates[0], snapshot, policy, authority);
      CheckCandidates(candidates[1..], Some(candidates[0].atomId), snapshot, policy, authority)
  }

  method ValidateCandidates(candidates: seq<RetirementCandidate>, snapshot: RetirementSnapshot, policy: Policy,
      authority: Authority) returns (r: Result<()>)
    ensures r == CheckCandidates(candidates, None, snapshot, policy, authority)
  {
    hide CheckCandidate;
    var previous: Option<AtomId> := None;
    for i := 0 to |candidates|
      invariant CheckCandidates(candidates, None, snapshot, policy, authority) ==
        CheckCandidates(candidates[i..], previous, snapshot, policy, authority)
    {
      assert candidates[i..][1..] == candidates[i + 1..];
      if previous == Some(candidates[i].atomId) {
        return Err(DuplicateAtom(candidates[i].atomId));
      }
      previous := Some(candidates[i].atomId);
      var one := CheckCandidate(candidates[i], snapshot, policy, authority);
      if one.Err? {
        return one;
      }
    }
    r := Ok(());
  }

  /** The snapshot without its atoms, which is all that later steps look at. */
  function Header(snapshot: RetirementSnapshot): RetirementSnapshot {
    snapshot.(atoms := [])
  }

  /** The up-front checks. */
  function Admit(snapshot: RetirementSnapshot, policy: Policy, env: Environment): Result<()> {
    var _ :- ValidatePolicy(policy);
    var _ :- CheckSnapshot(snapshot, policy);
    CheckCandidates(Ordered(snapshot.atoms), None, Header(snapshot), policy, env.authority)
  }

  lemma {:induction false} AdmittedIsSmall(snapshot: RetirementSnapshot, policy: Policy, env: Environment)
    requires Admit(snapshot, policy, env).Ok?
    ensures policy == POC_V1 && 0 < |Ordered(snapshot.atoms)| <= 100_000
  {
    hide CheckCandidates;
  }

  lemma {:induction false} CheckedAreOrdered(candidates: seq<RetirementCandidate>, previous: Option<AtomId>,
      snapshot: RetirementSnapshot, policy: Policy, authority: Authority)
    requires CheckCandidates(candidates, previous, snapshot, policy, authority).Ok?
    requires Sorted(CandidateLeq, candidates)
    requires previous.Some? ==> forall c :: c in candidates ==> previous.value <= c.atomId
    ensures forall i, j :: 0 <= i < j < |candidates| ==> candidates[i].atomId < candidates[j].atomId
    ensures previous.Some? ==> forall c :: c in candidates ==> previous.value < c.atomId
    ensures forall c :: c in candidates ==> CheckCandidate(c, snapshot, policy, authority).Ok?
  {
    hide CheckCandidate;
    if candidates != [] {
      var head := candidates[0];
      assert candidates == [head] + candidates[1..];
      forall c | c in candidates[1..] ensures head.atomId <= c.atomId {
        var j :| 0 <= j < |candidates[1..]| && candidates[1..][j] == c;
        assert candidates[j + 1] == c && CandidateLeq(candidates[0], candidates[j + 1]);
      }
      forall i, j | 0 <= i < j < |candidates[1..]| ensures CandidateLeq(candidates[1..][i], candidates[1..][j]) {
        assert CandidateLeq(candidates[i + 1], candidates[j + 1]);
      }
      CheckedAreOrdered(candidates[1..], Some(head.atomId), snapshot, policy, authority);
      forall j | 1 <= j < |candidates| ensures head.atomId < candidates[j].atomId {
        assert candidates[j] in candidates[1..];
      }
      forall i, j | 0 <= i < j < |candidates| ensures candidates[i].atomId < candidates[j].atomId {
        if i > 0 {
          assert candidates[i] == candidates[1..][i - 1] && candidates[j] == candidates[1..][j - 1];
        }
      }
    }
  }

  /** Admitted candidates are in strict address order, and each passes by itself. */
  lemma {:induction false} AdmittedAreOrdered(snapshot: RetirementSnapshot, policy: Policy, env: Environment)
    requires Admit(snapshot, policy, env).Ok?
    ensures var cs := Ordered(snapshot.atoms);
      && (forall i, j :: 0 <= i < j < |cs| ==> cs[i].atomId < cs[j].atomId)
      && (forall c :: c in cs ==> CheckCandidate(c, Header(snapshot), policy, env.authority).Ok?)
  {
    hide CheckCandidate;
    SortSorts(CandidateLeq, snapshot.atoms);
    CheckedAreOrdered(Ordered(snapshot.atoms), None, Header(snapshot), policy, env.authority);
  }

  // ---------- who may be consolidated, and who may be kept exactly ----------

  predicate Consolidates(permission: RetentionPermission) {
    permission != TransientOnly
  }

  predicate KeepsExact(permission: RetentionPermission) {
    permission == SemanticAndExactAllowed
  }

  predicate Permitted(candidate: RetirementCandidate, allowed: RetentionPermission -> bool) {
    candidate.body.Some? && allowed(candidate.body.value.retentionPermission)
  }

  /** The indices of the candidates whose body has an allowed permission. */
  function PermittedIndices(candidates: seq<RetirementCandidate>, allowed: RetentionPermission -> bool): (r: seq<nat>)
    ensures IndicesOf(candidates, r) && |r| <= |candidates|
  {
    if candidates == [] then []
    else
      var n := |candidates| - 1;
      PermittedIndices(candidates[..n], allowed) + (if Permitted(candidates[n], allowed) then [n] else [])
  }

  /** Exactly the permitted indices, in increasing order. */
  lemma {:induction false} PermittedAreExact(candidates: seq<RetirementCandidate>, allowed: RetentionPermission -> bool)
    ensures StrictlyIncreasing(PermittedIndices(candidates, allowed))
    ensures forall i: nat :: i in PermittedIndices(candidates, allowed) <==>
      i < |candidates| && Permitted(candidates[i], allowed)
  {
    hide Permitted, IndicesOf;
    if candidates != [] {
      var n := |candidates| - 1;
      var rest, all := PermittedIndices(candidates[..n], allowed), PermittedIndices(candidates, allowed);
      PermittedAreExact(candidates[..n], allowed);
      AppendIncreasing(rest, n);
      forall i: nat ensures i in all <==> i < |candidates| && Permitted(candidates[i], allowed) {
        if i < n {
          assert candidates[..n][i] == candidates[i];
        }
        assert i in all <==> i in rest || (i == n && Permitted(candidates[n], allowed));
      }
    }
  }

  lemma {:induction false} AppendIncreasing(s: seq<nat>, n: nat)
    requires StrictlyIncreasing(s) && forall i: nat :: i in s ==> i < n
    ensures StrictlyIncreasing(s + [n])
  {
    forall i | 0 <= i < |s| ensures s[i] < n {
      assert s[i] in s;
    }
  }
}
