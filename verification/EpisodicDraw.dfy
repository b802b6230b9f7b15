/** The draw of the episodes that are kept exactly. */
module EpisodicDraw {
  import opened Wrappers
  import opened Numbers
  import opened Sequences
  import opened Fixed
  import opened Digests
  import opened Model
  import opened Lottery
  import opened Consolidation
  import opened Plans
  import opened Cohort

  // ---------- the lottery ----------

  datatype Draw = Draw(population: seq<nat>, budget: nat, winners: seq<AtomId>, bytes: u64)

  function PopulationEvidence(c: RetirementCandidate): PopulationMember {
    PopulationMember(c.atomId, c.bodyDigest, c.exactPackageBytes)
  }

  function EpisodicBudget(population: nat, policy: Policy): nat {
    Min(CeilCount(policy.episodicRate, population), policy.episodicCountMax)
  }

  /** The checked sum of the drawn package sizes. */
  function PackageBytes(drawn: seq<RetirementCandidate>): Result<u64> {
    if drawn == [] then Ok(0)
    else
      var sum :- PackageBytes(drawn[..|drawn| - 1]);
      CheckedAdd(sum, drawn[|drawn| - 1].exactPackageBytes).OkOr(CanonicalEncoding)
  }

  function IdOf(c: RetirementCandidate): AtomId {
    c.atomId
  }

  /** The candidates that win, in the order of the draw. */
  ghost function Drawn(candidates: seq<RetirementCandidate>, stream: Stream, policy: Policy):
    (r: seq<RetirementCandidate>)
    requires Live(stream) && |candidates| < TWO64
  {
    var population := PermittedIndices(candidates, KeepsExact);
    var positions := PartialFisherYates(stream, |population|, EpisodicBudget(|population|, policy));
    PositionsInRange(candidates, population, positions);
    Pick(candidates, Pull(population, positions))
  }

  function Pull(population: seq<nat>, positions: seq<nat>): (r: seq<nat>)
    requires forall i :: 0 <= i < |positions| ==> positions[i] < |population|
    ensures |r| == |positions| && forall i :: 0 <= i < |r| ==> r[i] == population[positions[i]]
  {
    seq(|positions|, i requires 0 <= i < |positions| => population[positions[i]])
  }

  lemma {:induction false} PositionsInRange(candidates: seq<RetirementCandidate>, population: seq<nat>,
      positions: seq<nat>)
    requires forall p :: p in positions ==> p < |population|
    requires IndicesOf(candidates, population)
    ensures forall i :: 0 <= i < |positions| ==> positions[i] < |population|
    ensures IndicesOf(candidates, Pull(population, positions))
  {
    forall i | 0 <= i < |positions| ensures positions[i] < |population| {
      assert positions[i] in positions;
    }
  }

  ghost function DrawWinners(candidates: seq<RetirementCandidate>, stream: Stream, policy: Policy): (r: Result<Draw>)
    requires Live(stream) && |candidates| < TWO64
    ensures r.Ok? ==> IndicesOf(candidates, r.value.population)
  {
    var population := PermittedIndices(candidates, KeepsExact);
    var drawn := Drawn(candidates, stream, policy);
    var bytes :- PackageBytes(drawn);
    var _ :- Need(bytes <= policy.episodicPinBudgetBytes, EpisodicBudgetExceeded(bytes));
    Ok(Draw(population, EpisodicBudget(|population|, policy), SortBy(DigestLeq, Map(IdOf, drawn)), bytes))
  }

  method RunDraw(candidates: seq<RetirementCandidate>, stream: Stream, policy: Policy) returns (r: Result<Draw>)
    requires Live(stream) && |candidates| < TWO64
    ensures r == DrawWinners(candidates, stream, policy)
  {
    hide Live, IndicesOf, SortBy, PermittedIndices, EpisodicBudget;
    var population := PermittedIndices(candidates, KeepsExact);
    var budget := EpisodicBudget(|population|, policy);
    var positions := RunPartialFisherYates(stream, |population|, budget);
    PositionsInRange(candidates, population, positions);
    var drawn := Pick(candidates, Pull(population, positions));
    assert drawn == Drawn(candidates, stream, policy);
    var total := SumPackages(drawn);
    if total.Err? {
      return Err(total.error);
    }
    var bytes := total.value;
    if bytes > policy.episodicPinBudgetBytes {
      return Err(EpisodicBudgetExceeded(bytes));
    }
    r := Ok(Draw(population, budget, SortBy(DigestLeq, Map(IdOf, drawn)), bytes));
  }

  method SumPackages(drawn: seq<RetirementCandidate>) returns (r: Result<u64>)
    ensures r == PackageBytes(drawn)
  {
    var bytes: u64 := 0;
    for i := 0 to |drawn|
      invariant PackageBytes(drawn[..i]) == Ok(bytes)
    {
      assert drawn[..i + 1][..i] == drawn[..i];
      if bytes + drawn[i].exactPackageBytes >= TWO64 {
        PackageOverflows(drawn, i + 1);
        return Err(CanonicalEncoding);
      }
      bytes := bytes + drawn[i].exactPackageBytes;
    }
    assert drawn[..|drawn|] == drawn;
    r := Ok(bytes);
  }

  lemma {:induction false} PackageOverflows(drawn: seq<RetirementCandidate>, i: nat)
    requires i <= |drawn| && PackageBytes(drawn[..i]) == Err(CanonicalEncoding)
    ensures PackageBytes(drawn) == Err(CanonicalEncoding)
    decreases |drawn| - i
  {
    if i < |drawn| {
      assert drawn[..i + 1][..i] == drawn[..i];
      PackageOverflows(drawn, i + 1);
    } else {
      assert drawn[..i] == drawn;
    }
  }
}
