/**
 The charge deposit. The simple form scatters each particle onto the eight corners
 of its cell; the optimised form accumulates per (cell, corner) and lets every
 cell gather its eight contributions through bij.
 */
module Deposit {
  import opened Particles
  import opened Grid
  import opened Motion
  import opened Multisets

  /** The particles of a step in the order in which they are pushed, with their cells. */
  type Log = seq<(int, Particle)>

  function Charges(p: Particle): (charges: seq<real>)
    ensures |charges| == NB_CORNERS
  {
    seq(NB_CORNERS, k requires 0 <= k < NB_CORNERS => CornerCoeff(k, p))
  }

  /** What the first n corners of cell d leave on cell c. */
  function Contribution(g: Dims, d: int, charges: seq<real>, c: int, n: nat): real
    requires Positive(g) && d >= 0 && n <= NB_CORNERS == |charges|
  {
    if n == 0 then 0.0
    else Contribution(g, d, charges, c, n - 1) + (if IndicesOfCorners(g, d)[n - 1] == c then charges[n - 1] else 0.0)
  }

  ghost predicate InCells(g: Dims, log: Log) {
    forall i :: 0 <= i < |log| ==> 0 <= log[i].0 < NbCells(g)
  }

  /** The charge of cell c after scattering the particles of the log one after the other. */
  function Scattered(g: Dims, log: Log, c: int): real
    requires Positive(g) && InCells(g, log)
  {
    if log == [] then 0.0
    else
      var (d, p) := log[|log| - 1];
      Scattered(g, log[..|log| - 1], c) + Contribution(g, d, Charges(p), c, NB_CORNERS)
  }

  /** The charge accumulated for corner k of cell c. */
  function CornerSum(log: Log, c: int, k: nat): real
    requires k < NB_CORNERS
  {
    if log == [] then 0.0
    else
      var (d, p) := log[|log| - 1];
      CornerSum(log[..|log| - 1], c, k) + (if d == c then CornerCoeff(k, p) else 0.0)
  }

  /** What cell c gathers from its first n corners. */
  function Gathered(g: Dims, log: Log, c: int, n: nat): real
    requires Positive(g) && 0 <= c && n <= NB_CORNERS
  {
    if n == 0 then 0.0
    else Gathered(g, log, c, n - 1) + CornerSum(log, Bij(g, c, n - 1) / NB_CORNERS, n - 1)
  }

  // ----- the simple form, as code

  method AccumulateChargeAtCorners(g: Dims, deposit: array<real>, idCell: int, charges: seq<real>)
    requires Positive(g) && deposit.Length == NbCells(g) && 0 <= idCell < NbCells(g) && |charges| == NB_CORNERS
    modifies deposit
    ensures forall c :: 0 <= c < deposit.Length ==>
              deposit[c] == old(deposit[c]) + Contribution(g, idCell, charges, c, NB_CORNERS)
  {
    var indices := IndicesOfCorners(g, idCell);
    for idCorner := 0 to NB_CORNERS
      invariant forall c :: 0 <= c < deposit.Length ==>
                  deposit[c] == old(deposit[c]) + Contribution(g, idCell, charges, c, idCorner)
    {
      ScatterTargetGathersSource(g, idCell, idCorner);
      deposit[indices[idCorner]] := deposit[indices[idCorner]] + charges[idCorner];
    }
  }

  /** accumulateChargeAtCorners once per particle of the log. */
  method ScatterAll(g: Dims, deposit: array<real>, log: Log)
    requires Positive(g) && deposit.Length == NbCells(g) && InCells(g, log)
    requires forall c :: 0 <= c < deposit.Length ==> deposit[c] == 0.0
    modifies deposit
    ensures forall c :: 0 <= c < deposit.Length ==> deposit[c] == Scattered(g, log, c)
  {
    assert log[..0] == [];
    for i := 0 to |log|
      invariant forall c :: 0 <= c < deposit.Length ==> deposit[c] == Scattered(g, log[..i], c)
    {
      AccumulateChargeAtCorners(g, deposit, log[i].0, Charges(log[i].1));
      assert log[..i + 1][..i] == log[..i];
    }
    assert log[..|log|] == log;
  }

  // ----- gathering is scattering

  lemma SourceIff(g: Dims, c: int, d: int, k: nat)
    requires Positive(g) && 0 <= c < NbCells(g) && 0 <= d < NbCells(g) && k < NB_CORNERS
    ensures Bij(g, c, k) / NB_CORNERS == d <==> IndicesOfCorners(g, d)[k] == c
  {
    GatherSourceHitsCell(g, c, k);
    ScatterTargetGathersSource(g, d, k);
  }

  lemma {:induction false} GatherOneMore(g: Dims, log: Log, c: int, n: nat)
    requires Positive(g) && InCells(g, log) && log != [] && 0 <= c < NbCells(g) && n <= NB_CORNERS
    ensures var (d, p) := log[|log| - 1];
            Gathered(g, log, c, n) == Gathered(g, log[..|log| - 1], c, n) + Contribution(g, d, Charges(p), c, n)
  {
    if n > 0 {
      GatherOneMore(g, log, c, n - 1);
      SourceIff(g, c, log[|log| - 1].0, n - 1);
    }
  }

  /** For every cell, gathering the accumulated corners through bij equals scattering every particle. */
  lemma {:induction false} GatherEqualsScatter(g: Dims, log: Log, c: int)
    requires Positive(g) && InCells(g, log) && 0 <= c < NbCells(g)
    ensures Gathered(g, log, c, NB_CORNERS) == Scattered(g, log, c)
  {
    if log == [] {
      GatherNothing(g, c, NB_CORNERS);
    } else {
      GatherEqualsScatter(g, log[..|log| - 1], c);
      GatherOneMore(g, log, c, NB_CORNERS);
    }
  }

  lemma {:induction false} GatherNothing(g: Dims, c: int, n: nat)
    requires Positive(g) && 0 <= c && n <= NB_CORNERS
    ensures Gathered(g, [], c, n) == 0.0
  {
    if n > 0 {
      GatherNothing(g, c, n - 1);
    }
  }

  // ----- the order of the particles does not matter

  lemma {:induction false} ScatterSplit(g: Dims, a: Log, b: Log, c: int)
    requires Positive(g) && InCells(g, a) && InCells(g, b)
    ensures InCells(g, a + b)
    ensures Scattered(g, a + b, c) == Scattered(g, a, c) + Scattered(g, b, c)
  {
    if b == [] {
      assert a + b == a;
    } else {
      ScatterSplit(g, a, b[..|b| - 1], c);
      assert (a + b)[..|a + b| - 1] == a + b[..|b| - 1];
    }
  }

  lemma ScatterOneOut(g: Dims, before: Log, e: (int, Particle), after: Log, c: int)
    requires Positive(g) && InCells(g, before) && InCells(g, after) && 0 <= e.0 < NbCells(g)
    ensures InCells(g, before + [e] + after) && InCells(g, before + after)
    ensures Scattered(g, before + [e] + after, c)
         == Scattered(g, before + after, c) + Contribution(g, e.0, Charges(e.1), c, NB_CORNERS)
  {
    ScatterSplit(g, before, after, c);
    ScatterSplit(g, before + [e], after, c);
    assert (before + [e])[..|before|] == before;
  }

  /** Two logs with the same particles deposit the same charge. */
  lemma {:induction false} ScatterIsOrderFree(g: Dims, log: Log, other: Log, c: int)
    requires Positive(g) && InCells(g, log) && InCells(g, other) && multiset(log) == multiset(other)
    ensures Scattered(g, log, c) == Scattered(g, other, c)
    decreases |log|
  {
    hide Scattered, Contribution;
    if log == [] {
      assert |multiset(other)| == 0;
      assert other == [];
    } else {
      var n := |log| - 1;
      var i := Match(log, other);
      var rest := other[..i] + other[i + 1..];
      ScatterIsOrderFree(g, log[..n], rest, c);
      ScatterOneOut(g, other[..i], other[i], other[i + 1..], c);
      ScatterOneOut(g, log[..n], log[n], [], c);
      assert log == log[..n] + [log[n]] + [] && log[..n] + [] == log[..n];
    }
  }

  // ----- total charge

  function TotalCharge(g: Dims, log: Log, n: nat): real
    requires Positive(g) && InCells(g, log)
  {
    if n == 0 then 0.0 else TotalCharge(g, log, n - 1) + Scattered(g, log, n - 1)
  }

  function TotalContribution(g: Dims, d: int, charges: seq<real>, n: nat, m: nat): real
    requires Positive(g) && d >= 0 && m <= NB_CORNERS == |charges|
  {
    if n == 0 then 0.0
    else TotalContribution(g, d, charges, n - 1, m) + Contribution(g, d, charges, n - 1, m)
  }

  function SumTo(charges: seq<real>, m: nat): real
    requires m <= |charges|
  {
    if m == 0 then 0.0 else SumTo(charges, m - 1) + charges[m - 1]
  }

  lemma {:induction false} ContributionsOfOneCorner(g: Dims, d: int, charges: seq<real>, n: nat, m: nat)
    requires Positive(g) && 0 <= d < NbCells(g) && 0 < m <= NB_CORNERS == |charges| && n <= NbCells(g)
    ensures TotalContribution(g, d, charges, n, m) == TotalContribution(g, d, charges, n, m - 1)
              + (if IndicesOfCorners(g, d)[m - 1] < n then charges[m - 1] else 0.0)
  {
    ScatterTargetGathersSource(g, d, m - 1);
    if n > 0 {
      ContributionsOfOneCorner(g, d, charges, n - 1, m);
    }
  }

  lemma {:induction false} ContributionsOverCells(g: Dims, d: int, charges: seq<real>, m: nat)
    requires Positive(g) && 0 <= d < NbCells(g) && m <= NB_CORNERS == |charges|
    ensures TotalContribution(g, d, charges, NbCells(g), m) == SumTo(charges, m)
  {
    if m == 0 {
      NoContribution(g, d, charges, NbCells(g));
    } else {
      ContributionsOverCells(g, d, charges, m - 1);
      ContributionsOfOneCorner(g, d, charges, NbCells(g), m);
      ScatterTargetGathersSource(g, d, m - 1);
    }
  }

  lemma {:induction false} NoContribution(g: Dims, d: int, charges: seq<real>, n: nat)
    requires Positive(g) && 0 <= d && |charges| == NB_CORNERS
    ensures TotalContribution(g, d, charges, n, 0) == 0.0
  {
    if n > 0 {
      NoContribution(g, d, charges, n - 1);
    }
  }

  lemma {:induction false} SumOfCharges(p: Particle, m: nat)
    requires m <= NB_CORNERS
    ensures SumTo(Charges(p), m) == SumCoeffs(m, p)
  {
    if m > 0 {
      SumOfCharges(p, m - 1);
    }
  }

  lemma {:induction false} TotalOneMore(g: Dims, log: Log, n: nat)
    requires Positive(g) && InCells(g, log) && log != []
    ensures var (d, p) := log[|log| - 1];
            TotalCharge(g, log, n) == TotalCharge(g, log[..|log| - 1], n)
              + TotalContribution(g, d, Charges(p), n, NB_CORNERS)
  {
    if n > 0 {
      TotalOneMore(g, log, n - 1);
    }
  }

  /** The charges of all the cells add up to the number of particles. */
  lemma {:induction false} TotalChargeIsCount(g: Dims, log: Log)
    requires Positive(g) && InCells(g, log) && NbCells(g) >= 0
    ensures TotalCharge(g, log, NbCells(g)) == |log| as real
  {
    if log == [] {
      NoCharge(g, NbCells(g));
    } else {
      var (d, p) := log[|log| - 1];
      TotalChargeIsCount(g, log[..|log| - 1]);
      TotalOneMore(g, log, NbCells(g));
      ContributionsOverCells(g, d, Charges(p), NB_CORNERS);
      SumOfCharges(p, NB_CORNERS);
      SharesAddUpToOne(p);
    }
  }

  lemma {:induction false} NoCharge(g: Dims, n: nat)
    requires Positive(g)
    ensures TotalCharge(g, [], n) == 0.0
  {
    if n > 0 {
      NoCharge(g, n - 1);
    }
  }
}
