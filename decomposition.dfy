/**
 * The shift-share decomposition of the change in the overall rate: per-group
 * shares and rates, the structural and rate effects in percentage points, and
 * the appended total row.
 */
module Decomposition {
  import opened Wrappers
  import opened Table
  import opened Aggregation

  /** The dimension cells of the total row. */
  const TotalLabel := "总计"

  /** One row of the result table; `None` is pandas' NaN. */
  datatype ResultRow = ResultRow(
    dims: seq<Value>,
    sums: Measures,
    baseShare: real,
    currShare: real,
    baseRate: Option<real>,
    currRate: Option<real>,
    structural: Option<real>,
    rateEffect: Option<real>,
    totalEffect: Option<real>)

  /** The grand populations the shares and the overall rates divide by are both nonzero. */
  predicate NonzeroGrandPopulations(t: Measures) {
    t.basePop != 0 && t.currPop != 0
  }

  function Ratio(num: int, den: int): real
    requires den != 0
  {
    num as real / den as real
  }

  /** The overall base rate `R0 = sum_ref0 / sum_in0`. */
  function OverallBaseRate(t: Measures): real
    requires NonzeroGrandPopulations(t)
  {
    Ratio(t.baseSub, t.basePop)
  }

  /** The overall current rate `sum_ref1 / sum_in1`. */
  function OverallCurrentRate(t: Measures): real
    requires NonzeroGrandPopulations(t)
  {
    Ratio(t.currSub, t.currPop)
  }

  /** `sub / pop.replace(0, np.nan)`: a group without population has no rate. */
  function Rate(sub: int, pop: int): (r: Option<real>)
    ensures r.None? <==> pop == 0
    ensures r.Some? ==> r.value * pop as real == sub as real
  {
    if pop == 0 then None else Some(Ratio(sub, pop))
  }

  /** `(s1 - s0) * (r0 - R0) * 100`, NaN when the base rate is. */
  function StructuralTerm(s0: real, s1: real, r0: Option<real>, overall: real): Option<real> {
    if r0.None? then None else Some((s1 - s0) * (r0.value - overall) * 100.0)
  }

  /** `s1 * (r1 - r0) * 100`, NaN when either rate is. */
  function RateTerm(s1: real, r0: Option<real>, r1: Option<real>): Option<real> {
    if r0.None? || r1.None? then None else Some(s1 * (r1.value - r0.value) * 100.0)
  }

  /** Addition of two columns: NaN when either operand is. */
  function Plus(a: Option<real>, b: Option<real>): Option<real> {
    if a.None? || b.None? then None else Some(a.value + b.value)
  }

  /** One group row of the result, against the grand totals `t`. */
  function DecomposeGroup(g: Group<Key>, t: Measures): (row: ResultRow)
    requires NonzeroGrandPopulations(t)
    ensures row.dims == g.key && row.sums == g.sums
    ensures row.baseShare * t.basePop as real == g.sums.basePop as real
    ensures row.currShare * t.currPop as real == g.sums.currPop as real
    ensures row.baseRate.None? <==> g.sums.basePop == 0
    ensures row.currRate.None? <==> g.sums.currPop == 0
    ensures row.structural.None? <==> g.sums.basePop == 0
    ensures row.rateEffect.None? <==> g.sums.basePop == 0 || g.sums.currPop == 0
    ensures row.totalEffect.None? <==> g.sums.basePop == 0 || g.sums.currPop == 0
    ensures row.baseRate.Some? ==> row.baseRate.value * g.sums.basePop as real == g.sums.baseSub as real
    ensures row.currRate.Some? ==> row.currRate.value * g.sums.currPop as real == g.sums.currSub as real
    ensures row.structural.Some? ==>
      row.structural.value == (row.currShare - row.baseShare) * (row.baseRate.value - OverallBaseRate(t)) * 100.0
    ensures row.rateEffect.Some? ==>
      row.rateEffect.value == row.currShare * (row.currRate.value - row.baseRate.value) * 100.0
    ensures row.totalEffect.Some? ==> row.totalEffect.value == row.structural.value + row.rateEffect.value
  {
    var s0 := Ratio(g.sums.basePop, t.basePop);
    var s1 := Ratio(g.sums.currPop, t.currPop);
    var r0 := Rate(g.sums.baseSub, g.sums.basePop);
    var r1 := Rate(g.sums.currSub, g.sums.currPop);
    var overall := OverallBaseRate(t);
    var structural := StructuralTerm(s0, s1, r0, overall);
    var rateEffect := RateTerm(s1, r0, r1);
    ResultRow(g.key, g.sums, s0, s1, r0, r1, structural, rateEffect, Plus(structural, rateEffect))
  }

  /** The group rows of the result, in group order. */
  function Decompose(gs: seq<Group<Key>>, t: Measures): (rows: seq<ResultRow>)
    requires NonzeroGrandPopulations(t)
  {
    seq(|gs|, i requires 0 <= i < |gs| => DecomposeGroup(gs[i], t))
  }

  datatype Period = Base | Current

  function Share(r: ResultRow, p: Period): real {
    if p == Base then r.baseShare else r.currShare
  }

  function Pop(m: Measures, p: Period): int {
    if p == Base then m.basePop else m.currPop
  }

  /** `grouped[share].sum()`. */
  function ShareSum(rows: seq<ResultRow>, p: Period): real {
    if rows == [] then 0.0 else ShareSum(rows[..|rows| - 1], p) + Share(rows[|rows| - 1], p)
  }

  datatype EffectColumn = Structural | RateChange | Combined

  function EffectOf(r: ResultRow, e: EffectColumn): Option<real> {
    match e
    case Structural => r.structural
    case RateChange => r.rateEffect
    case Combined => r.totalEffect
  }

  /** `grouped[effect].sum()`: pandas skips NaN, and a column of NaN only sums to 0. */
  function EffectSum(rows: seq<ResultRow>, e: EffectColumn): real {
    if rows == [] then 0.0
    else
      EffectSum(rows[..|rows| - 1], e) + Defined(EffectOf(rows[|rows| - 1], e))
  }

  /** What a cell adds to a NaN-skipping sum. */
  function Defined(v: Option<real>): real {
    if v.Some? then v.value else 0.0
  }

  /** The appended total row. */
  function TotalRow(dimCount: nat, rows: seq<ResultRow>, t: Measures): (total: ResultRow)
    requires NonzeroGrandPopulations(t)
  {
    ResultRow(
      seq(dimCount, _ => Str(TotalLabel)),
      t,
      1.0, 1.0,
      Some(OverallBaseRate(t)), Some(OverallCurrentRate(t)),
      Some(EffectSum(rows, Structural)), Some(EffectSum(rows, RateChange)), Some(EffectSum(rows, Combined)))
  }

  /** `pd.concat([grouped, total_row])`: the group rows, then exactly one total row. */
  function ResultTable(dimCount: nat, gs: seq<Group<Key>>): (rows: seq<ResultRow>)
    requires NonzeroGrandPopulations(Total(gs))
  {
    var groupRows := Decompose(gs, Total(gs));
    groupRows + [TotalRow(dimCount, groupRows, Total(gs))]
  }

  lemma {:induction false} DecomposePrefix(gs: seq<Group<Key>>, t: Measures)
    requires NonzeroGrandPopulations(t) && gs != []
    ensures Decompose(gs, t)[..|gs| - 1] == Decompose(gs[..|gs| - 1], t)
  {
  }

  /** Division by a common denominator distributes over addition. */
  lemma RatioAdd(a: int, b: int, c: int)
    requires c != 0
    ensures Ratio(a + b, c) == Ratio(a, c) + Ratio(b, c)
  {
  }

  lemma RatioSelf(a: int)
    requires a != 0
    ensures Ratio(a, a) == 1.0
  {
    var x := a as real;
    assert x != 0.0;
    assert x / x == 1.0;
  }

  /** Each period's shares add up to the groups' population over the grand population. */
  lemma {:induction false} ShareSumIsPopulationShare(gs: seq<Group<Key>>, t: Measures, p: Period)
    requires NonzeroGrandPopulations(t)
    ensures ShareSum(Decompose(gs, t), p) == Ratio(Pop(Total(gs), p), Pop(t, p))
  {
    if gs != [] {
      var init := gs[..|gs| - 1];
      var last := gs[|gs| - 1].sums;
      DecomposePrefix(gs, t);
      ShareSumIsPopulationShare(init, t, p);
      assert Share(DecomposeGroup(gs[|gs| - 1], t), p) == Ratio(Pop(last, p), Pop(t, p));
      assert Pop(Total(gs), p) == Pop(Total(init), p) + Pop(last, p);
      RatioAdd(Pop(Total(init), p), Pop(last, p), Pop(t, p));
    }
  }

  /** The base shares add up to 1, and so do the current shares. */
  lemma {:induction false} SharesSumToOne(gs: seq<Group<Key>>)
    requires NonzeroGrandPopulations(Total(gs))
    ensures ShareSum(Decompose(gs, Total(gs)), Base) == 1.0
    ensures ShareSum(Decompose(gs, Total(gs)), Current) == 1.0
  {
    var t := Total(gs);
    ShareSumIsPopulationShare(gs, t, Base);
    RatioSelf(t.basePop);
    ShareSumIsPopulationShare(gs, t, Current);
    RatioSelf(t.currPop);
  }

  /**
   * What a group with both populations nonzero contributes to the total effect,
   * written so that it is additive in the group's sums `m`.
   */
  function Contribution(m: Measures, t: Measures): real
    requires NonzeroGrandPopulations(t)
  {
    100.0 * (Ratio(m.currSub, t.currPop) - Ratio(m.baseSub, t.basePop)
             - OverallBaseRate(t) * (Ratio(m.currPop, t.currPop) - Ratio(m.basePop, t.basePop)))
  }

  /** A share times its group's rate is the group's sub-count over the grand population. */
  lemma ShareTimesRate(pop: int, sub: int, total: int)
    requires pop != 0 && total != 0
    ensures Ratio(pop, total) * Ratio(sub, pop) == Ratio(sub, total)
  {
    var p, s, t := pop as real, sub as real, total as real;
    assert p != 0.0 && t != 0.0;
    assert (p / t) * (s / p) == (p * s) / (t * p);
    assert (p * s) / (t * p) == s / t;
  }

  lemma DefinedTerms(s0: real, s1: real, r0: real, r1: real, overall: real)
    ensures StructuralTerm(s0, s1, Some(r0), overall) == Some((s1 - s0) * (r0 - overall) * 100.0)
    ensures RateTerm(s1, Some(r0), Some(r1)) == Some(s1 * (r1 - r0) * 100.0)
  {
    assert StructuralTerm(s0, s1, Some(r0), overall).value == (s1 - s0) * (r0 - overall) * 100.0;
    assert RateTerm(s1, Some(r0), Some(r1)).value == s1 * (r1 - r0) * 100.0;
  }

  /** The effect formulas rearranged: structural plus rate effect is `s1*r1 - s0*r0 - R0*(s1 - s0)`, times 100. */
  lemma EffectAlgebra(s0: real, s1: real, r0: real, r1: real, overall: real)
    ensures (s1 - s0) * (r0 - overall) * 100.0 + s1 * (r1 - r0) * 100.0
         == 100.0 * (s1 * r1 - s0 * r0 - overall * (s1 - s0))
  {
  }

  /** A group with both populations nonzero has a total effect, and it is its contribution. */
  lemma {:induction false} GroupTotalEffect(g: Group<Key>, t: Measures)
    requires NonzeroGrandPopulations(t) && g.sums.basePop != 0 && g.sums.currPop != 0
    ensures DecomposeGroup(g, t).totalEffect == Some(Contribution(g.sums, t))
  {
    var m := g.sums;
    var s0, s1 := Ratio(m.basePop, t.basePop), Ratio(m.currPop, t.currPop);
    var r0, r1 := Ratio(m.baseSub, m.basePop), Ratio(m.currSub, m.currPop);
    var overall := OverallBaseRate(t);
    var row := DecomposeGroup(g, t);
    assert row.structural == StructuralTerm(s0, s1, Some(r0), overall);
    assert row.rateEffect == RateTerm(s1, Some(r0), Some(r1));
    assert row.totalEffect == Some(row.structural.value + row.rateEffect.value);
    DefinedTerms(s0, s1, r0, r1, overall);
    EffectAlgebra(s0, s1, r0, r1, overall);
    var combined := 100.0 * (s1 * r1 - s0 * r0 - overall * (s1 - s0));
    assert row.totalEffect == Some(combined);
    ShareTimesRate(m.basePop, m.baseSub, t.basePop);
    ShareTimesRate(m.currPop, m.currSub, t.currPop);
    var cs, bs := s1 * r1, s0 * r0;
    assert cs == Ratio(m.currSub, t.currPop) && bs == Ratio(m.baseSub, t.basePop);
    assert combined == 100.0 * (cs - bs - overall * (s1 - s0));
    assert row.totalEffect.value == Contribution(m, t);
  }

  /** Contributions add up: the contribution of two groups' sums is the sum of their contributions. */
  lemma ContributionAdd(a: Measures, b: Measures, t: Measures)
    requires NonzeroGrandPopulations(t)
    ensures Contribution(Add(a, b), t) == Contribution(a, t) + Contribution(b, t)
  {
    RatioAdd(a.currSub, b.currSub, t.currPop);
    RatioAdd(a.baseSub, b.baseSub, t.basePop);
    RatioAdd(a.currPop, b.currPop, t.currPop);
    RatioAdd(a.basePop, b.basePop, t.basePop);
    var r := OverallBaseRate(t);
    var x, y := Ratio(a.currPop, t.currPop) - Ratio(a.basePop, t.basePop), Ratio(b.currPop, t.currPop) - Ratio(b.basePop, t.basePop);
    assert r * (x + y) == r * x + r * y;
  }

  /** When every group has both populations nonzero, the group effects add up to the contribution of their total. */
  lemma {:induction false} TotalEffectSum(gs: seq<Group<Key>>, t: Measures)
    requires NonzeroGrandPopulations(t)
    requires forall i :: 0 <= i < |gs| ==> gs[i].sums.basePop != 0 && gs[i].sums.currPop != 0
    ensures EffectSum(Decompose(gs, t), Combined) == Contribution(Total(gs), t)
  {
    if gs == [] {
      assert Contribution(Zero, t) == 0.0;
    } else {
      var init := gs[..|gs| - 1];
      var last := gs[|gs| - 1];
      DecomposePrefix(gs, t);
      TotalEffectSum(init, t);
      GroupTotalEffect(last, t);
      ContributionAdd(Total(init), last.sums, t);
    }
  }

  /**
   * Reconciliation: when every group has both populations nonzero, the group
   * total effects add up to the change of the overall rate, in percentage points.
   */
  lemma {:induction false} Reconciliation(gs: seq<Group<Key>>)
    requires NonzeroGrandPopulations(Total(gs))
    requires forall i :: 0 <= i < |gs| ==> gs[i].sums.basePop != 0 && gs[i].sums.currPop != 0
    ensures EffectSum(Decompose(gs, Total(gs)), Combined)
         == (OverallCurrentRate(Total(gs)) - OverallBaseRate(Total(gs))) * 100.0
  {
    TotalEffectSum(gs, Total(gs));
    ContributionOfTotal(Total(gs));
  }

  /** The grand sums, measured against themselves, contribute exactly the change of the overall rate. */
  lemma ContributionOfTotal(t: Measures)
    requires NonzeroGrandPopulations(t)
    ensures Contribution(t, t) == (OverallCurrentRate(t) - OverallBaseRate(t)) * 100.0
  {
    RatioSelf(t.basePop);
    RatioSelf(t.currPop);
  }

  /**
   * The result table holds one row per group, in group order, then the total
   * row: "总计" in every dimension, the grand sums, shares of 1, the overall
   * rates and the NaN-skipping sums of the group effects.
   */
  lemma {:induction false} ResultTableShape(dimCount: nat, gs: seq<Group<Key>>)
    requires NonzeroGrandPopulations(Total(gs))
    ensures var rows := ResultTable(dimCount, gs);
      var t := Total(gs);
      && |rows| == |gs| + 1
      && (forall i :: 0 <= i < |gs| ==> rows[i] == DecomposeGroup(gs[i], t))
      && var total := rows[|gs|];
      && |total.dims| == dimCount
      && (forall k :: 0 <= k < dimCount ==> total.dims[k] == Str(TotalLabel))
      && total.sums == t
      && total.baseShare == 1.0 && total.currShare == 1.0
      && total.baseRate == Some(OverallBaseRate(t))
      && total.currRate == Some(OverallCurrentRate(t))
      && total.structural == Some(EffectSum(rows[..|gs|], Structural))
      && total.rateEffect == Some(EffectSum(rows[..|gs|], RateChange))
      && total.totalEffect == Some(EffectSum(rows[..|gs|], Combined))
  {
    var rows := ResultTable(dimCount, gs);
    assert rows[..|gs|] == Decompose(gs, Total(gs));
  }

  /** The group rows of the result table carry the groups' keys and sums, in group order. */
  lemma {:induction false} GroupRowsOf(dimCount: nat, gs: seq<Group<Key>>)
    requires NonzeroGrandPopulations(Total(gs))
    ensures var rows := ResultTable(dimCount, gs);
      && |rows| == |gs| + 1
      && forall i :: 0 <= i < |gs| ==> rows[i].dims == gs[i].key && rows[i].sums == gs[i].sums
  {
    var rows := ResultTable(dimCount, gs);
    forall i | 0 <= i < |gs| ensures rows[i].dims == gs[i].key && rows[i].sums == gs[i].sums {
      assert rows[i] == DecomposeGroup(gs[i], Total(gs));
    }
  }

  /**
   * When no group has a base population without a current one, each group row
   * has either all three effects or none, so the summed total effect is the
   * summed structural effect plus the summed rate effect.
   */
  lemma {:induction false} EffectSumAdditive(gs: seq<Group<Key>>, t: Measures)
    requires NonzeroGrandPopulations(t)
    requires forall i :: 0 <= i < |gs| ==> gs[i].sums.basePop == 0 || gs[i].sums.currPop != 0
    ensures var rows := Decompose(gs, t);
      EffectSum(rows, Combined) == EffectSum(rows, Structural) + EffectSum(rows, RateChange)
  {
    if gs != [] {
      DecomposePrefix(gs, t);
      EffectSumAdditive(gs[..|gs| - 1], t);
    }
  }

  /** Under the same condition, the total row's total effect is its structural plus its rate effect. */
  lemma {:induction false} TotalRowAddsUp(dimCount: nat, gs: seq<Group<Key>>)
    requires NonzeroGrandPopulations(Total(gs))
    requires forall i :: 0 <= i < |gs| ==> gs[i].sums.basePop == 0 || gs[i].sums.currPop != 0
    ensures var total := ResultTable(dimCount, gs)[|gs|];
      total.totalEffect == Plus(total.structural, total.rateEffect)
  {
    var rows := Decompose(gs, Total(gs));
    EffectSumAdditive(gs, Total(gs));
    assert ResultTable(dimCount, gs)[|gs|] == TotalRow(dimCount, rows, Total(gs));
  }

  /** A row with both rates whose total effect is the change between them, in percentage points. */
  predicate Reconciles(row: ResultRow) {
    && row.baseRate.Some? && row.currRate.Some?
    && row.totalEffect == Some((row.currRate.value - row.baseRate.value) * 100.0)
  }

  /**
   * Reconciliation on the total row: when every group has both populations
   * nonzero, its total effect is the change from its base rate to its current
   * rate, in percentage points.
   */
  lemma {:induction false} TotalRowReconciles(dimCount: nat, gs: seq<Group<Key>>)
    requires NonzeroGrandPopulations(Total(gs))
    requires forall i :: 0 <= i < |gs| ==> gs[i].sums.basePop != 0 && gs[i].sums.currPop != 0
    ensures Reconciles(ResultTable(dimCount, gs)[|gs|])
  {
    var t := Total(gs);
    var rows := Decompose(gs, t);
    assert ResultTable(dimCount, gs)[|gs|] == TotalRow(dimCount, rows, t);
    Reconciliation(gs);
  }

  /** Two groups: A has a base population and no current one, B both. */
  const UnevenA := Group([Str("A")], Measures(1, 0, 0, 0))
  const UnevenB := Group([Str("B")], Measures(1, 1, 1, 0))
  const UnevenTotal := Measures(2, 1, 1, 0)

  lemma {:induction false} TotalOfTwo(a: Group<Key>, b: Group<Key>)
    ensures Total([a, b]) == Add(a.sums, b.sums)
  {
    var gs := [a, b];
    assert gs[..1] == [a];
    assert [a][..0] == [];
    assert Total([a][..0]) == Zero;
    assert Total([a]) == Add(Zero, a.sums);
    assert Total(gs) == Add(Total([a]), b.sums);
  }

  /** A column's NaN-skipping sum over two rows. */
  lemma {:induction false} EffectSumOfTwo(a: ResultRow, b: ResultRow, e: EffectColumn)
    ensures EffectSum([a, b], e) == Defined(EffectOf(a, e)) + Defined(EffectOf(b, e))
  {
    var rows := [a, b];
    assert rows[..1] == [a];
    assert [a][..0] == [];
    assert EffectSum([a], e) == 0.0 + Defined(EffectOf(a, e));
  }

  lemma UnevenRowA()
    ensures var a := DecomposeGroup(UnevenA, UnevenTotal);
      a.structural == Some(25.0) && a.rateEffect == None && a.totalEffect == None
  {
    assert Ratio(1, 2) == 0.5 && Ratio(0, 1) == 0.0 && Ratio(0, 2) == 0.0;
    assert StructuralTerm(0.5, 0.0, Some(0.0), 0.5) == Some(25.0);
  }

  lemma UnevenRowB()
    ensures var b := DecomposeGroup(UnevenB, UnevenTotal);
      b.structural == Some(25.0) && b.rateEffect == Some(-100.0) && b.totalEffect == Some(-75.0)
  {
    assert Ratio(1, 2) == 0.5 && Ratio(1, 1) == 1.0 && Ratio(0, 1) == 0.0;
    assert StructuralTerm(0.5, 1.0, Some(1.0), 0.5) == Some(25.0);
    assert RateTerm(1.0, Some(1.0), Some(0.0)) == Some(-100.0);
  }

  /**
   * Without that condition the total row need not add up: group A has a base
   * population but no current one, so its structural effect (25) is summed
   * while its NaN total effect is skipped, and the total row shows a structural
   * effect of 50 and a rate effect of -100 beside a total effect of -75.
   */
  lemma TotalRowNeedNotAddUp()
    ensures var gs := [UnevenA, UnevenB];
      && NonzeroGrandPopulations(Total(gs))
      && var total := ResultTable(1, gs)[|gs|];
      && total.structural == Some(50.0)
      && total.rateEffect == Some(-100.0)
      && total.totalEffect == Some(-75.0)
  {
    var gs := [UnevenA, UnevenB];
    TotalOfTwo(UnevenA, UnevenB);
    var t := Total(gs);
    assert t == UnevenTotal;
    var a, b := DecomposeGroup(UnevenA, t), DecomposeGroup(UnevenB, t);
    UnevenRowA();
    UnevenRowB();
    var rows := Decompose(gs, t);
    assert rows == [a, b];
    EffectSumOfTwo(a, b, Structural);
    EffectSumOfTwo(a, b, RateChange);
    EffectSumOfTwo(a, b, Combined);
    assert Defined(a.structural) == 25.0 && Defined(b.structural) == 25.0;
    assert Defined(a.rateEffect) == 0.0 && Defined(b.rateEffect) == -100.0;
    assert Defined(a.totalEffect) == 0.0 && Defined(b.totalEffect) == -75.0;
    var total := TotalRow(1, rows, t);
    assert total.structural == Some(50.0) && total.rateEffect == Some(-100.0) && total.totalEffect == Some(-75.0);
    assert ResultTable(1, gs) == rows + [total];
  }

  /** Two classes over 200 students in each period: base rate 7.5%, current rate 9%. */
  const ClassA := Group([Str("A")], Measures(100, 80, 10, 12))
  const ClassB := Group([Str("B")], Measures(100, 120, 5, 6))
  const ClassTotal := Measures(200, 200, 15, 18)

  lemma ClassRowA()
    ensures var a := DecomposeGroup(ClassA, ClassTotal);
      && a.baseShare == 0.5 && a.currShare == 0.4
      && a.baseRate == Some(0.1) && a.currRate == Some(0.15)
      && a.structural == Some(-0.25) && a.rateEffect == Some(2.0) && a.totalEffect == Some(1.75)
  {
    assert Ratio(100, 200) == 0.5 && Ratio(80, 200) == 0.4;
    assert Ratio(10, 100) == 0.1 && Ratio(12, 80) == 0.15 && Ratio(15, 200) == 0.075;
    assert StructuralTerm(0.5, 0.4, Some(0.1), 0.075) == Some(-0.25);
    assert RateTerm(0.4, Some(0.1), Some(0.15)) == Some(2.0);
  }

  lemma ClassRowB()
    ensures var b := DecomposeGroup(ClassB, ClassTotal);
      && b.baseShare == 0.5 && b.currShare == 0.6
      && b.baseRate == Some(0.05) && b.currRate == Some(0.05)
      && b.structural == Some(-0.25) && b.rateEffect == Some(0.0) && b.totalEffect == Some(-0.25)
  {
    assert Ratio(100, 200) == 0.5 && Ratio(120, 200) == 0.6;
    assert Ratio(5, 100) == 0.05 && Ratio(6, 120) == 0.05 && Ratio(15, 200) == 0.075;
    assert StructuralTerm(0.5, 0.6, Some(0.05), 0.075) == Some(-0.25);
    assert RateTerm(0.6, Some(0.05), Some(0.05)) == Some(0.0);
  }

  /**
   * The two-class table: group A's structural effect is -0.25 and its rate
   * effect 2.0, and the total row's total effect is 1.5, the 1.5-point rise
   * from 7.5% to 9%.
   */
  lemma ClassExample()
    ensures var gs := [ClassA, ClassB];
      && NonzeroGrandPopulations(Total(gs))
      && var rows := ResultTable(1, gs);
      && rows[0].structural == Some(-0.25) && rows[0].rateEffect == Some(2.0) && rows[0].totalEffect == Some(1.75)
      && rows[2].baseRate == Some(0.075) && rows[2].currRate == Some(0.09)
      && rows[2].totalEffect == Some(1.5)
  {
    var gs := [ClassA, ClassB];
    TotalOfTwo(ClassA, ClassB);
    var t := Total(gs);
    assert t == ClassTotal;
    var a, b := DecomposeGroup(ClassA, t), DecomposeGroup(ClassB, t);
    ClassRowA();
    ClassRowB();
    var rows := Decompose(gs, t);
    assert rows == [a, b];
    EffectSumOfTwo(a, b, Combined);
    assert Ratio(15, 200) == 0.075 && Ratio(18, 200) == 0.09;
    assert ResultTable(1, gs) == rows + [TotalRow(1, rows, t)];
  }
}
