/** The two-regime income-tax engine: normalisation of raw field values,
    the old-regime schedule, the new-regime slab walk and the comparison
    of the two.  Amounts are exact reals; rates are exact decimals. */
module TaxCalculator {

  /** A raw field value as it reaches the calculator.  Values float() turns
      into nan or an infinity have no case here. */
  datatype Raw =
    | NoneVal           // Python None
    | EmptyStr          // the empty string ''
    | Num(value: real)  // a value that float() converts to a finite number, with that number
    | Unparsable        // a value that float() rejects with TypeError or ValueError

  /** The financial input: field name to raw value.  A key that is absent is
      distinct from a key that is present and holds None or ''. */
  type Record = map<string, Raw>

  const GrossSalary := "gross_salary"
  const Deduction80C := "deduction_80c"
  const Deduction80D := "deduction_80d"
  const StandardDeductionKey := "standard_deduction"
  const ProfessionalTax := "professional_tax"
  const HraReceived := "hra_received"

  /** The default for an absent standard deduction. */
  const DefaultStandardDeduction: real := 50000.0

  // ---------------------------------------------------------------------
  // Input normalisation

  /** safe_float: total, with no error channel.  None, '' and anything
      float() rejects become 0.0; a convertible value becomes its number. */
  function SafeFloat(v: Raw): (r: real)
    ensures v.Num? ==> r == v.value
    ensures !v.Num? ==> r == 0.0
  {
    match v
    case Num(x) => x
    case _ => 0.0
  }

  /** dict.get(key, default) */
  function Get(data: Record, key: string, default: Raw): (r: Raw)
    ensures key in data ==> r == data[key]
    ensures key !in data ==> r == default
  {
    if key in data then data[key] else default
  }

  /** A field normalised with the default 0: its number when it holds one, 0 otherwise. */
  function Field(data: Record, key: string): (r: real)
    ensures key in data && data[key].Num? ==> r == data[key].value
    ensures !(key in data && data[key].Num?) ==> r == 0.0
  {
    SafeFloat(Get(data, key, Num(0.0)))
  }

  /** The gross salary, 0 when absent or not a number. */
  function Income(data: Record): (r: real)
    ensures GrossSalary in data && data[GrossSalary].Num? ==> r == data[GrossSalary].value
    ensures !(GrossSalary in data && data[GrossSalary].Num?) ==> r == 0.0
  {
    Field(data, GrossSalary)
  }

  /** The standard deduction: 50000 only when the key is absent; a present
      None or '' normalises to 0. */
  function StandardDeduction(data: Record): (r: real)
    ensures StandardDeductionKey !in data ==> r == DefaultStandardDeduction
    ensures StandardDeductionKey in data && data[StandardDeductionKey] in {NoneVal, EmptyStr, Unparsable} ==> r == 0.0
    ensures StandardDeductionKey in data && data[StandardDeductionKey].Num? ==> r == data[StandardDeductionKey].value
  {
    SafeFloat(Get(data, StandardDeductionKey, Num(DefaultStandardDeduction)))
  }

  /** max(0, income - deductions) */
  function Taxable(income: real, deductions: real): (r: real)
    ensures 0.0 <= r && income - deductions <= r
    ensures r == 0.0 || r == income - deductions
  {
    if income - deductions < 0.0 then 0.0 else income - deductions
  }

  /** Tax plus 4% cess. */
  function WithCess(tax: real): (r: real)
    ensures r == tax * 104.0 / 100.0
  {
    tax + tax * 0.04
  }

  /** round(x, 2) on exact reals: to the nearest cent, halves upwards. */
  function RoundCents(x: real): (r: real)
    ensures x - 0.005 < r <= x + 0.005
    ensures 0.0 <= x ==> 0.0 <= r
    ensures (r * 100.0).Floor as real == r * 100.0
  {
    ((x * 100.0 + 0.5).Floor as real) / 100.0
  }

  /** An amount that is a whole number of cents is left as it is. */
  lemma RoundCentsExact(cents: int)
    ensures RoundCents(cents as real / 100.0) == cents as real / 100.0
  {
    var x := cents as real / 100.0;
    assert x * 100.0 + 0.5 == cents as real + 0.5;
    assert (cents as real + 0.5).Floor == cents;
  }

  lemma FloorMonotone(a: real, b: real)
    requires a <= b
    ensures a.Floor <= b.Floor
  {
  }

  lemma RoundCentsMonotone(x: real, y: real)
    requires x <= y
    ensures RoundCents(x) <= RoundCents(y)
  {
    FloorMonotone(x * 100.0 + 0.5, y * 100.0 + 0.5);
  }

  // ---------------------------------------------------------------------
  // Old regime

  /** The five deductions the old regime sums.  With the four itemised
      deductions absent only the standard deduction remains, and the sum
      is non-negative whenever every numeric field is. */
  function OldDeductions(data: Record): (r: real)
    ensures (Deduction80C !in data && Deduction80D !in data && ProfessionalTax !in data
             && HraReceived !in data) ==> r == StandardDeduction(data)
    ensures (forall k :: k in data && data[k].Num? ==> 0.0 <= data[k].value) ==> 0.0 <= r
  {
    Field(data, Deduction80C) + Field(data, Deduction80D) + StandardDeduction(data)
    + Field(data, ProfessionalTax) + Field(data, HraReceived)
  }

  /** Income less the five deductions, floored at 0. */
  function OldTaxable(data: Record): (r: real)
    ensures 0.0 <= r && Income(data) - OldDeductions(data) <= r
    ensures Income(data) <= OldDeductions(data) ==> r == 0.0
    ensures OldDeductions(data) < Income(data) ==> r == Income(data) - OldDeductions(data)
  {
    Taxable(Income(data), OldDeductions(data))
  }

  /** The old-regime schedule; each branch computes the full tax from zero. */
  function OldBracket(taxable: real): (r: real)
    ensures 0.0 <= r
    ensures taxable <= 250000.0 ==> r == 0.0
  {
    if taxable > 250000.0 then
      if taxable <= 500000.0 then (taxable - 250000.0) * 0.05
      else if taxable <= 1000000.0 then 12500.0 + (taxable - 500000.0) * 0.2
      else 12500.0 + 100000.0 + (taxable - 1000000.0) * 0.3
    else 0.0
  }

  /** The branches agree where they meet, so the schedule has no jumps. */
  lemma OldBracketContinuous()
    ensures OldBracket(250000.0) == 0.0 == (250000.0 - 250000.0) * 0.05
    ensures OldBracket(500000.0) == 12500.0 == 12500.0 + (500000.0 - 500000.0) * 0.2
    ensures OldBracket(1000000.0) == 112500.0 == 12500.0 + 100000.0 + (1000000.0 - 1000000.0) * 0.3
  {
  }

  lemma OldBracketMonotone(t1: real, t2: real)
    requires t1 <= t2
    ensures OldBracket(t1) <= OldBracket(t2)
  {
  }

  /** calculate_old_regime */
  function CalculateOldRegime(data: Record): (r: real)
    ensures 0.0 <= r
  {
    RoundCents(WithCess(OldBracket(OldTaxable(data))))
  }

  /** Raising the gross salary with every other field fixed never lowers the old-regime tax. */
  lemma OldRegimeMonotoneInGross(data: Record, g1: real, g2: real)
    requires g1 <= g2
    ensures CalculateOldRegime(data[GrossSalary := Num(g1)]) <= CalculateOldRegime(data[GrossSalary := Num(g2)])
  {
    var d1, d2 := data[GrossSalary := Num(g1)], data[GrossSalary := Num(g2)];
    assert OldDeductions(d1) == OldDeductions(d2);
    assert OldTaxable(d1) <= OldTaxable(d2);
    OldBracketMonotone(OldTaxable(d1), OldTaxable(d2));
    RoundCentsMonotone(WithCess(OldBracket(OldTaxable(d1))), WithCess(OldBracket(OldTaxable(d2))));
  }

  /** A deduction field that is absent, None, '' or unparsable counts as an explicit 0. */
  lemma OldRegimeBlankDeductionIsZero(data: Record, key: string, v: Raw)
    requires key in {Deduction80C, Deduction80D, ProfessionalTax, HraReceived}
    requires !v.Num?
    ensures CalculateOldRegime(data[key := v]) == CalculateOldRegime(data[key := Num(0.0)])
    ensures CalculateOldRegime(data - {key}) == CalculateOldRegime(data[key := Num(0.0)])
  {
    assert OldDeductions(data[key := v]) == OldDeductions(data[key := Num(0.0)]);
    assert OldDeductions(data - {key}) == OldDeductions(data[key := Num(0.0)]);
  }

  /** With no deductions at all, the boundary incomes give 0, 13000 and 117000. */
  lemma OldRegimeBoundaryExamples()
    ensures CalculateOldRegime(map[GrossSalary := Num(250000.0), StandardDeductionKey := Num(0.0)]) == 0.0
    ensures CalculateOldRegime(map[GrossSalary := Num(500000.0), StandardDeductionKey := Num(0.0)]) == 13000.0
    ensures CalculateOldRegime(map[GrossSalary := Num(1000000.0), StandardDeductionKey := Num(0.0)]) == 117000.0
  {
    RoundCentsExact(0);
    RoundCentsExact(1300000);
    RoundCentsExact(11700000);
  }

  // ---------------------------------------------------------------------
  // New regime

  datatype Slab = Slab(limit: real, rate: real)

  /** The new-regime slabs, in order; there is no zero band. */
  const NewSlabs: seq<Slab> := [
    Slab(300000.0, 0.05),
    Slab(600000.0, 0.1),
    Slab(900000.0, 0.15),
    Slab(1200000.0, 0.2),
    Slab(1500000.0, 0.3)
  ]

  /** Where the post-loop top band starts, and its rate. */
  const TopBandStart: real := 1500000.0
  const TopBandRate: real := 0.3

  /** Limits are non-negative and non-decreasing; rates are non-negative. */
  ghost predicate Ascending(slabs: seq<Slab>)
  {
    && (forall i :: 0 <= i < |slabs| ==> 0.0 <= slabs[i].limit && 0.0 <= slabs[i].rate)
    && (forall i, j :: 0 <= i < j < |slabs| ==> slabs[i].limit <= slabs[j].limit)
  }

  lemma NewSlabsAscending()
    ensures Ascending(NewSlabs)
  {
    forall i, j | 0 <= i < j < |NewSlabs| ensures NewSlabs[i].limit <= NewSlabs[j].limit {
      assert NewSlabs[i].limit == 300000.0 * (i + 1) as real by {
        if i == 0 {} else if i == 1 {} else if i == 2 {} else if i == 3 {} else {}
      }
      assert NewSlabs[j].limit == 300000.0 * (j + 1) as real by {
        if j == 0 {} else if j == 1 {} else if j == 2 {} else if j == 3 {} else {}
      }
    }
    forall i | 0 <= i < |NewSlabs| ensures 0.0 <= NewSlabs[i].limit && 0.0 <= NewSlabs[i].rate {
      if i == 0 {} else if i == 1 {} else if i == 2 {} else if i == 3 {} else {}
    }
  }

  /** The length of [lo, hi] that lies inside [0, taxable], when 0 <= lo <= hi. */
  function Overlap(lo: real, hi: real, taxable: real): (r: real)
    ensures 0.0 <= lo <= hi ==> 0.0 <= r <= hi - lo
    ensures taxable <= lo ==> r == 0.0
    ensures lo < taxable ==> r == (if taxable < hi then taxable else hi) - lo
  {
    if taxable <= lo then 0.0 else if taxable <= hi then taxable - lo else hi - lo
  }

  /** The limit of the last slab, or 0 when there is none. */
  function PrevLimit(slabs: seq<Slab>): real
  {
    if |slabs| == 0 then 0.0 else slabs[|slabs| - 1].limit
  }

  /** Sum over the slabs of rate times the overlap of [previous limit, limit] with [0, taxable]. */
  function SlabSum(slabs: seq<Slab>, taxable: real): real
  {
    if |slabs| == 0 then 0.0
    else
      var init := slabs[..|slabs| - 1];
      SlabSum(init, taxable) + Overlap(PrevLimit(init), slabs[|slabs| - 1].limit, taxable) * slabs[|slabs| - 1].rate
  }

  /** Slabs whose previous limit is at or above taxable contribute nothing. */
  lemma {:induction false} SlabSumStable(slabs: seq<Slab>, n: nat, m: nat, taxable: real)
    requires Ascending(slabs)
    requires 0 < n <= m <= |slabs|
    requires taxable <= slabs[n - 1].limit
    ensures SlabSum(slabs[..m], taxable) == SlabSum(slabs[..n], taxable)
  {
    if m > n {
      SlabSumStable(slabs, n, m - 1, taxable);
      assert slabs[..m][..m - 1] == slabs[..m - 1];
      assert PrevLimit(slabs[..m - 1]) == slabs[m - 2].limit;
      assert slabs[n - 1].limit <= slabs[m - 2].limit;
    }
  }

  lemma SlabSumStops(slabs: seq<Slab>, n: nat, taxable: real)
    requires Ascending(slabs)
    requires 0 < n <= |slabs|
    requires taxable <= slabs[n - 1].limit
    ensures SlabSum(slabs, taxable) == SlabSum(slabs[..n], taxable)
  {
    SlabSumStable(slabs, n, |slabs|, taxable);
    assert slabs[..|slabs|] == slabs;
  }

  lemma {:induction false} SlabSumNonNegative(slabs: seq<Slab>, taxable: real)
    requires Ascending(slabs)
    ensures 0.0 <= SlabSum(slabs, taxable)
  {
    if |slabs| > 0 {
      var init := slabs[..|slabs| - 1];
      SlabSumNonNegative(init, taxable);
      var s := slabs[|slabs| - 1];
      var o := Overlap(PrevLimit(init), s.limit, taxable);
      assert 0.0 <= s.rate * o;
    }
  }

  /** A slab whose limit taxable exceeds adds (limit - prev) * rate. */
  lemma WalkPassStep(slabs: seq<Slab>, i: nat, taxable: real)
    requires Ascending(slabs)
    requires i < |slabs| && slabs[i].limit < taxable
    requires i > 0 ==> slabs[i - 1].limit < taxable
    ensures SlabSum(slabs[..i + 1], taxable)
         == SlabSum(slabs[..i], taxable) + (slabs[i].limit - PrevLimit(slabs[..i])) * slabs[i].rate
  {
    var p := PrevLimit(slabs[..i]);
    assert p <= slabs[i].limit;
    assert slabs[..i + 1][..i] == slabs[..i];
    assert Overlap(p, slabs[i].limit, taxable) == slabs[i].limit - p;
  }

  /** The slab taxable falls within adds (taxable - prev) * rate. */
  lemma WalkStopStep(slabs: seq<Slab>, i: nat, taxable: real)
    requires Ascending(slabs)
    requires i < |slabs| && 0.0 <= taxable <= slabs[i].limit
    requires i > 0 ==> slabs[i - 1].limit < taxable
    ensures SlabSum(slabs[..i + 1], taxable)
         == SlabSum(slabs[..i], taxable) + (taxable - PrevLimit(slabs[..i])) * slabs[i].rate
  {
    var p := PrevLimit(slabs[..i]);
    assert p <= taxable;
    assert slabs[..i + 1][..i] == slabs[..i];
    assert Overlap(p, slabs[i].limit, taxable) == taxable - p;
  }

  /** Where the walk stops at slab i, prev is the largest limit below taxable. */
  lemma WalkStopPrev(slabs: seq<Slab>, i: nat, taxable: real)
    requires Ascending(slabs)
    requires i < |slabs| && taxable <= slabs[i].limit
    ensures forall k :: 0 <= k < |slabs| && slabs[k].limit < taxable ==> slabs[k].limit <= PrevLimit(slabs[..i])
  {
    forall k | 0 <= k < |slabs| && slabs[k].limit < taxable ensures slabs[k].limit <= PrevLimit(slabs[..i]) {
      if k < i - 1 {
        assert slabs[k].limit <= slabs[i - 1].limit;
      }
    }
  }

  /** The slab walk of calculate_new_regime: for each slab in order, a
      taxable amount above the limit pays the whole slab and moves prev up;
      otherwise it pays from prev up to taxable and the walk stops. */
  method WalkSlabs(slabs: seq<Slab>, taxable: real) returns (tax: real, prev: real, ghost steps: nat)
    requires Ascending(slabs)
    requires 0.0 <= taxable
    ensures tax == SlabSum(slabs, taxable)
    ensures steps <= |slabs|
    ensures steps < |slabs| ==> 0 < steps && taxable <= slabs[steps - 1].limit
    ensures forall k :: 0 <= k < steps - 1 ==> slabs[k].limit < taxable
    ensures prev <= taxable
    ensures prev == 0.0 || exists k :: 0 <= k < |slabs| && slabs[k].limit == prev
    ensures forall k :: 0 <= k < |slabs| && slabs[k].limit < taxable ==> slabs[k].limit <= prev
  {
    tax, prev, steps := 0.0, 0.0, 0;
    for i := 0 to |slabs|
      invariant steps == i
      invariant prev == PrevLimit(slabs[..i])
      invariant forall k :: 0 <= k < i ==> slabs[k].limit < taxable
      invariant tax == SlabSum(slabs[..i], taxable)
    {
      var limit, rate := slabs[i].limit, slabs[i].rate;
      steps := steps + 1;
      if taxable > limit {
        WalkPassStep(slabs, i, taxable);
        tax := tax + (limit - prev) * rate;
        assert tax == SlabSum(slabs[..i + 1], taxable);
        prev := limit;
        assert prev == PrevLimit(slabs[..i + 1]);
      } else {
        WalkStopStep(slabs, i, taxable);
        tax := tax + (taxable - prev) * rate;
        assert tax == SlabSum(slabs[..i + 1], taxable);
        SlabSumStops(slabs, i + 1, taxable);
        WalkStopPrev(slabs, i, taxable);
        assert i > 0 ==> prev == slabs[i - 1].limit;
        return;
      }
    }
    assert slabs[..|slabs|] == slabs;
    assert prev == 0.0 || prev == slabs[|slabs| - 1].limit;
  }

  /** The increment added after the walk for the part above 1500000. */
  function TopIncrement(taxable: real): (r: real)
    ensures 0.0 <= r
    ensures r == 0.0 <==> taxable <= TopBandStart
  {
    if taxable > TopBandStart then (taxable - TopBandStart) * TopBandRate else 0.0
  }

  /** The new-regime bracket tax: the slab overlap sum plus the top increment. */
  function NewRegimeBracket(taxable: real): (r: real)
    ensures 0.0 <= r
  {
    NewSlabsAscending();
    SlabSumNonNegative(NewSlabs, taxable);
    SlabSum(NewSlabs, taxable) + TopIncrement(taxable)
  }

  /** An independent statement of the new regime as a table of cumulative amounts. */
  function NewBracketTable(taxable: real): real
  {
    if taxable <= 300000.0 then taxable * 0.05
    else if taxable <= 600000.0 then 15000.0 + (taxable - 300000.0) * 0.1
    else if taxable <= 900000.0 then 45000.0 + (taxable - 600000.0) * 0.15
    else if taxable <= 1200000.0 then 90000.0 + (taxable - 900000.0) * 0.2
    else if taxable <= 1500000.0 then 150000.0 + (taxable - 1200000.0) * 0.3
    else 240000.0 + (taxable - 1500000.0) * 0.3
  }

  /** The slab sum over the first k slabs of NewSlabs. */
  lemma NewSlabPrefixes(taxable: real)
    ensures Ascending(NewSlabs)
    ensures SlabSum(NewSlabs, taxable)
         == 0.05 * Overlap(0.0, 300000.0, taxable)
          + 0.1 * Overlap(300000.0, 600000.0, taxable)
          + 0.15 * Overlap(600000.0, 900000.0, taxable)
          + 0.2 * Overlap(900000.0, 1200000.0, taxable)
          + 0.3 * Overlap(1200000.0, 1500000.0, taxable)
  {
    NewSlabsAscending();
    var s := NewSlabs;
    assert s[..1][..0] == [];
    assert s[..2][..1] == s[..1];
    assert s[..3][..2] == s[..2];
    assert s[..4][..3] == s[..3];
    assert s[..5][..4] == s[..4];
    assert s[..5] == s;
    assert SlabSum(s[..1], taxable) == 0.05 * Overlap(0.0, 300000.0, taxable);
    assert SlabSum(s[..2], taxable) == SlabSum(s[..1], taxable) + 0.1 * Overlap(300000.0, 600000.0, taxable);
    assert SlabSum(s[..3], taxable) == SlabSum(s[..2], taxable) + 0.15 * Overlap(600000.0, 900000.0, taxable);
    assert SlabSum(s[..4], taxable) == SlabSum(s[..3], taxable) + 0.2 * Overlap(900000.0, 1200000.0, taxable);
    assert SlabSum(s[..5], taxable) == SlabSum(s[..4], taxable) + 0.3 * Overlap(1200000.0, 1500000.0, taxable);
  }

  /** The walk plus the top increment equals the table: at 1500000 and above
      nothing is counted twice. */
  lemma NewRegimeBracketTable(taxable: real)
    requires 0.0 <= taxable
    ensures NewRegimeBracket(taxable) == NewBracketTable(taxable)
  {
    NewSlabPrefixes(taxable);
  }

  lemma NewRegimeBracketMonotone(t1: real, t2: real)
    requires 0.0 <= t1 <= t2
    ensures NewRegimeBracket(t1) <= NewRegimeBracket(t2)
  {
    NewRegimeBracketTable(t1);
    NewRegimeBracketTable(t2);
  }

  /** Income less the standard deduction alone, floored at 0. */
  function NewTaxable(data: Record): (r: real)
    ensures 0.0 <= r && Income(data) - StandardDeduction(data) <= r
    ensures Income(data) <= StandardDeduction(data) ==> r == 0.0
    ensures StandardDeduction(data) < Income(data) ==> r == Income(data) - StandardDeduction(data)
  {
    Taxable(Income(data), StandardDeduction(data))
  }

  /** The value calculate_new_regime returns. */
  function NewRegimeTax(data: Record): (r: real)
    ensures 0.0 <= r
  {
    RoundCents(WithCess(NewRegimeBracket(NewTaxable(data))))
  }

  /** calculate_new_regime */
  method CalculateNewRegime(data: Record) returns (r: real)
    ensures r == NewRegimeTax(data)
  {
    var income := SafeFloat(Get(data, GrossSalary, Num(0.0)));
    var deductions := SafeFloat(Get(data, StandardDeductionKey, Num(DefaultStandardDeduction)));
    var taxable := if income - deductions < 0.0 then 0.0 else income - deductions;
    NewSlabsAscending();
    var tax, prev, steps := WalkSlabs(NewSlabs, taxable);
    if taxable > TopBandStart {
      tax := tax + (taxable - TopBandStart) * TopBandRate;
    }
    r := RoundCents(tax + tax * 0.04);
  }

  /** Only gross_salary and standard_deduction reach the new regime. */
  lemma NewRegimeIgnoresOtherFields(data: Record, key: string, v: Raw)
    requires key != GrossSalary && key != StandardDeductionKey
    ensures NewRegimeTax(data[key := v]) == NewRegimeTax(data)
    ensures NewRegimeTax(data - {key}) == NewRegimeTax(data)
  {
    assert NewTaxable(data[key := v]) == NewTaxable(data);
    assert NewTaxable(data - {key}) == NewTaxable(data);
  }

  /** Raising the gross salary with every other field fixed never lowers the new-regime tax. */
  lemma NewRegimeMonotoneInGross(data: Record, g1: real, g2: real)
    requires g1 <= g2
    ensures NewRegimeTax(data[GrossSalary := Num(g1)]) <= NewRegimeTax(data[GrossSalary := Num(g2)])
  {
    var d1, d2 := data[GrossSalary := Num(g1)], data[GrossSalary := Num(g2)];
    assert StandardDeduction(d1) == StandardDeduction(d2);
    assert NewTaxable(d1) <= NewTaxable(d2);
    NewRegimeBracketMonotone(NewTaxable(d1), NewTaxable(d2));
    RoundCentsMonotone(WithCess(NewRegimeBracket(NewTaxable(d1))), WithCess(NewRegimeBracket(NewTaxable(d2))));
  }

  /** Taxable 300000 pays 5% from the first rupee: 15000 before cess, 15600 after. */
  lemma NewRegimeFirstSlabIsTaxed()
    ensures NewRegimeTax(map[GrossSalary := Num(350000.0)]) == 15600.0
    ensures NewRegimeTax(map[GrossSalary := Num(650000.0)]) == 46800.0
  {
    NewRegimeBracketTable(300000.0);
    NewRegimeBracketTable(600000.0);
  }

  // ---------------------------------------------------------------------
  // Comparison

  datatype Regime = Old | New

  /** The name compare_regimes reports for a regime. */
  function RegimeName(g: Regime): (r: string)
    ensures r == "old" <==> g == Old
    ensures r == "new" <==> g == New
  {
    match g
    case Old => "old"
    case New => "new"
  }

  datatype Comparison = Comparison(
    taxOldRegime: real,
    taxNewRegime: real,
    bestRegime: Regime,
    selectedRegime: string)

  /** 'old' only when it is strictly cheaper; ties go to 'new'. */
  function BestRegime(oldTax: real, newTax: real): (r: Regime)
    ensures r == Old <==> oldTax < newTax
    ensures oldTax == newTax ==> r == New
  {
    if oldTax < newTax then Old else New
  }

  /** An empty record costs nothing under either regime, and the tie goes to 'new'. */
  lemma EmptyRecordTies()
    ensures CalculateOldRegime(map[]) == NewRegimeTax(map[]) == 0.0
    ensures BestRegime(CalculateOldRegime(map[]), NewRegimeTax(map[])) == New
  {
    NewRegimeBracketTable(0.0);
    RoundCentsExact(0);
  }

  /** compare_regimes: both taxes, the cheaper regime, and the selection echoed. */
  method CompareRegimes(data: Record, selected: string) returns (c: Comparison)
    ensures c.taxOldRegime == CalculateOldRegime(data)
    ensures c.taxNewRegime == NewRegimeTax(data)
    ensures c.bestRegime == Old <==> c.taxOldRegime < c.taxNewRegime
    ensures RegimeName(c.bestRegime) == if c.taxOldRegime < c.taxNewRegime then "old" else "new"
    ensures c.selectedRegime == selected
  {
    var oldTax := CalculateOldRegime(data);
    var newTax := CalculateNewRegime(data);
    var best := BestRegime(oldTax, newTax);
    c := Comparison(oldTax, newTax, best, selected);
  }
}
