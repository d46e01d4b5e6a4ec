/** The feature code of the customer-segmentation model: the derived feature
    table built from a batch of raw customer rows, the fixed list of
    continuous feature names, the split of the derived table into a
    continuous and a binary block, and the default segment names.

    Every batch statistic (quartile edges, maximum, group means) is taken
    over the batch at hand, exactly as the source does at training time and
    again at serving time. Numbers are reals; where the source would divide
    by zero (and produce inf or NaN) the model asks for a non-zero divisor. */
module Preprocessing {
  import opened Values
  import opened Quantiles

  const AgeCol := "Age"
  const IncomeCol := "Income"
  const PurchasesCol := "Purchases"
  const GenderCol := "Gender"
  const CustomerIdCol := "Customer_ID"
  const Male := "Male"
  const Female := "Female"

  /** The sixteen columns the feature code appends, in the order it appends them. */
  function DerivedNames(): seq<string> {
    [ "Is_Young_Adult", "Is_Middle_Aged", "Is_Senior", "IS_MALE",
      "Income_Quartile_Q2_Medium_Low", "Income_Quartile_Q3_Medium_High", "Income_Quartile_Q4_High",
      "Income_Age_Ratio",
      "Purchase_Quartile_Q2_Medium_Low", "Purchase_Quartile_Q3_Medium_High", "Purchase_Quartile_Q4_High",
      "Purchase_Intensity", "Age_Income_Ratio", "Purchase_Age_Ratio",
      "Income_Relative_To_Gender_Avg", "Purchases_Relative_To_Gender_Avg" ]
  }

  /** `get_numerical_features()`: the continuous block, in this order. */
  function NumericalFeatures(): (r: seq<string>)
    ensures |r| == 9 && r[..3] == [AgeCol, IncomeCol, PurchasesCol]
    ensures forall k :: 3 <= k < |r| ==> r[k] in DerivedNames()
  {
    [ "Age", "Income", "Purchases", "Income_Age_Ratio", "Purchase_Intensity",
      "Age_Income_Ratio", "Purchase_Age_Ratio", "Income_Relative_To_Gender_Avg",
      "Purchases_Relative_To_Gender_Avg" ]
  }

  /** The ten 0/1 indicator columns among the derived ones, in table order:
      the three age brackets, IS_MALE, the three income dummies and the
      three purchase dummies. */
  function IndicatorNames(): seq<string> {
    DerivedNames()[..7] + DerivedNames()[8..11]
  }

  /** `get_cluster_names()`: the default label of each of the three clusters. */
  function ClusterNames(): (r: map<int, string>)
    ensures 0 in r && 1 in r && 2 in r && forall k :: k in r ==> 0 <= k <= 2
  {
    map[0 := "Old", 1 := "Middle Aged", 2 := "Young"]
  }

  lemma NameListsDistinct()
    ensures Distinct(DerivedNames()) && Distinct(NumericalFeatures()) && Distinct(IndicatorNames())
  {
  }

  function Flag(c: bool): real {
    if c then 1.0 else 0.0
  }

  function Nums(xs: seq<real>): (r: seq<Value>)
    ensures |r| == |xs| && forall i :: 0 <= i < |xs| ==> r[i] == Num(xs[i])
  {
    seq(|xs|, i requires 0 <= i < |xs| => Num(xs[i]))
  }

  // ---------------------------------------------------------------------
  // Reading the raw columns

  /** `df[name]` used in arithmetic: a missing column is a KeyError, a
      non-numeric cell a TypeError. */
  function Numbers(t: Table, name: string): (r: Result<seq<real>>)
    ensures r.Ok? <==> NumericColumn(t, name)
    ensures !Has(t, name) ==> r == Err(MissingColumn(name))
    ensures Has(t, name) && !NumericColumn(t, name) ==> r == Err(NotNumeric(name))
    ensures r.Ok? ==> Has(t, name) && |r.value| == t.rows
    ensures r.Ok? ==> forall i :: 0 <= i < t.rows ==> Col(t.columns, name)[i] == Num(r.value[i])
  {
    if !Has(t, name) then Err(MissingColumn(name))
    else
      var cells := Col(t.columns, name);
      if forall i :: 0 <= i < |cells| ==> cells[i].Num? then
        Ok(seq(|cells|, i requires 0 <= i < |cells| && cells[i].Num? => cells[i].x))
      else Err(NotNumeric(name))
  }

  /** The column is present and every one of its cells is a number. */
  predicate NumericColumn(t: Table, name: string) {
    Has(t, name) && forall i :: 0 <= i < t.rows ==> Col(t.columns, name)[i].Num?
  }

  /** `df[name]` compared with a string: only a missing column fails. */
  function Cells(t: Table, name: string): (r: Result<seq<Value>>)
    ensures r.Ok? <==> Has(t, name)
    ensures r.Ok? ==> r.value == Col(t.columns, name) && |r.value| == t.rows
  {
    if Has(t, name) then Ok(Col(t.columns, name)) else Err(MissingColumn(name))
  }

  /** What the feature code reads from the batch, with both quartile codings. */
  datatype Batch = Batch(
    ages: seq<real>, genders: seq<Value>,
    incomes: seq<real>, incomeCodes: seq<int>,
    purchases: seq<real>, purchaseCodes: seq<int>)
  {
    predicate Valid(n: nat) {
      && |ages| == n && |genders| == n && |incomes| == n && |incomeCodes| == n
      && |purchases| == n && |purchaseCodes| == n && n >= 1
      && (forall i :: 0 <= i < n ==> 0 <= incomeCodes[i] <= 3)
      && (forall i :: 0 <= i < n ==> 0 <= purchaseCodes[i] <= 3)
    }
  }

  /** The lookups and the two qcut calls, in the order the source makes them:
      Age, Gender, Income, its quartiles, Purchases, its quartiles. */
  function Inputs(t: Table): (r: Result<Batch>)
    ensures r.Ok? ==> r.value.Valid(t.rows)
    ensures r.Ok? ==> Has(t, AgeCol) && Has(t, GenderCol) && Has(t, IncomeCol) && Has(t, PurchasesCol)
    ensures r.Ok? ==> r.value.genders == Col(t.columns, GenderCol)
    ensures r.Ok? ==> forall i :: 0 <= i < t.rows ==>
      && Col(t.columns, AgeCol)[i] == Num(r.value.ages[i])
      && Col(t.columns, IncomeCol)[i] == Num(r.value.incomes[i])
      && Col(t.columns, PurchasesCol)[i] == Num(r.value.purchases[i])
    ensures r.Ok? ==> Qcut(r.value.incomes, IncomeCol) == Ok(r.value.incomeCodes)
    ensures r.Ok? ==> Qcut(r.value.purchases, PurchasesCol) == Ok(r.value.purchaseCodes)
    // accepted exactly when every step below succeeds
    ensures r.Ok? <==>
      && NumericColumn(t, AgeCol) && Has(t, GenderCol) && NumericColumn(t, IncomeCol)
      && NumericColumn(t, PurchasesCol)
      && Qcut(Numbers(t, IncomeCol).value, IncomeCol).Ok?
      && Qcut(Numbers(t, PurchasesCol).value, PurchasesCol).Ok?
    // otherwise the first step that fails gives the error
    ensures !NumericColumn(t, AgeCol) ==> r == Err(Numbers(t, AgeCol).error)
    ensures NumericColumn(t, AgeCol) && !Has(t, GenderCol) ==> r == Err(MissingColumn(GenderCol))
    ensures (NumericColumn(t, AgeCol) && Has(t, GenderCol) && !NumericColumn(t, IncomeCol))
      ==> r == Err(Numbers(t, IncomeCol).error)
    ensures (NumericColumn(t, AgeCol) && Has(t, GenderCol) && NumericColumn(t, IncomeCol)
        && Qcut(Numbers(t, IncomeCol).value, IncomeCol).Err?)
      ==> r == Err(NonUniqueBinEdges(IncomeCol))
    ensures (NumericColumn(t, AgeCol) && Has(t, GenderCol) && NumericColumn(t, IncomeCol)
        && Qcut(Numbers(t, IncomeCol).value, IncomeCol).Ok? && !NumericColumn(t, PurchasesCol))
      ==> r == Err(Numbers(t, PurchasesCol).error)
    ensures (NumericColumn(t, AgeCol) && Has(t, GenderCol) && NumericColumn(t, IncomeCol)
        && Qcut(Numbers(t, IncomeCol).value, IncomeCol).Ok? && NumericColumn(t, PurchasesCol)
        && Qcut(Numbers(t, PurchasesCol).value, PurchasesCol).Err?)
      ==> r == Err(NonUniqueBinEdges(PurchasesCol))
  {
    var ages :- Numbers(t, AgeCol);
    var genders :- Cells(t, GenderCol);
    var incomes :- Numbers(t, IncomeCol);
    var incomeCodes :- Qcut(incomes, IncomeCol);
    var purchases :- Numbers(t, PurchasesCol);
    var purchaseCodes :- Qcut(purchases, PurchasesCol);
    Ok(Batch(ages, genders, incomes, incomeCodes, purchases, purchaseCodes))
  }

  // ---------------------------------------------------------------------
  // Batch statistics

  /** The largest of `xs[k..]`. */
  function MaxFrom(xs: seq<real>, k: nat): (m: real)
    requires k < |xs|
    ensures m in xs[k..]
    ensures forall i :: k <= i < |xs| ==> xs[i] <= m
    decreases |xs| - k
  {
    if k == |xs| - 1 then xs[k]
    else
      var rest := MaxFrom(xs, k + 1);
      assert xs[k + 1..] == xs[k..][1..];
      if xs[k] >= rest then xs[k] else rest
  }

  /** `series.max()` of a non-empty column. */
  function Max(xs: seq<real>): (m: real)
    requires |xs| >= 1
    ensures m in xs
    ensures forall i :: 0 <= i < |xs| ==> xs[i] <= m
  {
    assert xs[0..] == xs;
    MaxFrom(xs, 0)
  }

  /** The rows whose Gender cell is the string `g`. */
  function Group(gs: seq<Value>, g: string): (rows: set<int>)
    ensures forall i :: i in rows <==> 0 <= i < |gs| && gs[i] == Str(g)
  {
    set i | 0 <= i < |gs| && gs[i] == Str(g)
  }

  /** Number of rows whose Gender cell is the string `g`. */
  function GroupCount(gs: seq<Value>, g: string): nat {
    |Group(gs, g)|
  }

  /** Sum of `xs` over the rows whose Gender cell is `g`, computed by
      recursion on the rows. */
  function SumWhere(xs: seq<real>, gs: seq<Value>, g: string): real
    requires |xs| == |gs|
  {
    if xs == [] then 0.0
    else (if gs[0] == Str(g) then xs[0] else 0.0) + SumWhere(xs[1..], gs[1..], g)
  }

  /** Sum of `xs` over the rows whose Gender cell is the string `g`: a
      non-recursive name for SumWhere, so that the quotient in GroupMean and
      the lemmas about group means refer to one sum term the solver does not
      unfold (RelativeMeanIsOne needs this to stay cheap). */
  function GroupSum(xs: seq<real>, gs: seq<Value>, g: string): real
    requires |xs| == |gs|
  {
    SumWhere(xs, gs, g)
  }

  /** `df[df['Gender'] == g][col].mean()`. pandas gives NaN for an empty
      group; here that value is 0.0 and is never divided by (see
      GroupDivisorsNonZero). */
  function GroupMean(xs: seq<real>, gs: seq<Value>, g: string): (m: real)
    requires |xs| == |gs|
    ensures GroupCount(gs, g) == 0 ==> m == 0.0
  {
    if GroupCount(gs, g) == 0 then 0.0 else GroupSum(xs, gs, g) / GroupCount(gs, g) as real
  }

  /** A non-empty group's mean times its size is its sum. */
  lemma GroupMeanTimesCount(xs: seq<real>, gs: seq<Value>, g: string)
    requires |xs| == |gs| && GroupCount(gs, g) > 0
    ensures GroupMean(xs, gs, g) * GroupCount(gs, g) as real == GroupSum(xs, gs, g)
  {
    var c := GroupCount(gs, g) as real;
    assert GroupMean(xs, gs, g) == GroupSum(xs, gs, g) / c;
  }

  /** Every row's gender-relative divisor is non-zero: the Male mean for
      Male rows, the Female mean for every other row. */
  predicate GroupDivisorsNonZero(xs: seq<real>, gs: seq<Value>)
    requires |xs| == |gs|
  {
    forall i :: 0 <= i < |gs| ==>
      if gs[i] == Str(Male) then GroupMean(xs, gs, Male) != 0.0 else GroupMean(xs, gs, Female) != 0.0
  }

  /** The divisions of the feature code are defined: Age and Income are
      never zero, the largest purchase count is not zero, and the group
      means each row is divided by are not zero. */
  predicate SafeDivisors(b: Batch)
    requires b.Valid(|b.ages|)
  {
    && (forall i :: 0 <= i < |b.ages| ==> b.ages[i] != 0.0 && b.incomes[i] != 0.0)
    && Max(b.purchases) != 0.0
    && GroupDivisorsNonZero(b.incomes, b.genders)
    && GroupDivisorsNonZero(b.purchases, b.genders)
  }

  /** The divisors are non-zero whenever the lookups and the quartile cuts
      succeed (otherwise the source stops before dividing). */
  predicate DivisorsNonZero(t: Table) {
    Inputs(t).Ok? ==> SafeDivisors(Inputs(t).value)
  }

  /** No input column already carries one of the derived names. */
  predicate NoDerivedNames(t: Table) {
    forall n :: n in DerivedNames() ==> n !in Names(t.columns)
  }

  // ---------------------------------------------------------------------
  // The derived columns

  datatype AgeBrackets = AgeBrackets(youngAdult: seq<real>, middleAged: seq<real>, senior: seq<real>)

  /** Is_Young_Adult, Is_Middle_Aged, Is_Senior: each row has exactly one of
      the three set, chosen by the thresholds 30 and 50. */
  function AgeIndicators(ages: seq<real>): (r: AgeBrackets)
    ensures |r.youngAdult| == |ages| && |r.middleAged| == |ages| && |r.senior| == |ages|
    ensures forall i :: 0 <= i < |ages| ==>
      && r.youngAdult[i] + r.middleAged[i] + r.senior[i] == 1.0
      && (r.youngAdult[i] == 1.0 <==> ages[i] <= 30.0)
      && (r.middleAged[i] == 1.0 <==> 30.0 < ages[i] <= 50.0)
      && (r.senior[i] == 1.0 <==> 50.0 < ages[i])
      && r.youngAdult[i] in {0.0, 1.0} && r.middleAged[i] in {0.0, 1.0} && r.senior[i] in {0.0, 1.0}
  {
    AgeBrackets(
      seq(|ages|, i requires 0 <= i < |ages| => Flag(ages[i] <= 30.0)),
      seq(|ages|, i requires 0 <= i < |ages| => Flag(ages[i] > 30.0 && ages[i] <= 50.0)),
      seq(|ages|, i requires 0 <= i < |ages| => Flag(ages[i] > 50.0)))
  }

  /** IS_MALE: 1 exactly on the rows whose Gender is the string "Male"; any
      other value, whatever its type, gives 0. */
  function MaleIndicator(gs: seq<Value>): (r: seq<real>)
    ensures |r| == |gs|
    ensures forall i :: 0 <= i < |gs| ==> r[i] in {0.0, 1.0} && (r[i] == 1.0 <==> gs[i] == Str(Male))
  {
    seq(|gs|, i requires 0 <= i < |gs| => Flag(gs[i] == Str(Male)))
  }

  /** The three dummies left by `get_dummies(..., drop_first=True)`. */
  datatype Dummies = Dummies(q2: seq<real>, q3: seq<real>, q4: seq<real>)

  /** One-hot coding of the quartile codes without the Q1 column: at most one
      of the three is set, and none is exactly on the lowest bin. */
  function QuartileDummies(codes: seq<int>): (r: Dummies)
    requires forall i :: 0 <= i < |codes| ==> 0 <= codes[i] <= 3
    ensures |r.q2| == |codes| && |r.q3| == |codes| && |r.q4| == |codes|
    ensures forall i :: 0 <= i < |codes| ==>
      && r.q2[i] in {0.0, 1.0} && r.q3[i] in {0.0, 1.0} && r.q4[i] in {0.0, 1.0}
      && (r.q2[i] == 1.0 <==> codes[i] == 1)
      && (r.q3[i] == 1.0 <==> codes[i] == 2)
      && (r.q4[i] == 1.0 <==> codes[i] == 3)
      && r.q2[i] + r.q3[i] + r.q4[i] <= 1.0
      && (r.q2[i] + r.q3[i] + r.q4[i] == 0.0 <==> codes[i] == 0)
  {
    Dummies(
      seq(|codes|, i requires 0 <= i < |codes| => Flag(codes[i] == 1)),
      seq(|codes|, i requires 0 <= i < |codes| => Flag(codes[i] == 2)),
      seq(|codes|, i requires 0 <= i < |codes| => Flag(codes[i] == 3)))
  }

  /** Element-wise quotient: each entry times its divisor gives back the dividend. */
  function Ratio(num: seq<real>, den: seq<real>): (r: seq<real>)
    requires |num| == |den| && forall i :: 0 <= i < |den| ==> den[i] != 0.0
    ensures |r| == |num|
    ensures forall i :: 0 <= i < |num| ==> r[i] * den[i] == num[i]
  {
    seq(|num|, i requires 0 <= i < |num| => num[i] / den[i])
  }

  /** Income in thousands, the divisor of Age_Income_Ratio. */
  function Thousands(incomes: seq<real>): (r: seq<real>)
    ensures |r| == |incomes| && forall i :: 0 <= i < |incomes| ==> r[i] * 1000.0 == incomes[i]
    ensures forall i :: 0 <= i < |incomes| && incomes[i] != 0.0 ==> r[i] != 0.0
  {
    seq(|incomes|, i requires 0 <= i < |incomes| => incomes[i] / 1000.0)
  }

  /** y * m == x, kept as one atom so that callers match it without
      reasoning about the product. */
  predicate ProductIs(y: real, m: real, x: real) {
    y * m == x
  }

  /** Purchase_Intensity: purchases scaled by the batch maximum. */
  function Intensity(ps: seq<real>): (r: seq<real>)
    requires |ps| >= 1 && Max(ps) != 0.0
    ensures |r| == |ps|
    ensures forall i :: 0 <= i < |ps| ==> ProductIs(r[i], Max(ps), ps[i])
  {
    var m := Max(ps);
    seq(|ps|, i requires 0 <= i < |ps| => ps[i] / m)
  }

  /** The gender-relative ratio: Male rows divided by the Male mean, every
      other row (Female or any other value) by the Female mean. */
  function Relative(xs: seq<real>, gs: seq<Value>): (r: seq<real>)
    requires |xs| == |gs| && GroupDivisorsNonZero(xs, gs)
    ensures |r| == |xs|
    ensures forall i :: 0 <= i < |xs| && gs[i] == Str(Male) ==> ProductIs(r[i], GroupMean(xs, gs, Male), xs[i])
    ensures forall i :: 0 <= i < |xs| && gs[i] != Str(Male) ==> ProductIs(r[i], GroupMean(xs, gs, Female), xs[i])
  {
    var maleMean, femaleMean := GroupMean(xs, gs, Male), GroupMean(xs, gs, Female);
    seq(|xs|, i requires 0 <= i < |xs| =>
      var m := if gs[i] == Str(Male) then maleMean else femaleMean;
      QuotientTimesDivisor(xs[i], m);
      xs[i] / m)
  }

  lemma QuotientTimesDivisor(x: real, m: real)
    requires m != 0.0
    ensures ProductIs(x / m, m, x)
  {
  }

  datatype Engineered = Engineered(
    brackets: AgeBrackets, male: seq<real>,
    incomeDummies: Dummies, incomeAgeRatio: seq<real>,
    purchaseDummies: Dummies, purchaseIntensity: seq<real>,
    ageIncomeRatio: seq<real>, purchaseAgeRatio: seq<real>,
    incomeRelative: seq<real>, purchasesRelative: seq<real>)
  {
    /** Every engineered column has `n` entries. */
    predicate HasRows(n: nat) {
      && |brackets.youngAdult| == n && |brackets.middleAged| == n && |brackets.senior| == n
      && |male| == n && |incomeDummies.q2| == n && |incomeDummies.q3| == n && |incomeDummies.q4| == n
      && |incomeAgeRatio| == n && |purchaseDummies.q2| == n && |purchaseDummies.q3| == n
      && |purchaseDummies.q4| == n && |purchaseIntensity| == n && |ageIncomeRatio| == n
      && |purchaseAgeRatio| == n && |incomeRelative| == n && |purchasesRelative| == n
    }
  }

  function Engineer(b: Batch): (e: Engineered)
    requires b.Valid(|b.ages|) && SafeDivisors(b)
    ensures e.HasRows(|b.ages|)
    ensures forall i :: 0 <= i < |b.ages| ==>
      && (e.male[i] == 1.0 <==> b.genders[i] == Str(Male))
      && e.brackets.youngAdult[i] + e.brackets.middleAged[i] + e.brackets.senior[i] == 1.0
      && (e.incomeDummies.q2[i] + e.incomeDummies.q3[i] + e.incomeDummies.q4[i] == 0.0 <==> b.incomeCodes[i] == 0)
      && (e.purchaseDummies.q2[i] + e.purchaseDummies.q3[i] + e.purchaseDummies.q4[i] == 0.0 <==> b.purchaseCodes[i] == 0)
    ensures Quotients(e.incomeAgeRatio, b.incomes, b.ages) && Quotients(e.purchaseAgeRatio, b.purchases, b.ages)
    ensures Quotients(e.ageIncomeRatio, b.ages, Thousands(b.incomes))
  {
    var incomeAge, purchaseAge := Ratio(b.incomes, b.ages), Ratio(b.purchases, b.ages);
    var ageIncome := Ratio(b.ages, Thousands(b.incomes));
    RatioQuotients(b.incomes, b.ages);
    RatioQuotients(b.purchases, b.ages);
    RatioQuotients(b.ages, Thousands(b.incomes));
    Engineered(
      AgeIndicators(b.ages), MaleIndicator(b.genders),
      QuartileDummies(b.incomeCodes), incomeAge,
      QuartileDummies(b.purchaseCodes), Intensity(b.purchases),
      ageIncome, purchaseAge,
      Relative(b.incomes, b.genders), Relative(b.purchases, b.genders))
  }

  /** Each entry of `q` times the divisor in its row gives the dividend. */
  predicate Quotients(q: seq<real>, num: seq<real>, den: seq<real>) {
    |q| == |num| == |den| && forall i :: 0 <= i < |q| ==> q[i] * den[i] == num[i]
  }

  lemma RatioQuotients(num: seq<real>, den: seq<real>)
    requires |num| == |den| && forall i :: 0 <= i < |den| ==> den[i] != 0.0
    ensures Quotients(Ratio(num, den), num, den)
  {
  }

  /** The derived columns under their names, in the order they are added. */
  function EngineeredColumns(e: Engineered): (cs: seq<Column>)
    ensures Names(cs) == DerivedNames()
    ensures forall n: nat, k :: e.HasRows(n) && 0 <= k < |cs| ==> |cs[k].cells| == n
  {
    var names := DerivedNames();
    [ Column(names[0], Nums(e.brackets.youngAdult)), Column(names[1], Nums(e.brackets.middleAged)),
      Column(names[2], Nums(e.brackets.senior)), Column(names[3], Nums(e.male)),
      Column(names[4], Nums(e.incomeDummies.q2)), Column(names[5], Nums(e.incomeDummies.q3)),
      Column(names[6], Nums(e.incomeDummies.q4)), Column(names[7], Nums(e.incomeAgeRatio)),
      Column(names[8], Nums(e.purchaseDummies.q2)), Column(names[9], Nums(e.purchaseDummies.q3)),
      Column(names[10], Nums(e.purchaseDummies.q4)), Column(names[11], Nums(e.purchaseIntensity)),
      Column(names[12], Nums(e.ageIncomeRatio)), Column(names[13], Nums(e.purchaseAgeRatio)),
      Column(names[14], Nums(e.incomeRelative)), Column(names[15], Nums(e.purchasesRelative)) ]
  }

  lemma {:induction false} DistinctAppend(a: seq<string>, b: seq<string>)
    requires Distinct(a) && Distinct(b) && forall x :: x in a ==> x !in b
    ensures Distinct(a + b)
  {
    forall i, j | 0 <= i < j < |a + b| ensures (a + b)[i] != (a + b)[j] {
      if i < |a| && j >= |a| { assert (a + b)[i] in a && (a + b)[j] in b; }
    }
  }

  lemma NamesAppend(a: seq<Column>, b: seq<Column>)
    ensures Names(a + b) == Names(a) + Names(b)
  {
  }

  /** The input columns the derived table keeps: all but Gender and Customer_ID. */
  function Kept(t: Table): (cs: seq<Column>)
    ensures Names(cs) == FilterOut(Names(t.columns), {GenderCol, CustomerIdCol})
    ensures forall c :: c in cs <==> c in t.columns && c.name != GenderCol && c.name != CustomerIdCol
  {
    DropNamed(t.columns, {GenderCol, CustomerIdCol})
  }

  /** The derived table of a batch that passed every lookup: the kept input
      columns followed by the engineered ones. */
  function Assemble(t: Table, e: Engineered): (d: Table)
    requires NoDerivedNames(t) && e.HasRows(t.rows)
    ensures d.rows == t.rows
    ensures d.columns == Kept(t) + EngineeredColumns(e)
    ensures Names(d.columns) == FilterOut(Names(t.columns), {GenderCol, CustomerIdCol}) + DerivedNames()
  {
    var derived := EngineeredColumns(e);
    assert forall c :: c in derived ==> |c.cells| == t.rows;
    DerivedFrameWellFormed(t, derived);
    NamesAppend(Kept(t), derived);
    Frame(t.rows, Kept(t) + derived)
  }

  /** `calculate_derived_features(df)`. The result keeps the row count and
      every input column except Gender and Customer_ID (same order, same
      cells) and appends the sixteen derived columns; a missing or
      non-numeric input column, or quartile edges that are not all different,
      reject the whole batch. */
  function Derive(t: Table): (r: Result<Table>)
    requires NoDerivedNames(t) && DivisorsNonZero(t)
    ensures Inputs(t).Err? ==> r == Err(Inputs(t).error)
    ensures Inputs(t).Ok? && !Has(t, CustomerIdCol) ==> r == Err(MissingColumn(CustomerIdCol))
    ensures r.Ok? <==> Inputs(t).Ok? && Has(t, CustomerIdCol)
    ensures r.Ok? ==> r.value.rows == t.rows
    ensures r.Ok? ==> Names(r.value.columns) == FilterOut(Names(t.columns), {GenderCol, CustomerIdCol}) + DerivedNames()
    ensures r.Ok? ==> r.value.columns[..|Kept(t)|] == Kept(t)
  {
    var b :- Inputs(t);
    if !Has(t, CustomerIdCol) then Err(MissingColumn(CustomerIdCol))
    else
      var d := Assemble(t, Engineer(b));
      assert d.columns[..|Kept(t)|] == Kept(t);
      Ok(d)
  }

  lemma DerivedFrameWellFormed(t: Table, derived: seq<Column>)
    requires NoDerivedNames(t) && Names(derived) == DerivedNames()
    requires forall c :: c in derived ==> |c.cells| == t.rows
    ensures WellFormed(Frame(t.rows, Kept(t) + derived))
  {
    var kept := Kept(t);
    NameListsDistinct();
    DistinctAppend(Names(kept), Names(derived));
    NamesAppend(kept, derived);
    assert forall i :: 0 <= i < |kept| ==> kept[i] in t.columns;
    forall i | 0 <= i < |kept + derived| ensures |(kept + derived)[i].cells| == t.rows {
      if i >= |kept| { assert (kept + derived)[i] in derived; }
      else {
        assert kept[i] in t.columns;
        var j :| 0 <= j < |t.columns| && t.columns[j] == kept[i];
      }
    }
  }

  // ---------------------------------------------------------------------
  // Properties of the derived table

  /** The derived table drops Gender and Customer_ID and nothing else: every
      other input column is still there, unchanged. */
  lemma DeriveDropsOnlyGenderAndId(t: Table, d: Table)
    requires NoDerivedNames(t) && DivisorsNonZero(t) && Derive(t) == Ok(d)
    ensures d.rows == t.rows
    ensures GenderCol !in Names(d.columns) && CustomerIdCol !in Names(d.columns)
    ensures forall c :: c in t.columns && c.name != GenderCol && c.name != CustomerIdCol ==> c in d.columns
  {
    DeriveAssembles(t, d);
    var b := Inputs(t).value;
    var kept, derived := Kept(t), EngineeredColumns(Engineer(b));
    assert d.columns == kept + derived;
    assert GenderCol !in DerivedNames() && CustomerIdCol !in DerivedNames();
    assert GenderCol !in Names(kept) && CustomerIdCol !in Names(kept);
    forall c | c in t.columns && c.name != GenderCol && c.name != CustomerIdCol
      ensures c in d.columns
    {
      assert c in kept;
    }
  }

  /** A successful derivation is the assembly of the engineered batch. */
  lemma DeriveAssembles(t: Table, d: Table)
    requires NoDerivedNames(t) && DivisorsNonZero(t) && Derive(t) == Ok(d)
    ensures Inputs(t).Ok? && SafeDivisors(Inputs(t).value)
    ensures d == Assemble(t, Engineer(Inputs(t).value))
  {
  }

  /** In an assembled table the column under the k-th derived name holds
      the k-th engineered column. */
  lemma AssembledColumnAt(t: Table, e: Engineered, k: nat)
    requires NoDerivedNames(t) && e.HasRows(t.rows) && k < |DerivedNames()|
    ensures Has(Assemble(t, e), DerivedNames()[k])
    ensures Col(Assemble(t, e).columns, DerivedNames()[k]) == EngineeredColumns(e)[k].cells
  {
    var d := Assemble(t, e);
    var j := |Kept(t)| + k;
    assert d.columns[j] == EngineeredColumns(e)[k];
    assert Names(d.columns)[j] == DerivedNames()[k];
    ColAt(d.columns, j);
  }

  /** A successful derivation assembles engineered columns whose indicator
      parts are the age brackets, the Male flag and the quartile dummies of
      the batch that was read. */
  lemma DerivedIndicatorParts(t: Table, d: Table) returns (e: Engineered)
    requires NoDerivedNames(t) && DivisorsNonZero(t) && Derive(t) == Ok(d)
    ensures Inputs(t).Ok? && e.HasRows(t.rows) && d == Assemble(t, e)
    ensures e.brackets == AgeIndicators(Inputs(t).value.ages)
    ensures e.male == MaleIndicator(Inputs(t).value.genders)
    ensures e.incomeDummies == QuartileDummies(Inputs(t).value.incomeCodes)
    ensures e.purchaseDummies == QuartileDummies(Inputs(t).value.purchaseCodes)
  {
    DeriveAssembles(t, d);
    e := Engineer(Inputs(t).value);
  }

  /** In every row of the derived table exactly one age bracket is 1, chosen
      by the row's Age, and IS_MALE is 1 exactly when Gender is "Male". */
  lemma DerivedIndicators(t: Table, d: Table, i: nat)
    requires NoDerivedNames(t) && DivisorsNonZero(t) && Derive(t) == Ok(d) && i < t.rows
    ensures var age := Inputs(t).value.ages[i];
      && Series(d, "Is_Young_Adult")[i] == Num(Flag(age <= 30.0))
      && Series(d, "Is_Middle_Aged")[i] == Num(Flag(30.0 < age <= 50.0))
      && Series(d, "Is_Senior")[i] == Num(Flag(50.0 < age))
      && Flag(age <= 30.0) + Flag(30.0 < age <= 50.0) + Flag(50.0 < age) == 1.0
    ensures Series(d, "IS_MALE")[i] == Num(Flag(Inputs(t).value.genders[i] == Str(Male)))
  {
    var e := DerivedIndicatorParts(t, d);
    AssembledColumnAt(t, e, 0);
    AssembledColumnAt(t, e, 1);
    AssembledColumnAt(t, e, 2);
    AssembledColumnAt(t, e, 3);
  }

  /** The three income (resp. purchase) dummies of a row are the one-hot code
      of the quartile bin its Income (resp. Purchases) falls in, Q1 dropped. */
  lemma DerivedQuartileDummies(t: Table, d: Table, i: nat)
    requires NoDerivedNames(t) && DivisorsNonZero(t) && Derive(t) == Ok(d) && i < t.rows
    ensures var code := Inputs(t).value.incomeCodes[i];
      && Series(d, "Income_Quartile_Q2_Medium_Low")[i] == Num(Flag(code == 1))
      && Series(d, "Income_Quartile_Q3_Medium_High")[i] == Num(Flag(code == 2))
      && Series(d, "Income_Quartile_Q4_High")[i] == Num(Flag(code == 3))
    ensures var code := Inputs(t).value.purchaseCodes[i];
      && Series(d, "Purchase_Quartile_Q2_Medium_Low")[i] == Num(Flag(code == 1))
      && Series(d, "Purchase_Quartile_Q3_Medium_High")[i] == Num(Flag(code == 2))
      && Series(d, "Purchase_Quartile_Q4_High")[i] == Num(Flag(code == 3))
  {
    var e := DerivedIndicatorParts(t, d);
    AssembledColumnAt(t, e, 4);
    AssembledColumnAt(t, e, 5);
    AssembledColumnAt(t, e, 6);
    AssembledColumnAt(t, e, 8);
    AssembledColumnAt(t, e, 9);
    AssembledColumnAt(t, e, 10);
  }

  /** The six ratio columns of `d` hold the ratios of batch `b`. */
  predicate HoldsRatios(d: Table, b: Batch)
    requires b.Valid(|b.ages|) && SafeDivisors(b)
    requires Has(d, "Income_Age_Ratio") && Has(d, "Purchase_Intensity") && Has(d, "Age_Income_Ratio")
    requires Has(d, "Purchase_Age_Ratio") && Has(d, "Income_Relative_To_Gender_Avg")
    requires Has(d, "Purchases_Relative_To_Gender_Avg")
  {
    HoldsAgeRatios(d, b.ages, b.incomes, b.purchases) && HoldsScaledColumns(d, b)
  }

  /** Income_Age_Ratio is Income/Age, Age_Income_Ratio is Age/(Income/1000)
      and Purchase_Age_Ratio is Purchases/Age. */
  predicate HoldsAgeRatios(d: Table, ages: seq<real>, incomes: seq<real>, purchases: seq<real>)
    requires |incomes| == |ages| && |purchases| == |ages|
    requires forall i :: 0 <= i < |ages| ==> ages[i] != 0.0 && incomes[i] != 0.0
    requires Has(d, "Income_Age_Ratio") && Has(d, "Age_Income_Ratio") && Has(d, "Purchase_Age_Ratio")
  {
    && Series(d, "Income_Age_Ratio") == Nums(Ratio(incomes, ages))
    && Series(d, "Age_Income_Ratio") == Nums(Ratio(ages, Thousands(incomes)))
    && Series(d, "Purchase_Age_Ratio") == Nums(Ratio(purchases, ages))
  }

  /** Purchase_Intensity is Purchases over the batch maximum, and the two
      relative columns are Income and Purchases over the mean of the row's
      gender group. */
  predicate HoldsScaledColumns(d: Table, b: Batch)
    requires b.Valid(|b.ages|) && SafeDivisors(b)
    requires Has(d, "Purchase_Intensity") && Has(d, "Income_Relative_To_Gender_Avg")
    requires Has(d, "Purchases_Relative_To_Gender_Avg")
  {
    && Series(d, "Purchase_Intensity") == Nums(Intensity(b.purchases))
    && Series(d, "Income_Relative_To_Gender_Avg") == Nums(Relative(b.incomes, b.genders))
    && Series(d, "Purchases_Relative_To_Gender_Avg") == Nums(Relative(b.purchases, b.genders))
  }

  /** The ratio columns of a derived table are those of the batch that was read. */
  lemma DerivedRatios(t: Table, d: Table)
    requires NoDerivedNames(t) && DivisorsNonZero(t) && Derive(t) == Ok(d)
    ensures Inputs(t).Ok? && SafeDivisors(Inputs(t).value)
    ensures Has(d, "Income_Age_Ratio") && Has(d, "Purchase_Intensity") && Has(d, "Age_Income_Ratio")
    ensures Has(d, "Purchase_Age_Ratio") && Has(d, "Income_Relative_To_Gender_Avg")
    ensures Has(d, "Purchases_Relative_To_Gender_Avg")
    ensures HoldsRatios(d, Inputs(t).value)
  {
    DeriveAssembles(t, d);
    var e := Engineer(Inputs(t).value);
    AssembledColumnAt(t, e, 7);
    AssembledColumnAt(t, e, 11);
    AssembledColumnAt(t, e, 12);
    AssembledColumnAt(t, e, 13);
    AssembledColumnAt(t, e, 14);
    AssembledColumnAt(t, e, 15);
  }

  /** The numbers of a column of numeric cells (0 for any other cell). */
  function Reals(vs: seq<Value>): (r: seq<real>)
    ensures |r| == |vs| && forall i :: 0 <= i < |vs| && vs[i].Num? ==> r[i] == vs[i].x
  {
    seq(|vs|, i requires 0 <= i < |vs| => if vs[i].Num? then vs[i].x else 0.0)
  }

  lemma RealsOfNums(xs: seq<real>)
    ensures Reals(Nums(xs)) == xs
  {
  }

  /** In the derived table, with no negative Purchases, every
      Purchase_Intensity cell is a number in [0, 1], and it is 1 exactly on
      the rows holding the batch maximum. */
  lemma DerivedIntensityBounds(t: Table, d: Table)
    requires NoDerivedNames(t) && DivisorsNonZero(t) && Derive(t) == Ok(d)
    requires forall i :: 0 <= i < t.rows ==> 0.0 <= Inputs(t).value.purchases[i]
    ensures var ps, c := Inputs(t).value.purchases, Series(d, "Purchase_Intensity");
      forall i :: 0 <= i < t.rows ==>
        && c[i].Num? && 0.0 <= c[i].x <= 1.0
        && (c[i].x == 1.0 <==> ps[i] == Max(ps))
  {
    DerivedRatios(t, d);
    IntensityCells(Series(d, "Purchase_Intensity"), Inputs(t).value.purchases);
  }

  /** IntensityBounds, read off a column of number cells. */
  lemma IntensityCells(c: seq<Value>, ps: seq<real>)
    requires |ps| >= 1 && Max(ps) != 0.0 && c == Nums(Intensity(ps))
    requires forall i :: 0 <= i < |ps| ==> 0.0 <= ps[i]
    ensures forall i :: 0 <= i < |ps| ==>
      && c[i].Num? && 0.0 <= c[i].x <= 1.0
      && (c[i].x == 1.0 <==> ps[i] == Max(ps))
  {
    var r := Intensity(ps);
    IntensityBounds(ps);
    forall i | 0 <= i < |ps|
      ensures c[i].Num? && 0.0 <= c[i].x <= 1.0 && (c[i].x == 1.0 <==> ps[i] == Max(ps))
    {
      assert c[i] == Num(r[i]);
    }
  }

  /** In every row of the derived table Income_Age_Ratio times Age is Income,
      Purchase_Age_Ratio times Age is Purchases, and Age_Income_Ratio times
      Income_Age_Ratio is 1000. */
  lemma DerivedRatioIdentities(t: Table, d: Table, i: nat)
    requires NoDerivedNames(t) && DivisorsNonZero(t) && Derive(t) == Ok(d) && i < t.rows
    ensures var b := Inputs(t).value;
      && Scales(Series(d, "Income_Age_Ratio")[i], b.ages[i], b.incomes[i])
      && Scales(Series(d, "Purchase_Age_Ratio")[i], b.ages[i], b.purchases[i])
    ensures Series(d, "Age_Income_Ratio")[i].Num? && Series(d, "Income_Age_Ratio")[i].Num?
    ensures Series(d, "Age_Income_Ratio")[i].x * Series(d, "Income_Age_Ratio")[i].x == 1000.0
  {
    DerivedRatios(t, d);
    var b := Inputs(t).value;
    QuotientCell(d, "Income_Age_Ratio", b.incomes, b.ages, i);
    QuotientCell(d, "Purchase_Age_Ratio", b.purchases, b.ages, i);
    ReciprocalCells(d, b.ages, b.incomes, i);
  }

  /** The cell is a number that, multiplied by `factor`, gives `product`. */
  predicate Scales(cell: Value, factor: real, product: real) {
    cell.Num? && cell.x * factor == product
  }

  /** A column holding the quotients num/den holds, in row i, a number that
      times den[i] gives num[i]. */
  lemma QuotientCell(d: Table, name: string, num: seq<real>, den: seq<real>, i: nat)
    requires |num| == |den| && i < |den| && forall j :: 0 <= j < |den| ==> den[j] != 0.0
    requires Has(d, name) && Series(d, name) == Nums(Ratio(num, den))
    ensures Scales(Series(d, name)[i], den[i], num[i])
  {
    var q := Ratio(num, den);
    assert Series(d, name)[i] == Num(q[i]);
    assert q[i] * den[i] == num[i];
  }

  /** Age_Income_Ratio times Income_Age_Ratio is 1000 in every row. */
  lemma ReciprocalCells(d: Table, ages: seq<real>, incomes: seq<real>, i: nat)
    requires |incomes| == |ages| && i < |ages|
    requires forall j :: 0 <= j < |ages| ==> ages[j] != 0.0 && incomes[j] != 0.0
    requires Has(d, "Income_Age_Ratio") && Has(d, "Age_Income_Ratio")
    requires Series(d, "Income_Age_Ratio") == Nums(Ratio(incomes, ages))
    requires Series(d, "Age_Income_Ratio") == Nums(Ratio(ages, Thousands(incomes)))
    ensures Series(d, "Age_Income_Ratio")[i].Num? && Series(d, "Income_Age_Ratio")[i].Num?
    ensures Series(d, "Age_Income_Ratio")[i].x * Series(d, "Income_Age_Ratio")[i].x == 1000.0
  {
    var incomeAge, ageIncome := Ratio(incomes, ages), Ratio(ages, Thousands(incomes));
    assert Series(d, "Income_Age_Ratio")[i] == Num(incomeAge[i]);
    assert Series(d, "Age_Income_Ratio")[i] == Num(ageIncome[i]);
    RatioIdentities(ages, incomes, i);
  }

  /** In the derived table both gender-relative columns average exactly 1
      over the Male rows, and likewise over the Female rows. */
  lemma DerivedRelativeMeanIsOne(t: Table, d: Table, g: string)
    requires NoDerivedNames(t) && DivisorsNonZero(t) && Derive(t) == Ok(d)
    requires (g == Male || g == Female) && GroupCount(Inputs(t).value.genders, g) > 0
    ensures var gs := Inputs(t).value.genders;
      && GroupMean(Reals(Series(d, "Income_Relative_To_Gender_Avg")), gs, g) == 1.0
      && GroupMean(Reals(Series(d, "Purchases_Relative_To_Gender_Avg")), gs, g) == 1.0
  {
    DerivedRatios(t, d);
    var b := Inputs(t).value;
    RealsOfNums(Relative(b.incomes, b.genders));
    RealsOfNums(Relative(b.purchases, b.genders));
    RelativeMeanIsOne(b.incomes, b.genders, g);
    RelativeMeanIsOne(b.purchases, b.genders, g);
  }

  /** With no negative purchase count, Purchase_Intensity lies in [0, 1] and
      is 1 exactly on the rows holding the batch maximum (so on at least one). */
  lemma IntensityBounds(ps: seq<real>)
    requires |ps| >= 1 && Max(ps) != 0.0
    requires forall i :: 0 <= i < |ps| ==> 0.0 <= ps[i]
    ensures forall i :: 0 <= i < |ps| ==> 0.0 <= Intensity(ps)[i] <= 1.0
    ensures forall i :: 0 <= i < |ps| ==> (Intensity(ps)[i] == 1.0 <==> ps[i] == Max(ps))
    ensures exists i :: 0 <= i < |ps| && Intensity(ps)[i] == 1.0
  {
    var m, r := Max(ps), Intensity(ps);
    forall i | 0 <= i < |ps|
      ensures 0.0 <= r[i] <= 1.0 && (r[i] == 1.0 <==> ps[i] == m)
    {
      assert ps[i] <= m;
      assert 0.0 <= ps[i];
      QuotientInUnit(ps[i], m, r[i]);
    }
    var k :| 0 <= k < |ps| && ps[k] == m;
  }

  lemma QuotientInUnit(p: real, m: real, q: real)
    requires 0.0 <= p <= m && m != 0.0 && ProductIs(q, m, p)
    ensures 0.0 <= q <= 1.0 && (q == 1.0 <==> p == m)
  {
  }

  /** The two age/income ratios are reciprocal up to the factor 1000:
      Age_Income_Ratio * Income_Age_Ratio = 1000 on every row. */
  lemma RatioIdentities(ages: seq<real>, incomes: seq<real>, i: nat)
    requires |ages| == |incomes| && i < |ages|
    requires forall j :: 0 <= j < |ages| ==> ages[j] != 0.0 && incomes[j] != 0.0
    ensures Ratio(ages, Thousands(incomes))[i] * Ratio(incomes, ages)[i] == 1000.0
  {
    var k := Thousands(incomes);
    Reciprocal(ages[i], incomes[i], k[i], Ratio(ages, k)[i], Ratio(incomes, ages)[i]);
  }

  lemma Reciprocal(a: real, inc: real, k: real, x: real, y: real)
    requires a != 0.0 && x * k == a && k * 1000.0 == inc && y * a == inc
    ensures x * y == 1000.0
  {
    calc {
      x * y * a;
      x * inc;
      x * k * 1000.0;
      a * 1000.0;
    }
  }

  /** Dividing each group member by m divides the group sum by m. */
  lemma {:induction false} GroupSumScaled(xs: seq<real>, ys: seq<real>, gs: seq<Value>, g: string, m: real)
    requires |xs| == |gs| && |ys| == |gs| && m != 0.0
    requires forall i :: 0 <= i < |gs| && gs[i] == Str(g) ==> ProductIs(ys[i], m, xs[i])
    ensures GroupSum(ys, gs, g) * m == GroupSum(xs, gs, g)
  {
    if xs != [] {
      GroupSumScaled(xs[1..], ys[1..], gs[1..], g, m);
      var head := if gs[0] == Str(g) then ys[0] else 0.0;
      var tail := GroupSum(ys[1..], gs[1..], g);
      assert GroupSum(ys, gs, g) == head + tail;
      assert (head + tail) * m == head * m + tail * m;
    }
  }

  /** Over the Male rows, and likewise over the Female rows, the
      gender-relative ratio averages exactly 1. */
  lemma RelativeMeanIsOne(xs: seq<real>, gs: seq<Value>, g: string)
    requires |xs| == |gs| && GroupDivisorsNonZero(xs, gs)
    requires (g == Male || g == Female) && GroupCount(gs, g) > 0
    ensures GroupMean(Relative(xs, gs), gs, g) == 1.0
  {
    var r := Relative(xs, gs);
    var m := GroupMean(xs, gs, g);
    var sum, count, relSum := GroupSum(xs, gs, g), GroupCount(gs, g) as real, GroupSum(r, gs, g);
    assert m == sum / count && m != 0.0 && relSum * m == sum by {
      RelativeInGroup(xs, gs, g);
      GroupSumScaled(xs, r, gs, g, m);
    }
    MeanOfScaled(sum, count, m, relSum);
  }

  /** Within the Male (or Female) group every row is divided by that group's
      own mean, which is not zero. */
  lemma RelativeInGroup(xs: seq<real>, gs: seq<Value>, g: string)
    requires |xs| == |gs| && GroupDivisorsNonZero(xs, gs)
    requires (g == Male || g == Female) && GroupCount(gs, g) > 0
    ensures GroupMean(xs, gs, g) != 0.0
    ensures forall j :: 0 <= j < |gs| && gs[j] == Str(g) ==> ProductIs(Relative(xs, gs)[j], GroupMean(xs, gs, g), xs[j])
  {
    GroupMeanNonZero(xs, gs, g);
    var r := Relative(xs, gs);
    forall j | 0 <= j < |gs| && gs[j] == Str(g) ensures ProductIs(r[j], GroupMean(xs, gs, g), xs[j]) {
      if g == Female {
        assert Str(Male) != Str(Female);
      }
    }
  }

  /** A non-empty Male or Female group's mean is a divisor some row uses. */
  lemma GroupMeanNonZero(xs: seq<real>, gs: seq<Value>, g: string)
    requires |xs| == |gs| && GroupDivisorsNonZero(xs, gs)
    requires (g == Male || g == Female) && GroupCount(gs, g) > 0
    ensures GroupMean(xs, gs, g) != 0.0
  {
    assert Group(gs, g) != {};
    var i :| i in Group(gs, g);
    assert 0 <= i < |gs| && gs[i] == Str(g);
    if g == Female {
      assert Str(Male) != Str(Female);
      assert gs[i] != Str(Male);
    }
  }

  /** If m = s / c is not zero and y * m = s then y = c. */
  lemma MeanOfScaled(s: real, c: real, m: real, y: real)
    requires c > 0.0 && m == s / c && m != 0.0 && y * m == s
    ensures y == c && y / c == 1.0
  {
    assert m * c == s;
    assert y * m == c * m;
  }

  /** A one-row batch always has five equal Income edges and is rejected,
      even though input validation accepts it. */
  lemma SingleRowBatchRejected(t: Table)
    requires NoDerivedNames(t) && t.rows == 1
    requires Numbers(t, AgeCol).Ok? && Has(t, GenderCol) && Numbers(t, IncomeCol).Ok?
    ensures DivisorsNonZero(t)
    ensures Derive(t) == Err(NonUniqueBinEdges(IncomeCol))
  {
    var incomes := Numbers(t, IncomeCol).value;
    TiedBatchRejected(incomes, incomes[0], IncomeCol);
  }

  /** No two rows of the column hold the same cell. */
  predicate PairwiseDifferent(t: Table, name: string)
    requires Has(t, name)
  {
    forall i, j :: 0 <= i < j < t.rows ==> Col(t.columns, name)[i] != Col(t.columns, name)[j]
  }

  /** The batches the feature code accepts include every batch of two or
      more rows whose Age, Income and Purchases cells are numbers, which has
      Gender and Customer_ID columns, and whose Income values, and likewise
      Purchases values, are pairwise different. */
  lemma DeriveAccepts(t: Table)
    requires NoDerivedNames(t) && DivisorsNonZero(t) && t.rows >= 2
    requires NumericColumn(t, AgeCol) && NumericColumn(t, IncomeCol) && NumericColumn(t, PurchasesCol)
    requires Has(t, GenderCol) && Has(t, CustomerIdCol)
    requires PairwiseDifferent(t, IncomeCol) && PairwiseDifferent(t, PurchasesCol)
    ensures Derive(t).Ok? && PrepareFeatures(t).Ok?
  {
    DifferentNumbersAccepted(t, IncomeCol);
    DifferentNumbersAccepted(t, PurchasesCol);
  }

  /** Pairwise different numbers cut into four distinct quartile bins. */
  lemma DifferentNumbersAccepted(t: Table, name: string)
    requires t.rows >= 2 && NumericColumn(t, name) && PairwiseDifferent(t, name)
    ensures Numbers(t, name).Ok? && Qcut(Numbers(t, name).value, name).Ok?
  {
    var xs := Numbers(t, name).value;
    forall i, j | 0 <= i < j < |xs| ensures xs[i] != xs[j] {
      assert Col(t.columns, name)[i] != Col(t.columns, name)[j];
    }
    DistinctBatchAccepted(xs, name);
  }

  // ---------------------------------------------------------------------
  // Splitting the derived table

  /** `df[names]`: the named columns, in the order of `names`. */
  function Select(cs: seq<Column>, names: seq<string>): (r: seq<Column>)
    requires forall n :: n in names ==> n in Names(cs)
    ensures Names(r) == names
    ensures forall k :: 0 <= k < |names| ==> r[k].cells == Col(cs, names[k])
  {
    seq(|names|, k requires 0 <= k < |names| => Column(names[k], Col(cs, names[k])))
  }

  lemma {:induction false} DistinctCard(xs: seq<string>)
    requires Distinct(xs)
    ensures |Elems(xs)| == |xs|
  {
    if xs != [] {
      var rest := xs[1..];
      assert Distinct(rest) by {
        forall i, j | 0 <= i < j < |rest| ensures rest[i] != rest[j] { assert xs[i + 1] != xs[j + 1]; }
      }
      DistinctCard(rest);
      assert xs[0] !in rest by {
        forall j | 0 <= j < |rest| ensures rest[j] != xs[0] { assert xs[j + 1] != xs[0]; }
      }
      assert Elems(xs) == Elems(rest) + {xs[0]};
    }
  }

  /** `prepare_features_for_training`'s split: the continuous block is the
      nine `get_numerical_features()` columns in that order, the binary block
      every other column in table order; each column of the table is in
      exactly one block. A missing continuous column is a KeyError. */
  function Split(d: Table): (r: Result<(Table, Table)>)
    ensures r.Err? <==> exists n :: n in NumericalFeatures() && n !in Names(d.columns)
    ensures r.Err? ==> r.error == MissingColumns(FilterOut(NumericalFeatures(), Elems(Names(d.columns))))
    ensures r.Ok? ==> r.value.0.rows == d.rows && r.value.1.rows == d.rows
    ensures r.Ok? ==> Names(r.value.0.columns) == NumericalFeatures()
    ensures r.Ok? ==> Names(r.value.1.columns) == FilterOut(Names(d.columns), Elems(NumericalFeatures()))
    ensures r.Ok? ==> forall c :: c in d.columns ==> (c in r.value.0.columns <==> c !in r.value.1.columns)
    ensures r.Ok? ==> forall c :: c in r.value.0.columns || c in r.value.1.columns ==> c in d.columns
    ensures r.Ok? ==> |r.value.0.columns| + |r.value.1.columns| == |d.columns|
  {
    var missing := FilterOut(NumericalFeatures(), Elems(Names(d.columns)));
    SplitMissing(d);
    if missing != [] then
      Err(MissingColumns(missing))
    else
      SplitPresent(d);
      Ok(Blocks(d))
  }

  /** The two blocks of a table holding every continuous column. */
  function Blocks(d: Table): (r: (Table, Table))
    requires forall n :: n in NumericalFeatures() ==> n in Names(d.columns)
    ensures r.0.rows == d.rows && r.1.rows == d.rows
    ensures Names(r.0.columns) == NumericalFeatures()
    ensures Names(r.1.columns) == FilterOut(Names(d.columns), Elems(NumericalFeatures()))
    ensures forall c :: c in d.columns ==> (c in r.0.columns <==> c !in r.1.columns)
    ensures forall c :: c in r.0.columns || c in r.1.columns ==> c in d.columns
    ensures |r.0.columns| + |r.1.columns| == |d.columns|
  {
    var continuous := Select(d.columns, NumericalFeatures());
    var binary := DropNamed(d.columns, Elems(NumericalFeatures()));
    SplitFacts(d, continuous, binary);
    (Frame(d.rows, continuous), Frame(d.rows, binary))
  }

  /** The continuous names the table lacks are exactly those `FilterOut` keeps. */
  lemma SplitMissing(d: Table)
    ensures FilterOut(NumericalFeatures(), Elems(Names(d.columns))) != [] <==>
      exists n :: n in NumericalFeatures() && n !in Names(d.columns)
  {
    var missing := FilterOut(NumericalFeatures(), Elems(Names(d.columns)));
    if missing != [] {
      assert missing[0] in missing;
    }
  }

  lemma SplitPresent(d: Table)
    requires FilterOut(NumericalFeatures(), Elems(Names(d.columns))) == []
    ensures forall n :: n in NumericalFeatures() ==> n in Names(d.columns)
  {
    var missing := FilterOut(NumericalFeatures(), Elems(Names(d.columns)));
    forall n | n in NumericalFeatures() ensures n in Names(d.columns) { assert n !in missing; }
  }

  lemma SplitFacts(d: Table, continuous: seq<Column>, binary: seq<Column>)
    requires forall n :: n in NumericalFeatures() ==> n in Names(d.columns)
    requires continuous == Select(d.columns, NumericalFeatures())
    requires binary == DropNamed(d.columns, Elems(NumericalFeatures()))
    ensures WellFormed(Frame(d.rows, continuous)) && WellFormed(Frame(d.rows, binary))
    ensures forall c :: c in d.columns ==> (c in continuous <==> c !in binary)
    ensures forall c :: c in continuous || c in binary ==> c in d.columns
    ensures |continuous| + |binary| == |d.columns|
  {
    SelectedColumns(d, NumericalFeatures());
    NameListsDistinct();
    SubTableWellFormed(d, continuous);
    SubTableWellFormed(d, binary);
    SplitPartition(d, continuous, binary);
    SplitCount(d, binary);
  }

  /** The columns picked by name are columns of the table. */
  lemma SelectedColumns(d: Table, names: seq<string>)
    requires forall n :: n in names ==> n in Names(d.columns)
    ensures forall c :: c in Select(d.columns, names) ==> c in d.columns
  {
    var cs := Select(d.columns, names);
    forall k | 0 <= k < |cs| ensures cs[k] in d.columns {
      var n := names[k];
      assert Names(cs)[k] == n;
      var j :| 0 <= j < |d.columns| && d.columns[j].name == n && d.columns[j].cells == Col(d.columns, n);
      assert cs[k] == d.columns[j];
    }
  }

  /** Columns taken from a table, under distinct names, form a table. */
  lemma SubTableWellFormed(d: Table, cs: seq<Column>)
    requires forall c :: c in cs ==> c in d.columns
    requires Distinct(Names(cs))
    ensures WellFormed(Frame(d.rows, cs))
  {
    forall i | 0 <= i < |cs| ensures |cs[i].cells| == d.rows {
      assert cs[i] in d.columns;
      var j :| 0 <= j < |d.columns| && d.columns[j] == cs[i];
    }
  }

  lemma SplitPartition(d: Table, continuous: seq<Column>, binary: seq<Column>)
    requires forall n :: n in NumericalFeatures() ==> n in Names(d.columns)
    requires continuous == Select(d.columns, NumericalFeatures())
    requires binary == DropNamed(d.columns, Elems(NumericalFeatures()))
    ensures forall c :: c in d.columns ==> (c in continuous <==> c !in binary)
  {
    forall c | c in d.columns ensures (c in continuous <==> c !in binary) {
      var j :| 0 <= j < |d.columns| && d.columns[j] == c;
      if c.name in NumericalFeatures() {
        var k :| 0 <= k < |NumericalFeatures()| && NumericalFeatures()[k] == c.name;
        ColAt(d.columns, j);
        assert continuous[k] == c;
      }
    }
  }

  /** The binary block has as many columns as the table has beyond the nine. */
  lemma SplitCount(d: Table, binary: seq<Column>)
    requires forall n :: n in NumericalFeatures() ==> n in Names(d.columns)
    requires binary == DropNamed(d.columns, Elems(NumericalFeatures()))
    ensures |NumericalFeatures()| + |binary| == |d.columns|
  {
    var numeric := Elems(NumericalFeatures());
    var all := Elems(Names(d.columns));
    var kept := Names(binary);
    NameListsDistinct();
    DistinctCard(Names(d.columns));
    DistinctCard(kept);
    DistinctCard(NumericalFeatures());
    assert Elems(kept) == all - numeric;
    assert numeric <= all;
    CardDifference(all, numeric);
  }

  lemma CardDifference(all: set<string>, part: set<string>)
    requires part <= all
    ensures |all - part| == |all| - |part|
  {
    assert all == (all - part) + part;
    assert (all - part) * part == {};
  }

  /** `prepare_features_for_training(df)`: derive, then split. */
  function PrepareFeatures(t: Table): (r: Result<(Table, Table)>)
    requires NoDerivedNames(t) && DivisorsNonZero(t)
    ensures var derived := Derive(t);
      && (derived.Err? ==> r == Err(derived.error))
      && (r.Ok? <==> derived.Ok?)
      && (derived.Ok? ==> r == Split(derived.value))
  {
    var d :- Derive(t);
    DerivedHasContinuous(t, d);
    Split(d)
  }

  /** A derived table holds every continuous column: Age, Income and
      Purchases are kept, the six ratios are appended. */
  lemma DerivedHasContinuous(t: Table, d: Table)
    requires NoDerivedNames(t) && DivisorsNonZero(t) && Derive(t) == Ok(d)
    ensures forall n :: n in NumericalFeatures() ==> n in Names(d.columns)
  {
    assert Inputs(t).Ok?;
    ContinuousPresent(Names(t.columns), Names(d.columns));
  }

  lemma ContinuousPresent(input: seq<string>, names: seq<string>)
    requires names == FilterOut(input, {GenderCol, CustomerIdCol}) + DerivedNames()
    requires AgeCol in input && IncomeCol in input && PurchasesCol in input
    ensures forall n :: n in NumericalFeatures() ==> n in names
  {
    var kept := FilterOut(input, {GenderCol, CustomerIdCol});
    assert AgeCol in kept && IncomeCol in kept && PurchasesCol in kept;
    forall n | n in NumericalFeatures() ensures n in names {
      if n !in [AgeCol, IncomeCol, PurchasesCol] {
        assert n in DerivedNames();
      }
    }
  }

  /** Dropping names distributes over concatenation. */
  lemma {:induction false} FilterOutAppend(a: seq<string>, b: seq<string>, drop: set<string>)
    ensures FilterOut(a + b, drop) == FilterOut(a, drop) + FilterOut(b, drop)
  {
    if a == [] {
      assert a + b == b;
    } else {
      assert (a + b)[1..] == a[1..] + b;
      FilterOutAppend(a[1..], b, drop);
      if a[0] !in drop {
        assert [a[0]] + (FilterOut(a[1..], drop) + FilterOut(b, drop))
          == ([a[0]] + FilterOut(a[1..], drop)) + FilterOut(b, drop);
      }
    }
  }

  lemma {:induction false} FilterOutAll(a: seq<string>, drop: set<string>)
    requires forall x :: x in a ==> x in drop
    ensures FilterOut(a, drop) == []
  {
    if a != [] {
      FilterOutAll(a[1..], drop);
    }
  }

  /** The raw input columns of a customer batch. */
  predicate RawColumnsOnly(t: Table) {
    forall n :: n in Names(t.columns) ==> n in [CustomerIdCol, AgeCol, GenderCol, IncomeCol, PurchasesCol]
  }

  /** The binary block is every derived column that is not continuous: the
      kept extra input columns, in table order, then the ten indicators. */
  lemma PreparedBinaryBlock(t: Table)
    requires NoDerivedNames(t) && DivisorsNonZero(t) && PrepareFeatures(t).Ok?
    ensures Names(PrepareFeatures(t).value.1.columns)
      == FilterOut(Names(t.columns), {GenderCol, CustomerIdCol} + Elems(NumericalFeatures())) + IndicatorNames()
  {
    var d := Derive(t).value;
    var numeric := Elems(NumericalFeatures());
    var kept := FilterOut(Names(t.columns), {GenderCol, CustomerIdCol});
    calc {
      Names(PrepareFeatures(t).value.1.columns);
      FilterOut(Names(d.columns), numeric);
      FilterOut(kept + DerivedNames(), numeric);
      { FilterOutAppend(kept, DerivedNames(), numeric); }
      FilterOut(kept, numeric) + FilterOut(DerivedNames(), numeric);
      { IndicatorsAreTheRest();
        FilterOutTwice(Names(t.columns), {GenderCol, CustomerIdCol}, numeric); }
      FilterOut(Names(t.columns), {GenderCol, CustomerIdCol} + numeric) + IndicatorNames();
    }
  }

  /** A batch of the five raw columns gives exactly the ten indicators as its
      binary block. */
  lemma RawBatchBinaryBlock(t: Table)
    requires NoDerivedNames(t) && DivisorsNonZero(t) && PrepareFeatures(t).Ok? && RawColumnsOnly(t)
    ensures Names(PrepareFeatures(t).value.1.columns) == IndicatorNames()
  {
    PreparedBinaryBlock(t);
    RawColumnsAllDropped(t);
  }

  /** Of the raw columns, none is left once Gender, Customer_ID and the
      continuous names are taken away. */
  lemma RawColumnsAllDropped(t: Table)
    requires RawColumnsOnly(t)
    ensures FilterOut(Names(t.columns), {GenderCol, CustomerIdCol} + Elems(NumericalFeatures())) == []
  {
    var drop := {GenderCol, CustomerIdCol} + Elems(NumericalFeatures());
    assert NumericalFeatures()[0] == AgeCol && NumericalFeatures()[1] == IncomeCol
      && NumericalFeatures()[2] == PurchasesCol;
    assert AgeCol in drop && IncomeCol in drop && PurchasesCol in drop;
    FilterOutAll(Names(t.columns), drop);
  }

  lemma {:induction false} FilterOutTwice(a: seq<string>, d1: set<string>, d2: set<string>)
    ensures FilterOut(FilterOut(a, d1), d2) == FilterOut(a, d1 + d2)
  {
    if a != [] {
      FilterOutTwice(a[1..], d1, d2);
    }
  }

  lemma IndicatorsAreTheRest()
    ensures FilterOut(DerivedNames(), Elems(NumericalFeatures())) == DerivedNames()[..7] + DerivedNames()[8..11]
  {
    var numeric := Elems(NumericalFeatures());
    var ds := DerivedNames();
    var front, ratio, back, rest := ds[..7], [ds[7]], ds[8..11], ds[11..];
    assert ds == front + ratio + back + rest;
    calc {
      FilterOut(ds, numeric);
      FilterOut(front + ratio + back + rest, numeric);
      { FilterOutAppend(front + ratio + back, rest, numeric); }
      FilterOut(front + ratio + back, numeric) + FilterOut(rest, numeric);
      { FilterOutAppend(front + ratio, back, numeric);
        FilterOutAppend(front, ratio, numeric); }
      FilterOut(front, numeric) + FilterOut(ratio, numeric) + FilterOut(back, numeric) + FilterOut(rest, numeric);
      { AgeGenderIncomeNotNumeric();
        PurchaseDummiesNotNumeric();
        RatiosNumeric(); }
      front + [] + back + [];
      { assert front + [] == front && back + [] == back; }
      front + back;
    }
  }

  lemma AgeGenderIncomeNotNumeric()
    ensures FilterOut(DerivedNames()[..7], Elems(NumericalFeatures())) == DerivedNames()[..7]
  {
    FilterOutNone(DerivedNames()[..7], Elems(NumericalFeatures()));
  }

  lemma PurchaseDummiesNotNumeric()
    ensures FilterOut(DerivedNames()[8..11], Elems(NumericalFeatures())) == DerivedNames()[8..11]
  {
    FilterOutNone(DerivedNames()[8..11], Elems(NumericalFeatures()));
  }

  lemma RatiosNumeric()
    ensures FilterOut([DerivedNames()[7]], Elems(NumericalFeatures())) == []
    ensures FilterOut(DerivedNames()[11..], Elems(NumericalFeatures())) == []
  {
    FilterOutAll([DerivedNames()[7]], Elems(NumericalFeatures()));
    FilterOutAll(DerivedNames()[11..], Elems(NumericalFeatures()));
  }

  lemma {:induction false} FilterOutNone(a: seq<string>, drop: set<string>)
    requires forall x :: x in a ==> x !in drop
    ensures FilterOut(a, drop) == a
  {
    if a != [] {
      FilterOutNone(a[1..], drop);
    }
  }
}
