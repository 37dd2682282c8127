/** lib/data-utils.ts: generating the families' aportes and the families in
    mora from random draws, and the payment statistics. Every Math.random()
    result is a parameter, a real in [0, 1). */
module DataUtils {
  import opened Numbers
  import opened Types
  import opened Constants
  import opened FormatUtils

  predicate IsRandom(x: real) { 0.0 <= x < 1.0 }

  /** `Math.floor(Math.random() * count)`: an index below count. */
  function PickIndex(draw: real, count: nat): (i: nat)
    requires IsRandom(draw) && count > 0
    ensures i < count
  {
    var i := Floor(draw * count as real);
    assert draw * count as real < count as real;
    i
  }

  // ------------------------------------------------------------ aportes

  /** The id of aporte j of family f. */
  function AporteId(f: nat, j: nat): string
  {
    "familia-" + (Digits(f) + ("-aporte-" + Digits(j)))
  }

  /** Two digit strings each followed by a text starting with a non-digit
      split the same way when their concatenations agree. */
  lemma SplitAfterDigits(a: string, t1: string, c: string, t2: string)
    requires IsDigits(a) && IsDigits(c) && |t1| >= 1 && |t2| >= 1
    requires !('0' <= t1[0] <= '9') && !('0' <= t2[0] <= '9')
    requires a + t1 == c + t2
    ensures a == c && t1 == t2
  {
    if |a| < |c| {
      PrefixIndex(c, t2, |a|);
      assert false;
    } else if |c| < |a| {
      PrefixIndex(a, t1, |c|);
      assert false;
    } else {
      assert a == (a + t1)[..|a|];
      assert c == (c + t2)[..|c|];
      assert t1 == (a + t1)[|a|..];
      assert t2 == (c + t2)[|c|..];
    }
  }

  lemma PrefixIndex(x: string, y: string, i: nat)
    ensures i < |x| ==> (x + y)[i] == x[i]
  {
  }

  /** Ids are distinct: the id determines the family and the position. */
  lemma AporteIdInjective(f1: nat, j1: nat, f2: nat, j2: nat)
    requires AporteId(f1, j1) == AporteId(f2, j2)
    ensures f1 == f2 && j1 == j2
  {
    var prefix := "familia-";
    var rest1 := Digits(f1) + ("-aporte-" + Digits(j1));
    var rest2 := Digits(f2) + ("-aporte-" + Digits(j2));
    assert rest1 == (prefix + rest1)[|prefix|..];
    assert rest2 == (prefix + rest2)[|prefix|..];
    SplitAfterDigits(Digits(f1), "-aporte-" + Digits(j1), Digits(f2), "-aporte-" + Digits(j2));
    assert Digits(j1) == ("-aporte-" + Digits(j1))[8..];
    assert Digits(j2) == ("-aporte-" + Digits(j2))[8..];
    DigitsInjective(f1, f2);
    DigitsInjective(j1, j2);
  }

  /** The two Math.random() results createAporte consumes: one picks the
      branch, the other the amount. */
  datatype Draw = Draw(branch: real, amount: real)

  predicate IsRandomDraw(d: Draw) { IsRandom(d.branch) && IsRandom(d.amount) }

  /** A standard payment within 50000 either way (nine draws in ten), or
      anything from MIN_PAYMENT up to MIN_PAYMENT + MAX_PAYMENT. */
  function AporteValue(d: Draw): (v: real)
    requires IsRandomDraw(d)
    ensures d.branch < 0.9 ==> StandardPayment - 50000.0 <= v <= StandardPayment + 49999.0
    ensures d.branch >= 0.9 ==> MinPayment <= v <= MinPayment + MaxPayment - 1.0
  {
    if d.branch < 0.9 then StandardPayment + PickIndex(d.amount, 100000) as real - 50000.0
    else PickIndex(d.amount, 1000000) as real + MinPayment
  }

  /** createAporte */
  function CreateAporte(f: nat, j: nat, d: Draw): (a: Aporte)
    requires IsRandomDraw(d)
    ensures a.id == AporteId(f, j) && a.value == AporteValue(d)
  {
    Aporte(AporteId(f, j), AporteValue(d))
  }

  /** Either range createAporte can produce. */
  predicate InAporteRange(v: real)
  {
    (StandardPayment - 50000.0 <= v <= StandardPayment + 49999.0) ||
    (MinPayment <= v <= MinPayment + MaxPayment - 1.0)
  }

  /** The draws of one extra aporte: the family pick, then createAporte's. */
  datatype ExtraDraw = ExtraDraw(pick: real, draw: Draw)

  predicate IsRandomExtra(e: ExtraDraw) { IsRandom(e.pick) && IsRandomDraw(e.draw) }

  /** How many of the first k extra aportes went to family f. */
  function PickCount(extra: seq<ExtraDraw>, k: nat, f: nat): nat
    requires k <= |extra| && forall i :: 0 <= i < |extra| ==> IsRandomExtra(extra[i])
  {
    if k == 0 then 0
    else PickCount(extra, k - 1, f) + (if PickIndex(extra[k - 1].pick, NumberOfFamilies) == f then 1 else 0)
  }

  /** All the aportes, family after family (`aportes.flat()`). */
  function Flatten(families: seq<seq<Aporte>>): seq<Aporte>
  {
    if families == [] then []
    else Flatten(families[..|families| - 1]) + families[|families| - 1]
  }

  lemma {:induction false} FlattenAppendOne(families: seq<seq<Aporte>>, k: nat, a: Aporte)
    requires k < |families|
    ensures |Flatten(families[k := families[k] + [a]])| == |Flatten(families)| + 1
    decreases |families|
  {
    var updated := families[k := families[k] + [a]];
    var n := |families| - 1;
    if k == n {
      assert updated[..n] == families[..n];
    } else {
      assert updated[..n] == families[..n][k := families[k] + [a]];
      FlattenAppendOne(families[..n], k, a);
    }
  }

  lemma {:induction false} FlattenSingletons(families: seq<seq<Aporte>>)
    requires forall f :: 0 <= f < |families| ==> |families[f]| == 1
    ensures |Flatten(families)| == |families|
    decreases |families|
  {
    if families != [] {
      FlattenSingletons(families[..|families| - 1]);
    }
  }

  /** Aporte j of family f has the id for (f, j) and a value createAporte
      can produce. */
  predicate WellNumbered(families: seq<seq<Aporte>>)
  {
    forall f, j :: 0 <= f < |families| && 0 <= j < |families[f]| ==>
      families[f][j].id == AporteId(f, j) && InAporteRange(families[f][j].value)
  }

  /** Family f holds its first aporte and one more for each of the first i
      extra picks that chose it. */
  predicate CountedAfter(families: seq<seq<Aporte>>, first: seq<Draw>, extra: seq<ExtraDraw>, i: nat)
    requires |first| == NumberOfFamilies && forall f :: 0 <= f < |first| ==> IsRandomDraw(first[f])
    requires i <= |extra| && forall e :: 0 <= e < |extra| ==> IsRandomExtra(extra[e])
  {
    && |families| == NumberOfFamilies
    && forall f :: 0 <= f < NumberOfFamilies ==>
         |families[f]| == 1 + PickCount(extra, i, f) && families[f][0] == CreateAporte(f, 0, first[f])
  }

  lemma AppendKeepsNumbering(families: seq<seq<Aporte>>, k: nat, a: Aporte)
    requires WellNumbered(families) && k < |families|
    requires a.id == AporteId(k, |families[k]|) && InAporteRange(a.value)
    ensures WellNumbered(families[k := families[k] + [a]])
  {
    var updated: seq<seq<Aporte>> := families[k := families[k] + [a]];
    forall f: int, j: int | 0 <= f < |updated| && 0 <= j < |updated[f]|
      ensures updated[f][j].id == AporteId(f, j) && InAporteRange(updated[f][j].value)
    {
      if f == k && j == |families[k]| {
        assert updated[f][j] == a;
      } else {
        assert updated[f][j] == families[f][j];
      }
    }
  }

  lemma AppendCounts(families: seq<seq<Aporte>>, first: seq<Draw>, extra: seq<ExtraDraw>, i: nat, a: Aporte)
    requires |first| == NumberOfFamilies && forall f :: 0 <= f < |first| ==> IsRandomDraw(first[f])
    requires i < |extra| && forall e :: 0 <= e < |extra| ==> IsRandomExtra(extra[e])
    requires CountedAfter(families, first, extra, i)
    ensures var k := PickIndex(extra[i].pick, NumberOfFamilies);
      CountedAfter(families[k := families[k] + [a]], first, extra, i + 1)
  {
  }

  /** generateAportes: one aporte per family, then the remaining ones to
      families picked at random, each appended with the next position. */
  method GenerateAportes(first: seq<Draw>, extra: seq<ExtraDraw>) returns (aportesByFamilia: seq<seq<Aporte>>)
    requires |first| == NumberOfFamilies && |extra| == TotalAportes - NumberOfFamilies
    requires forall f :: 0 <= f < |first| ==> IsRandomDraw(first[f])
    requires forall i :: 0 <= i < |extra| ==> IsRandomExtra(extra[i])
    ensures |aportesByFamilia| == NumberOfFamilies
    ensures forall f :: 0 <= f < NumberOfFamilies ==>
      |aportesByFamilia[f]| == 1 + PickCount(extra, |extra|, f) &&
      aportesByFamilia[f][0] == CreateAporte(f, 0, first[f])
    ensures forall f, j :: 0 <= f < |aportesByFamilia| && 0 <= j < |aportesByFamilia[f]| ==>
      aportesByFamilia[f][j].id == AporteId(f, j) && InAporteRange(aportesByFamilia[f][j].value)
    ensures |Flatten(aportesByFamilia)| == TotalAportes
  {
    aportesByFamilia := seq(NumberOfFamilies, f requires 0 <= f < NumberOfFamilies => [CreateAporte(f, 0, first[f])]);
    FlattenSingletons(aportesByFamilia);
    var remainingAportes := TotalAportes - NumberOfFamilies;
    for i := 0 to remainingAportes
      invariant CountedAfter(aportesByFamilia, first, extra, i)
      invariant WellNumbered(aportesByFamilia)
      invariant |Flatten(aportesByFamilia)| == NumberOfFamilies + i
    {
      var randomFamiliaIndex := PickIndex(extra[i].pick, NumberOfFamilies);
      var newAporteIndex := |aportesByFamilia[randomFamiliaIndex]|;
      var aporte := CreateAporte(randomFamiliaIndex, newAporteIndex, extra[i].draw);
      FlattenAppendOne(aportesByFamilia, randomFamiliaIndex, aporte);
      AppendKeepsNumbering(aportesByFamilia, randomFamiliaIndex, aporte);
      AppendCounts(aportesByFamilia, first, extra, i, aporte);
      aportesByFamilia := aportesByFamilia[randomFamiliaIndex := aportesByFamilia[randomFamiliaIndex] + [aporte]];
    }
  }

  // ------------------------------------------------------- mora indices

  /** The set of families the first k draws pick, in insertion order, as
      `Array.from(new Set(...))` lists it. */
  function DistinctPicks(draws: seq<real>, k: nat): (picks: seq<nat>)
    requires k <= |draws| && forall i :: 0 <= i < |draws| ==> IsRandom(draws[i])
    ensures |picks| <= k
  {
    if k == 0 then []
    else
      var before := DistinctPicks(draws, k - 1);
      var pick := PickIndex(draws[k - 1], NumberOfFamilies);
      if pick in before then before else before + [pick]
  }

  /** Each draw keeps the list so far and adds at most one family. */
  lemma DistinctPicksStep(draws: seq<real>, k: nat)
    requires 0 < k <= |draws| && forall i :: 0 <= i < |draws| ==> IsRandom(draws[i])
    ensures DistinctPicks(draws, k - 1) <= DistinctPicks(draws, k)
    ensures |DistinctPicks(draws, k)| <= |DistinctPicks(draws, k - 1)| + 1
  {
  }

  /** The list holds each family some draw picked, once, and nothing else. */
  lemma {:induction false} DistinctPicksAreTheSet(draws: seq<real>, k: nat)
    requires k <= |draws| && forall i :: 0 <= i < |draws| ==> IsRandom(draws[i])
    ensures forall a, b :: 0 <= a < b < |DistinctPicks(draws, k)| ==> DistinctPicks(draws, k)[a] != DistinctPicks(draws, k)[b]
    ensures forall x :: x in DistinctPicks(draws, k) <==>
      exists i :: 0 <= i < k && PickIndex(draws[i], NumberOfFamilies) == x
    ensures forall x :: x in DistinctPicks(draws, k) ==> x < NumberOfFamilies
  {
    if k > 0 {
      DistinctPicksAreTheSet(draws, k - 1);
    }
  }

  /** The number of draws generateMoraIndices makes, from the k-th on:
      the first count whose distinct picks reach MORA_COUNT. */
  function DrawsNeeded(draws: seq<real>, k: nat): (used: nat)
    requires k <= |draws| && forall i :: 0 <= i < |draws| ==> IsRandom(draws[i])
    requires |DistinctPicks(draws, |draws|)| >= MoraCount
    ensures k <= used <= |draws| && |DistinctPicks(draws, used)| >= MoraCount
    ensures forall j :: k <= j < used ==> |DistinctPicks(draws, j)| < MoraCount
    decreases |draws| - k
  {
    if |DistinctPicks(draws, k)| >= MoraCount then k else DrawsNeeded(draws, k + 1)
  }

  /** The indices generateMoraIndices returns for a draw stream: exactly
      MORA_COUNT distinct families. */
  function MoraIndices(draws: seq<real>): (mora: seq<nat>)
    requires forall i :: 0 <= i < |draws| ==> IsRandom(draws[i])
    requires |DistinctPicks(draws, |draws|)| >= MoraCount
    ensures |mora| == MoraCount
    ensures forall a, b :: 0 <= a < b < |mora| ==> mora[a] != mora[b]
    ensures forall x :: x in mora ==> x < NumberOfFamilies
  {
    var used := DrawsNeeded(draws, 0);
    DistinctPicksAreTheSet(draws, used);
    assert used > 0 && |DistinctPicks(draws, used - 1)| < MoraCount;
    DistinctPicksStep(draws, used);
    DistinctPicks(draws, used)
  }

  lemma {:induction false} DrawsNeededIs(draws: seq<real>, k: nat, m: nat)
    requires k <= m <= |draws| && forall i :: 0 <= i < |draws| ==> IsRandom(draws[i])
    requires |DistinctPicks(draws, |draws|)| >= MoraCount
    requires forall j :: k <= j < m ==> |DistinctPicks(draws, j)| < MoraCount
    requires |DistinctPicks(draws, m)| >= MoraCount
    ensures DrawsNeeded(draws, k) == m
    decreases m - k
  {
    if k < m {
      DrawsNeededIs(draws, k + 1, m);
    }
  }

  /** generateMoraIndices: draw families until MORA_COUNT distinct ones are
      in the set. The draw stream must contain that many distinct families,
      as the source's loop only ends then; `used` counts the draws made. */
  method GenerateMoraIndices(draws: seq<real>) returns (indices: seq<nat>, used: nat)
    requires forall i :: 0 <= i < |draws| ==> IsRandom(draws[i])
    requires |DistinctPicks(draws, |draws|)| >= MoraCount
    ensures used <= |draws| && indices == DistinctPicks(draws, used) && indices == MoraIndices(draws)
    ensures |indices| == MoraCount
    ensures forall j :: 0 <= j < used ==> |DistinctPicks(draws, j)| < MoraCount
    ensures forall a, b :: 0 <= a < b < |indices| ==> indices[a] != indices[b]
    ensures forall x :: x in indices ==> x < NumberOfFamilies
  {
    indices := [];
    used := 0;
    while |indices| < MoraCount
      invariant used <= |draws| && indices == DistinctPicks(draws, used)
      invariant |indices| <= MoraCount
      invariant forall j :: 0 <= j < used ==> |DistinctPicks(draws, j)| < MoraCount
      decreases |draws| - used
    {
      var pick := PickIndex(draws[used], NumberOfFamilies);
      if pick !in indices {
        indices := indices + [pick];
      }
      used := used + 1;
    }
    DrawsNeededIs(draws, 0, used);
  }

  // ---------------------------------------------------- payment stats

  /** The families whose index is (or is not) in moraIndices, in order,
      among the first k. */
  function FamiliesWhere(aportes: seq<seq<Aporte>>, moraIndices: seq<int>, inMora: bool, k: nat): seq<seq<Aporte>>
    requires k <= |aportes|
  {
    if k == 0 then []
    else FamiliesWhere(aportes, moraIndices, inMora, k - 1) +
           (if ((k - 1) in moraIndices) == inMora then [aportes[k - 1]] else [])
  }

  /** A family is selected exactly when it is one of the first k whose
      index is (or is not) in moraIndices. */
  lemma {:induction false} FamiliesWhereMembers(aportes: seq<seq<Aporte>>, moraIndices: seq<int>, inMora: bool, k: nat)
    requires k <= |aportes|
    ensures forall fam :: fam in FamiliesWhere(aportes, moraIndices, inMora, k) <==>
      exists f :: 0 <= f < k && ((f in moraIndices) == inMora) && aportes[f] == fam
  {
    if k > 0 {
      FamiliesWhereMembers(aportes, moraIndices, inMora, k - 1);
    }
  }

  /** An aporte is in the flattened list exactly when some family holds it. */
  lemma {:induction false} FlattenMembers(families: seq<seq<Aporte>>)
    ensures forall a :: a in Flatten(families) <==> exists fam :: fam in families && a in fam
    decreases |families|
  {
    if families != [] {
      var init := families[..|families| - 1];
      FlattenMembers(init);
      assert families == init + [families[|families| - 1]];
    }
  }

  /** The aportes of the families whose index is (or is not) in
      moraIndices are exactly those families' aportes. */
  lemma FamiliesWhereAportes(aportes: seq<seq<Aporte>>, moraIndices: seq<int>, inMora: bool)
    ensures forall a :: a in Flatten(FamiliesWhere(aportes, moraIndices, inMora, |aportes|)) <==>
      exists f :: 0 <= f < |aportes| && ((f in moraIndices) == inMora) && a in aportes[f]
  {
    FamiliesWhereMembers(aportes, moraIndices, inMora, |aportes|);
    FlattenMembers(FamiliesWhere(aportes, moraIndices, inMora, |aportes|));
  }

  /** `aportes.filter((_, i) => moraIndices.includes(i)).flat()` */
  function MoraAportes(aportes: seq<seq<Aporte>>, moraIndices: seq<int>): (mora: seq<Aporte>)
    ensures forall a :: a in mora <==>
      exists f :: 0 <= f < |aportes| && f in moraIndices && a in aportes[f]
  {
    FamiliesWhereAportes(aportes, moraIndices, true);
    Flatten(FamiliesWhere(aportes, moraIndices, true, |aportes|))
  }

  /** `aportes.filter((_, i) => !moraIndices.includes(i)).flat()` */
  function NonMoraAportes(aportes: seq<seq<Aporte>>, moraIndices: seq<int>): (nonMora: seq<Aporte>)
    ensures forall a :: a in nonMora <==>
      exists f :: 0 <= f < |aportes| && f !in moraIndices && a in aportes[f]
  {
    FamiliesWhereAportes(aportes, moraIndices, false);
    Flatten(FamiliesWhere(aportes, moraIndices, false, |aportes|))
  }

  function Above(xs: seq<Aporte>): seq<Aporte>
  {
    if xs == [] then []
    else Above(xs[..|xs| - 1]) + (if xs[|xs| - 1].value > StandardPayment then [xs[|xs| - 1]] else [])
  }

  function Below(xs: seq<Aporte>): seq<Aporte>
  {
    if xs == [] then []
    else Below(xs[..|xs| - 1]) + (if xs[|xs| - 1].value < StandardPayment then [xs[|xs| - 1]] else [])
  }

  function AtStandard(xs: seq<Aporte>): seq<Aporte>
  {
    if xs == [] then []
    else AtStandard(xs[..|xs| - 1]) + (if xs[|xs| - 1].value == StandardPayment then [xs[|xs| - 1]] else [])
  }

  function SumValues(xs: seq<Aporte>): real
  {
    if xs == [] then 0.0 else SumValues(xs[..|xs| - 1]) + xs[|xs| - 1].value
  }

  /** Sum of `value - STANDARD_PAYMENT`. */
  function SumExcess(xs: seq<Aporte>): real
  {
    if xs == [] then 0.0 else SumExcess(xs[..|xs| - 1]) + (xs[|xs| - 1].value - StandardPayment)
  }

  /** Sum of `STANDARD_PAYMENT - value`. */
  function SumShortfall(xs: seq<Aporte>): real
  {
    if xs == [] then 0.0 else SumShortfall(xs[..|xs| - 1]) + (StandardPayment - xs[|xs| - 1].value)
  }

  /** A formatted field: a sign ("" for mora, "+" for donaciones, "-" for
      becas) before formatAbbreviated of the sum. */
  datatype Label = Label(sign: string, abbrev: Abbrev)

  datatype Bucket = Bucket(sum: real, count: nat, formatted: Label)

  datatype PaymentStats = PaymentStats(mora: Bucket, donaciones: Bucket, becas: Bucket)

  /** calculatePaymentStats */
  function CalculatePaymentStats(aportes: seq<seq<Aporte>>, moraIndices: seq<int>): (stats: PaymentStats)
    ensures stats.mora.formatted == Label("", FormatAbbreviated(stats.mora.sum))
    ensures stats.donaciones.formatted == Label("+", FormatAbbreviated(stats.donaciones.sum))
    ensures stats.becas.formatted == Label("-", FormatAbbreviated(stats.becas.sum))
  {
    var moraAportes := MoraAportes(aportes, moraIndices);
    var nonMoraAportes := NonMoraAportes(aportes, moraIndices);
    var donaciones := Above(nonMoraAportes);
    var becas := Below(nonMoraAportes);
    var moraSum := SumValues(moraAportes);
    var donacionesSum := SumExcess(donaciones);
    var becasSum := SumShortfall(becas);
    PaymentStats(
      Bucket(moraSum, |moraAportes|, Label("", FormatAbbreviated(moraSum))),
      Bucket(donacionesSum, |donaciones|, Label("+", FormatAbbreviated(donacionesSum))),
      Bucket(becasSum, |becas|, Label("-", FormatAbbreviated(becasSum))))
  }

  /** Mora and non-mora aportes split all aportes: together they are every
      aporte, each counted once. */
  lemma {:induction false} MoraSplitsAportes(aportes: seq<seq<Aporte>>, moraIndices: seq<int>, k: nat)
    requires k <= |aportes|
    ensures multiset(Flatten(FamiliesWhere(aportes, moraIndices, true, k))) +
            multiset(Flatten(FamiliesWhere(aportes, moraIndices, false, k))) ==
            multiset(Flatten(aportes[..k]))
  {
    if k > 0 {
      MoraSplitsAportes(aportes, moraIndices, k - 1);
      MoraStep(aportes, moraIndices, k);
    }
  }

  /** Family k - 1 goes to exactly one side of the split. */
  lemma MoraStep(aportes: seq<seq<Aporte>>, moraIndices: seq<int>, k: nat)
    requires 0 < k <= |aportes|
    ensures var one := multiset(aportes[k - 1]);
      && multiset(Flatten(FamiliesWhere(aportes, moraIndices, true, k))) +
         multiset(Flatten(FamiliesWhere(aportes, moraIndices, false, k))) ==
         multiset(Flatten(FamiliesWhere(aportes, moraIndices, true, k - 1))) +
         multiset(Flatten(FamiliesWhere(aportes, moraIndices, false, k - 1))) + one
      && multiset(Flatten(aportes[..k])) == multiset(Flatten(aportes[..k - 1])) + one
  {
    var family := aportes[k - 1];
    var inMora := FamiliesWhere(aportes, moraIndices, true, k - 1);
    var notInMora := FamiliesWhere(aportes, moraIndices, false, k - 1);
    var one := multiset(family);
    assert aportes[..k] == aportes[..k - 1] + [family];
    FlattenSnoc(aportes[..k - 1], family);
    if (k - 1) in moraIndices {
      FlattenSnoc(inMora, family);
      assert notInMora + [] == notInMora;
      AddToOnePart(multiset(Flatten(inMora)), multiset(Flatten(notInMora)), multiset{}, one);
    } else {
      assert inMora + [] == inMora;
      FlattenSnoc(notInMora, family);
      AddToOnePart(multiset(Flatten(inMora)), multiset(Flatten(notInMora)), multiset{}, one);
    }
  }

  lemma FlattenSnoc(families: seq<seq<Aporte>>, family: seq<Aporte>)
    ensures Flatten(families + [family]) == Flatten(families) + family
  {
    assert (families + [family])[..|families|] == families;
  }

  /** Donaciones, becas and the aportes at exactly STANDARD_PAYMENT split
      the non-mora aportes. */
  lemma {:induction false} AboveBelowSplit(xs: seq<Aporte>)
    ensures multiset(Above(xs)) + multiset(Below(xs)) + multiset(AtStandard(xs)) == multiset(xs)
  {
    if xs != [] {
      AboveBelowSplit(xs[..|xs| - 1]);
      SplitStep(xs);
    }
  }

  /** Appending one aporte adds it to exactly one of the three parts. */
  lemma SplitStep(xs: seq<Aporte>)
    requires xs != []
    ensures var init, last := xs[..|xs| - 1], xs[|xs| - 1];
      && multiset(Above(xs)) + multiset(Below(xs)) + multiset(AtStandard(xs)) ==
         multiset(Above(init)) + multiset(Below(init)) + multiset(AtStandard(init)) + multiset{last}
      && multiset(xs) == multiset(init) + multiset{last}
  {
    var init, last := xs[..|xs| - 1], xs[|xs| - 1];
    assert xs == init + [last];
    var above, below, at := multiset(Above(init)), multiset(Below(init)), multiset(AtStandard(init));
    var one := multiset{last};
    if last.value > StandardPayment {
      assert multiset(Above(xs)) == above + one;
      assert Below(xs) == Below(init) + [];
      assert AtStandard(xs) == AtStandard(init) + [];
      AddToOnePart(above, below, at, one);
    } else if last.value < StandardPayment {
      assert Above(xs) == Above(init) + [];
      assert multiset(Below(xs)) == below + one;
      assert AtStandard(xs) == AtStandard(init) + [];
      AddToOnePart(above, below, at, one);
    } else {
      assert Above(xs) == Above(init) + [];
      assert Below(xs) == Below(init) + [];
      assert multiset(AtStandard(xs)) == at + one;
      AddToOnePart(above, below, at, one);
    }
  }

  /** Adding to any one part of a three-way split adds to the whole. */
  lemma AddToOnePart<T>(a: multiset<T>, b: multiset<T>, c: multiset<T>, one: multiset<T>)
    ensures (a + one) + b + c == a + b + c + one
    ensures a + (b + one) + c == a + b + c + one
    ensures a + b + (c + one) == a + b + c + one
  {
  }

  /** Donaciones are exactly the aportes above STANDARD_PAYMENT, becas
      exactly those below. */
  lemma {:induction false} AboveBelowMembers(xs: seq<Aporte>, a: Aporte)
    ensures a in Above(xs) <==> a in xs && a.value > StandardPayment
    ensures a in Below(xs) <==> a in xs && a.value < StandardPayment
  {
    if xs != [] {
      AboveBelowMembers(xs[..|xs| - 1], a);
      assert xs == xs[..|xs| - 1] + [xs[|xs| - 1]];
    }
  }

  lemma {:induction false} ExcessNonNegative(xs: seq<Aporte>)
    ensures SumExcess(Above(xs)) >= 0.0 && SumShortfall(Below(xs)) >= 0.0
    ensures |Above(xs)| > 0 ==> SumExcess(Above(xs)) > 0.0
    ensures |Below(xs)| > 0 ==> SumShortfall(Below(xs)) > 0.0
  {
    if xs != [] {
      ExcessNonNegative(xs[..|xs| - 1]);
      var last := xs[|xs| - 1];
      SumAppend(Above(xs[..|xs| - 1]), if last.value > StandardPayment then [last] else []);
      SumAppend(Below(xs[..|xs| - 1]), if last.value < StandardPayment then [last] else []);
    }
  }

  lemma SumAppend(xs: seq<Aporte>, tail: seq<Aporte>)
    requires |tail| <= 1
    ensures SumExcess(xs + tail) == SumExcess(xs) + (if tail == [] then 0.0 else tail[0].value - StandardPayment)
    ensures SumShortfall(xs + tail) == SumShortfall(xs) + (if tail == [] then 0.0 else StandardPayment - tail[0].value)
  {
    if tail == [] {
      assert xs + tail == xs;
    } else {
      assert (xs + tail)[..|xs|] == xs;
    }
  }

  /** Donaciones minus becas is the non-mora aportes' total distance from
      the standard payment: values equal to it add nothing. */
  lemma {:induction false} NetOfStandard(xs: seq<Aporte>)
    ensures SumExcess(Above(xs)) - SumShortfall(Below(xs)) == SumValues(xs) - StandardPayment * |xs| as real
  {
    if xs != [] {
      NetOfStandard(xs[..|xs| - 1]);
      var last := xs[|xs| - 1];
      SumAppend(Above(xs[..|xs| - 1]), if last.value > StandardPayment then [last] else []);
      SumAppend(Below(xs[..|xs| - 1]), if last.value < StandardPayment then [last] else []);
    }
  }

  lemma MoraCountsSplit(aportes: seq<seq<Aporte>>, moraIndices: seq<int>)
    ensures |MoraAportes(aportes, moraIndices)| + |NonMoraAportes(aportes, moraIndices)| == |Flatten(aportes)|
  {
    MoraSplitsAportes(aportes, moraIndices, |aportes|);
    assert aportes[..|aportes|] == aportes;
    assert |multiset(Flatten(aportes))| == |Flatten(aportes)|;
  }

  lemma StandardCountsSplit(xs: seq<Aporte>)
    ensures |Above(xs)| + |Below(xs)| + |AtStandard(xs)| == |xs|
  {
    AboveBelowSplit(xs);
    assert |multiset(xs)| == |xs|;
  }

  /** The statistics: the mora bucket counts and sums every aporte of a
      family in moraIndices; donaciones and becas sum the distances above
      and below STANDARD_PAYMENT of the other aportes, both non-negative;
      the three counts plus the aportes at exactly the standard payment
      are all the aportes. */
  lemma PaymentStatsAccount(aportes: seq<seq<Aporte>>, moraIndices: seq<int>)
    ensures var stats := CalculatePaymentStats(aportes, moraIndices);
      var nonMora := NonMoraAportes(aportes, moraIndices);
      && stats.mora.count == |MoraAportes(aportes, moraIndices)|
      && stats.mora.sum == SumValues(MoraAportes(aportes, moraIndices))
      && stats.donaciones.sum >= 0.0 && stats.becas.sum >= 0.0
      && stats.donaciones.sum - stats.becas.sum == SumValues(nonMora) - StandardPayment * |nonMora| as real
      && stats.mora.count + stats.donaciones.count + stats.becas.count + |AtStandard(nonMora)| == |Flatten(aportes)|
  {
    var nonMora := NonMoraAportes(aportes, moraIndices);
    MoraCountsSplit(aportes, moraIndices);
    StandardCountsSplit(nonMora);
    ExcessNonNegative(nonMora);
    NetOfStandard(nonMora);
  }
}
