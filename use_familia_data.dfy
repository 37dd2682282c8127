/** lib/hooks/useFamiliaData.ts: the families' state. On mount it generates
    the aportes and the families in mora and picks a designated family
    outside mora; a percentage change rescales the designated family from
    its initial snapshot. */
module FamiliaState {
  import opened Numbers
  import opened Types
  import opened Constants
  import opened DataUtils
  import opened DesignatedPick

  /** Every aporte of a family scaled by `multiplier`, each keeping its id. */
  function Rescaled(initial: seq<Aporte>, multiplier: real): (family: seq<Aporte>)
    ensures |family| == |initial|
    ensures forall j :: 0 <= j < |family| ==>
      family[j].id == initial[j].id && family[j].value == initial[j].value * multiplier
  {
    seq(|initial|, j requires 0 <= j < |initial| => Aporte(initial[j].id, initial[j].value * multiplier))
  }

  /** The setAportes updater of handleAporteChange: a copy of prev whose
      designated entry is the initial family rescaled by 1 + pct / 100, or
      prev itself when the initial snapshot has no such family. */
  function ChangeAportes(prev: seq<seq<Aporte>>, initial: seq<seq<Aporte>>, designated: nat, pct: real): (updated: seq<seq<Aporte>>)
    requires designated < |initial| ==> designated < |prev|
    ensures |updated| == |prev|
    ensures designated < |initial| ==> updated[designated] == Rescaled(initial[designated], PercentFactor(pct))
    ensures forall f :: 0 <= f < |prev| && f != designated ==> updated[f] == prev[f]
  {
    if designated < |initial| then prev[designated := Rescaled(initial[designated], PercentFactor(pct))]
    else prev
  }

  /** With no initial family at the designated index, nothing changes. */
  lemma ChangeWithoutInitial(prev: seq<seq<Aporte>>, initial: seq<seq<Aporte>>, designated: nat, pct: real)
    requires designated >= |initial|
    ensures ChangeAportes(prev, initial, designated, pct) == prev
  {
  }

  /** Values are computed from the initial snapshot, so changes do not
      compound: the last change alone decides the result. */
  lemma {:induction false} ChangesDoNotCompound(prev: seq<seq<Aporte>>, initial: seq<seq<Aporte>>, designated: nat, pct1: real, pct2: real)
    requires designated < |initial| ==> designated < |prev|
    ensures ChangeAportes(ChangeAportes(prev, initial, designated, pct1), initial, designated, pct2) ==
            ChangeAportes(prev, initial, designated, pct2)
  {
    var once := ChangeAportes(prev, initial, designated, pct1);
    var twice := ChangeAportes(once, initial, designated, pct2);
    var direct := ChangeAportes(prev, initial, designated, pct2);
    assert |twice| == |direct|;
    forall f | 0 <= f < |twice|
      ensures twice[f] == direct[f]
    {
      if f != designated {
        assert twice[f] == once[f] == prev[f];
      }
    }
  }

  /** A change of 0% gives back the initial family. */
  lemma ZeroPercentRestores(prev: seq<seq<Aporte>>, initial: seq<seq<Aporte>>, designated: nat)
    requires designated < |initial| && designated < |prev|
    ensures ChangeAportes(prev, initial, designated, 0.0)[designated] == initial[designated]
  {
    assert PercentFactor(0.0) == 1.0;
    var family := ChangeAportes(prev, initial, designated, 0.0)[designated];
    assert forall j :: 0 <= j < |family| ==> family[j] == initial[designated][j];
  }

  /** A change of -100% leaves every aporte of the family at 0, with its id. */
  lemma MinusHundredZeroes(prev: seq<seq<Aporte>>, initial: seq<seq<Aporte>>, designated: nat)
    requires designated < |initial| && designated < |prev|
    ensures var family := ChangeAportes(prev, initial, designated, -100.0)[designated];
      |family| == |initial[designated]| &&
      forall j :: 0 <= j < |family| ==> family[j] == Aporte(initial[designated][j].id, 0.0)
  {
    assert PercentFactor(-100.0) == 0.0;
  }

  /** `families[i]?.reduce(sum) || 0`: the sum of family i's values, or 0
      when there is no family i. */
  function FamilySum(families: seq<seq<Aporte>>, i: int): real
  {
    if 0 <= i < |families| then SumValues(families[i]) else 0.0
  }

  /** Family i's sum is what it adds to the running total of the flattened
      aportes: the total through family i minus the total before it. */
  lemma FamilySumInFlatten(families: seq<seq<Aporte>>, i: int)
    requires 0 <= i < |families|
    ensures FamilySum(families, i) == SumValues(Flatten(families[..i + 1])) - SumValues(Flatten(families[..i]))
  {
    assert families[..i + 1] == families[..i] + [families[i]];
    FlattenSnoc(families[..i], families[i]);
    SumValuesAppend(Flatten(families[..i]), families[i]);
  }

  /** The sum of the first k families' sums. */
  function SumOfFamilySums(families: seq<seq<Aporte>>, k: nat): real
    requires k <= |families|
  {
    if k == 0 then 0.0 else SumOfFamilySums(families, k - 1) + FamilySum(families, k - 1)
  }

  lemma {:induction false} SumValuesAppend(a: seq<Aporte>, b: seq<Aporte>)
    ensures SumValues(a + b) == SumValues(a) + SumValues(b)
    decreases |b|
  {
    if b == [] {
      assert a + b == a;
    } else {
      var n := |b| - 1;
      assert (a + b)[..|a + b| - 1] == a + b[..n];
      SumValuesAppend(a, b[..n]);
    }
  }

  /** The family sums add up to the sum of all aportes. */
  lemma {:induction false} FamilySumsTotal(families: seq<seq<Aporte>>, k: nat)
    requires k <= |families|
    ensures SumOfFamilySums(families, k) == SumValues(Flatten(families[..k]))
  {
    if k > 0 {
      FamilySumsTotal(families, k - 1);
      assert families[..k][..k - 1] == families[..k - 1];
      SumValuesAppend(Flatten(families[..k - 1]), families[k - 1]);
    }
  }

  /** Rescaling scales the sum by the same factor. */
  lemma {:induction false} RescaledSum(initial: seq<Aporte>, multiplier: real)
    ensures SumValues(Rescaled(initial, multiplier)) == SumValues(initial) * multiplier
    decreases |initial|
  {
    if initial != [] {
      var n := |initial| - 1;
      RescaledPrefix(initial, multiplier, n);
      RescaledSum(initial[..n], multiplier);
    }
  }

  lemma RescaledPrefix(initial: seq<Aporte>, multiplier: real, n: nat)
    requires n <= |initial|
    ensures Rescaled(initial, multiplier)[..n] == Rescaled(initial[..n], multiplier)
  {
    var family := Rescaled(initial, multiplier);
    var shorter := Rescaled(initial[..n], multiplier);
    assert forall j :: 0 <= j < n ==> family[..n][j] == shorter[j];
  }

  /** After a change the designated family sums to its initial sum times
      1 + pct / 100; every other family's sum is as before. */
  lemma ChangedSums(prev: seq<seq<Aporte>>, initial: seq<seq<Aporte>>, designated: nat, pct: real, i: int)
    requires designated < |initial| && designated < |prev|
    ensures i == designated ==>
      FamilySum(ChangeAportes(prev, initial, designated, pct), i) == FamilySum(initial, i) * PercentFactor(pct)
    ensures i != designated ==>
      FamilySum(ChangeAportes(prev, initial, designated, pct), i) == FamilySum(prev, i)
  {
    RescaledSum(initial[designated], PercentFactor(pct));
  }

  /** The state of useFamiliaData. */
  class FamiliaData {
    var aportes: seq<seq<Aporte>>
    var moraIndices: seq<nat>
    var designatedFamiliaIndex: nat
    var initialAportes: seq<seq<Aporte>>

    /** The current aportes and the initial snapshot have the same families. */
    predicate Valid()
      reads this
    {
      |aportes| == |initialAportes|
    }

    /** The initial useState values. */
    constructor()
      ensures Valid()
      ensures aportes == [] && moraIndices == [] && designatedFamiliaIndex == 0 && initialAportes == []
    {
      aportes := [];
      moraIndices := [];
      designatedFamiliaIndex := 0;
      initialAportes := [];
    }

    /** The mount effect: generate the aportes and the mora indices, keep
        the aportes as the initial snapshot too, and pick a designated
        family outside mora. */
    method Mount(first: seq<Draw>, extra: seq<ExtraDraw>, moraDraws: seq<real>, designatedDraws: seq<real>)
      requires |first| == NumberOfFamilies && |extra| == TotalAportes - NumberOfFamilies
      requires forall f :: 0 <= f < |first| ==> IsRandomDraw(first[f])
      requires forall i :: 0 <= i < |extra| ==> IsRandomExtra(extra[i])
      requires forall i :: 0 <= i < |moraDraws| ==> IsRandom(moraDraws[i])
      requires |DistinctPicks(moraDraws, |moraDraws|)| >= MoraCount
      requires forall i :: 0 <= i < |designatedDraws| ==> IsRandom(designatedDraws[i])
      requires SomePickOutside(designatedDraws, MoraIndices(moraDraws), NumberOfFamilies)
      modifies this
      ensures Valid()
      ensures aportes == initialAportes && |aportes| == NumberOfFamilies && |Flatten(aportes)| == TotalAportes
      ensures WellNumbered(aportes)
      ensures forall f :: 0 <= f < NumberOfFamilies ==>
        |aportes[f]| == 1 + PickCount(extra, |extra|, f) && aportes[f][0] == CreateAporte(f, 0, first[f])
      ensures moraIndices == MoraIndices(moraDraws)
      ensures |moraIndices| == MoraCount && forall x :: x in moraIndices ==> x < NumberOfFamilies
      ensures designatedFamiliaIndex < NumberOfFamilies && designatedFamiliaIndex !in moraIndices
      ensures exists k :: 0 <= k < |designatedDraws| && designatedFamiliaIndex == PickIndex(designatedDraws[k], NumberOfFamilies) &&
                          (forall i :: 0 <= i < k ==> PickIndex(designatedDraws[i], NumberOfFamilies) in moraIndices)
    {
      var generatedAportes := GenerateAportes(first, extra);
      var generatedMoraIndices, usedMora := GenerateMoraIndices(moraDraws);
      aportes := generatedAportes;
      initialAportes := generatedAportes;
      moraIndices := generatedMoraIndices;
      var randomIndex, usedDesignated := PickOutside(designatedDraws, generatedMoraIndices, NumberOfFamilies);
      designatedFamiliaIndex := randomIndex;
    }

    /** handleAporteChange */
    method HandleAporteChange(percentageChange: real)
      requires Valid()
      modifies this`aportes
      ensures Valid()
      ensures aportes == ChangeAportes(old(aportes), initialAportes, designatedFamiliaIndex, percentageChange)
      ensures designatedFamiliaIndex < |initialAportes| ==>
        GetFamiliaAportesSum(designatedFamiliaIndex) ==
        GetInitialFamiliaAportesSum(designatedFamiliaIndex) * PercentFactor(percentageChange)
    {
      if designatedFamiliaIndex < |initialAportes| {
        ChangedSums(aportes, initialAportes, designatedFamiliaIndex, percentageChange, designatedFamiliaIndex);
      }
      aportes := ChangeAportes(aportes, initialAportes, designatedFamiliaIndex, percentageChange);
    }

    /** getFamiliaAportesSum */
    function GetFamiliaAportesSum(familiaIndex: int): real
      reads this
    {
      FamilySum(aportes, familiaIndex)
    }

    /** getInitialFamiliaAportesSum */
    function GetInitialFamiliaAportesSum(familiaIndex: int): real
      reads this
    {
      FamilySum(initialAportes, familiaIndex)
    }
  }
}
