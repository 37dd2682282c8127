/** lib/hooks/useStudentData.ts: one amount per student, a designated
    student outside mora, and a change that sets that student's amount.
    TOTAL_STUDENTS, which lib/constants.ts does not define, is the
    parameter n. */
module StudentState {
  import opened DataUtils
  import opened DesignatedPick

  /** The setAportes updater: a copy of prev with slot i set to v. */
  function WithSlot(prev: seq<real>, i: nat, v: real): (updated: seq<real>)
    requires i < |prev|
    ensures |updated| == |prev| && updated[i] == v
    ensures forall j :: 0 <= j < |prev| && j != i ==> updated[j] == prev[j]
  {
    prev[i := v]
  }

  /** Setting a slot twice keeps only the second value. */
  lemma WithSlotTwice(prev: seq<real>, i: nat, v: real, w: real)
    requires i < |prev|
    ensures WithSlot(WithSlot(prev, i, v), i, w) == WithSlot(prev, i, w)
  {
  }

  /** Setting a slot to the value it holds changes nothing. */
  lemma WithSlotSame(prev: seq<real>, i: nat)
    requires i < |prev|
    ensures WithSlot(prev, i, prev[i]) == prev
  {
  }

  /** The state of useStudentData. */
  class StudentData {
    var aportes: seq<real>
    var moraIndices: seq<nat>
    var designatedUserIndex: nat

    /** The initial useState values. */
    constructor()
      ensures aportes == [] && moraIndices == [] && designatedUserIndex == 0
    {
      aportes := [];
      moraIndices := [];
      designatedUserIndex := 0;
    }

    /** The mount effect: store the generated amounts and mora indices and
        pick a designated student below n outside mora. */
    method Mount(generated: seq<real>, moraDraws: seq<real>, designatedDraws: seq<real>, n: nat)
      requires forall i :: 0 <= i < |moraDraws| ==> IsRandom(moraDraws[i])
      requires |DistinctPicks(moraDraws, |moraDraws|)| >= Constants.MoraCount
      requires n > 0 && forall i :: 0 <= i < |designatedDraws| ==> IsRandom(designatedDraws[i])
      requires SomePickOutside(designatedDraws, MoraIndices(moraDraws), n)
      modifies this
      ensures aportes == generated && moraIndices == MoraIndices(moraDraws)
      ensures designatedUserIndex < n && designatedUserIndex !in moraIndices
      ensures exists k :: 0 <= k < |designatedDraws| && designatedUserIndex == PickIndex(designatedDraws[k], n) &&
                          (forall i :: 0 <= i < k ==> PickIndex(designatedDraws[i], n) in moraIndices)
    {
      var generatedMoraIndices, usedMora := GenerateMoraIndices(moraDraws);
      aportes := generated;
      moraIndices := generatedMoraIndices;
      var randomIndex, usedDesignated := PickOutside(designatedDraws, generatedMoraIndices, n);
      designatedUserIndex := randomIndex;
    }

    /** handleAporteChange: the designated slot takes the new amount; the
        previous sequence is a value and stays as it was. */
    method HandleAporteChange(newAporte: real)
      requires designatedUserIndex < |aportes|
      modifies this`aportes
      ensures aportes == WithSlot(old(aportes), designatedUserIndex, newAporte)
    {
      aportes := WithSlot(aportes, designatedUserIndex, newAporte);
    }
  }
}
