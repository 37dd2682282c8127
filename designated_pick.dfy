/** The designated-member selection of lib/hooks/useFamiliaData.ts and
    lib/hooks/useStudentData.ts: draw an index until it is not in mora. */
module DesignatedPick {
  import opened DataUtils

  /** Some draw of the stream picks an index outside `excluded`. */
  predicate SomePickOutside(draws: seq<real>, excluded: seq<int>, count: nat)
    requires count > 0 && forall i :: 0 <= i < |draws| ==> IsRandom(draws[i])
  {
    exists i :: 0 <= i < |draws| && PickIndex(draws[i], count) !in excluded
  }

  /** The do-while loop: draw `Math.floor(Math.random() * count)` until it
      is not in `excluded`. The result is the first draw outside it; `used`
      counts the draws made. */
  method PickOutside(draws: seq<real>, excluded: seq<int>, count: nat) returns (index: nat, used: nat)
    requires count > 0 && forall i :: 0 <= i < |draws| ==> IsRandom(draws[i])
    requires SomePickOutside(draws, excluded, count)
    ensures index < count && index !in excluded
    ensures 1 <= used <= |draws| && index == PickIndex(draws[used - 1], count)
    ensures forall i :: 0 <= i < used - 1 ==> PickIndex(draws[i], count) in excluded
  {
    ghost var w :| 0 <= w < |draws| && PickIndex(draws[w], count) !in excluded;
    index := PickIndex(draws[0], count);
    used := 1;
    while index in excluded
      invariant 1 <= used <= w + 1 && index == PickIndex(draws[used - 1], count)
      invariant forall i :: 0 <= i < used - 1 ==> PickIndex(draws[i], count) in excluded
      decreases |draws| - used
    {
      index := PickIndex(draws[used], count);
      used := used + 1;
    }
  }
}
