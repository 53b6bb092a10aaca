/**
 * Path following as the three simulations' `update` does it, without the
 * geometry: a vehicle heads for the waypoint at its target index, and once
 * it has arrived (within one unit of it) moves its target to the next
 * waypoint, wrapping to the first after the last, so a path is driven round
 * for ever. Whether the vehicle has arrived is an input.
 */
module PathFollow {

  import opened Arith

  /** What a target index may be for a path of `length` waypoints. */
  predicate IndexInRange(index: nat, length: nat)
  {
    index < length || (length == 0 && index == 0)
  }

  /** The target index after one update. */
  function NextTargetIndex(index: nat, length: nat, arrived: bool): (r: nat)
    requires IndexInRange(index, length)
    ensures IndexInRange(r, length)
    ensures r == if length > 0 && arrived then (index + 1) % length else index
  {
    if length > 0 && arrived then
      if index + 1 >= length then 0 else index + 1
    else index
  }

  /** The target index after `k` updates that each found the vehicle arrived. */
  function Arrivals(index: nat, length: nat, k: nat): (r: nat)
    requires IndexInRange(index, length)
    ensures IndexInRange(r, length)
  {
    if k == 0 then index else NextTargetIndex(Arrivals(index, length, k - 1), length, true)
  }

  /** After `k` arrivals a vehicle targets the waypoint `k` places on, counted round the path. */
  lemma {:induction false} ArrivalsCycle(index: nat, length: nat, k: nat)
    requires index < length
    ensures Arrivals(index, length, k) == (index + k) % length
  {
    if k == 0 {
      DivModUnique(index, length, 0, index);
    } else {
      ArrivalsCycle(index, length, k - 1);
      ModSucc(index + k - 1, length);
    }
  }

  /** A full lap of arrivals brings the vehicle back to the waypoint it started for, and no shorter run does. */
  lemma Lap(index: nat, length: nat)
    requires index < length
    ensures Arrivals(index, length, length) == index
    ensures forall k :: 0 < k < length ==> Arrivals(index, length, k) != index
  {
    ArrivalsCycle(index, length, length);
    DivModUnique(index + length, length, 1, index);
    forall k | 0 < k < length ensures Arrivals(index, length, k) != index {
      ArrivalsCycle(index, length, k);
      if index + k < length {
        DivModUnique(index + k, length, 0, index + k);
      } else {
        DivModUnique(index + k, length, 1, index + k - length);
      }
    }
  }

  /** An arrival followed by k more is k + 1 arrivals. */
  lemma {:induction false} ArrivalsShift(index: nat, length: nat, k: nat)
    requires IndexInRange(index, length)
    ensures Arrivals(NextTargetIndex(index, length, true), length, k) == Arrivals(index, length, k + 1)
  {
    if k > 0 {
      ArrivalsShift(index, length, k - 1);
    }
  }

  /** How many of the updates, one flag per update, found vehicle i arrived. */
  function ArrivalCount(i: nat, arrivals: seq<seq<bool>>): (n: nat)
    requires forall t :: 0 <= t < |arrivals| ==> i < |arrivals[t]|
    ensures n <= |arrivals|
    decreases |arrivals|
  {
    if arrivals == [] then 0
    else (if arrivals[0][i] then 1 else 0) + ArrivalCount(i, arrivals[1..])
  }
}
