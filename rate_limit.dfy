/**
 * The send-rate limiter every vehicle of the three simulations carries: a
 * vehicle emits only when strictly more than its interval has passed since
 * its last emission, and then records the time and counts the packet.
 * Timestamps are whole microseconds.
 */
module RateLimit {

  import opened Arith

  /** 0.0001 s: the flooding interval of a malicious vehicle. */
  const MaliciousInterval: nat := 100
  /** 0.05 s: the interval of a legitimate vehicle. */
  const LegitimateInterval: nat := 50_000

  /** The interval a vehicle of the given class waits between emissions. */
  function IntervalFor(isMalicious: bool): (d: nat)
    ensures d > 0
    ensures isMalicious <==> d < LegitimateInterval
  {
    if isMalicious then MaliciousInterval else LegitimateInterval
  }

  /** The limiter's part of a vehicle: when it last emitted, how often it has. */
  datatype Limiter = Limiter(lastSentTime: int, sentPackets: nat)

  predicate MayEmit(now: int, lastSentTime: int, interval: nat)
  {
    now - lastSentTime > interval
  }

  /** One send attempt at time `now`. */
  function Attempt(l: Limiter, now: int, interval: nat): (r: Limiter)
    ensures r.sentPackets == l.sentPackets + 1 <==> now - l.lastSentTime > interval
    ensures r.sentPackets != l.sentPackets + 1 ==> r == l
    ensures r.sentPackets == l.sentPackets + 1 ==> r.lastSentTime == now
  {
    if MayEmit(now, l.lastSentTime, interval) then Limiter(now, l.sentPackets + 1) else l
  }

  /** A run of attempts, one after the other. */
  function AttemptAll(l: Limiter, attempts: seq<int>, interval: nat): Limiter
    decreases |attempts|
  {
    if attempts == [] then l
    else AttemptAll(Attempt(l, attempts[0], interval), attempts[1..], interval)
  }

  /**
   * The shape of a run of communication passes over n vehicles: one range
   * flag per vehicle for each pass time.
   */
  ghost predicate Schedule(n: nat, ranges: seq<seq<bool>>, times: seq<int>)
  {
    |ranges| == |times| && forall t :: 0 <= t < |ranges| ==> |ranges[t]| == n
  }

  /** The pass times, in order, at which vehicle i was in range: its send attempts. */
  function InRangeTimes(i: nat, ranges: seq<seq<bool>>, times: seq<int>): (a: seq<int>)
    requires |ranges| == |times| && forall t :: 0 <= t < |ranges| ==> i < |ranges[t]|
    ensures forall t :: t in a ==> t in times
    decreases |times|
  {
    if times == [] then []
    else (if ranges[0][i] then [times[0]] else []) + InRangeTimes(i, ranges[1..], times[1..])
  }

  /** The attempt times, in order, at which a packet actually goes out. */
  function Emissions(lastSentTime: int, attempts: seq<int>, interval: nat): seq<int>
    decreases |attempts|
  {
    if attempts == [] then []
    else if MayEmit(attempts[0], lastSentTime, interval) then
      [attempts[0]] + Emissions(attempts[0], attempts[1..], interval)
    else Emissions(lastSentTime, attempts[1..], interval)
  }

  /** The packet counter after a run of attempts grows by the number of emissions. */
  lemma {:induction false} AttemptAllCountsEmissions(l: Limiter, attempts: seq<int>, interval: nat)
    decreases |attempts|
    ensures AttemptAll(l, attempts, interval).sentPackets
         == l.sentPackets + |Emissions(l.lastSentTime, attempts, interval)|
  {
    if attempts != [] {
      AttemptAllCountsEmissions(Attempt(l, attempts[0], interval), attempts[1..], interval);
    }
  }

  /** Emissions are attempt times, each strictly more than the interval after the one before. */
  lemma {:induction false} EmissionsSpaced(lastSentTime: int, attempts: seq<int>, interval: nat)
    decreases |attempts|
    ensures forall t :: t in Emissions(lastSentTime, attempts, interval) ==> t in attempts
    ensures |Emissions(lastSentTime, attempts, interval)| > 0 ==>
              Emissions(lastSentTime, attempts, interval)[0] - lastSentTime > interval
    ensures var e := Emissions(lastSentTime, attempts, interval);
            forall k :: 0 < k < |e| ==> e[k] - e[k - 1] > interval
  {
    if attempts != [] {
      var a, rest := attempts[0], attempts[1..];
      if MayEmit(a, lastSentTime, interval) {
        EmissionsSpaced(a, rest, interval);
        var e' := Emissions(a, rest, interval);
        var e := [a] + e';
        assert e == Emissions(lastSentTime, attempts, interval);
        forall k | 0 < k < |e| ensures e[k] - e[k - 1] > interval {
          assert e[k] == e'[k - 1];
          if k > 1 { assert e[k - 1] == e'[k - 2]; }
        }
      } else {
        EmissionsSpaced(lastSentTime, rest, interval);
      }
    }
  }

  /** The first and last of a sequence whose neighbours are at least `gap` apart. */
  lemma {:induction false} Spread(e: seq<int>, gap: nat)
    requires |e| > 0
    requires forall k :: 0 < k < |e| ==> e[k] - e[k - 1] >= gap
    ensures e[|e| - 1] - e[0] >= (|e| - 1) * gap
  {
    if |e| > 1 {
      var front := e[..|e| - 1];
      assert forall k :: 0 < k < |front| ==> front[k] - front[k - 1] >= gap;
      Spread(front, gap);
      assert (|e| - 1) * gap == (|e| - 2) * gap + gap;
    }
  }

  /**
   * Rate-limit correctness: over any run of attempts falling within a window
   * of `span` microseconds, at most span / interval + 1 packets go out.
   */
  lemma RateBound(lastSentTime: int, attempts: seq<int>, interval: nat, start: int, span: nat)
    requires interval > 0
    requires forall t :: t in attempts ==> start <= t <= start + span
    ensures |Emissions(lastSentTime, attempts, interval)| <= span / interval + 1
  {
    var e := Emissions(lastSentTime, attempts, interval);
    EmissionsSpaced(lastSentTime, attempts, interval);
    if |e| > 0 {
      Spread(e, interval + 1);
      assert e[0] in attempts && e[|e| - 1] in attempts;
      var k := |e| - 1;
      assert k * (interval + 1) <= span;
      assert k * (interval + 1) == k * interval + k;
      DivBound(k, interval, span);
    }
  }

  /** The same bound for the packet counter of a vehicle whose attempts fall in the window. */
  lemma SentWithinWindow(l: Limiter, attempts: seq<int>, interval: nat, start: int, span: nat)
    requires interval > 0
    requires forall t :: t in attempts ==> start <= t <= start + span
    ensures AttemptAll(l, attempts, interval).sentPackets <= l.sentPackets + span / interval + 1
  {
    AttemptAllCountsEmissions(l, attempts, interval);
    RateBound(l.lastSentTime, attempts, interval, start, span);
  }
}
