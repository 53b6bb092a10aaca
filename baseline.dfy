/**
 * Baseline.py: legitimate vehicles only, sending at their normal rate to
 * one roadside unit (RSU) with a capacity of 2500 messages. Past its
 * capacity the RSU goes inoperable and drops everything until reset, and a
 * vehicle in range of an inoperable RSU raises a communication-error flag.
 */
module Baseline {

  import opened RateLimit
  import opened PathFollow

  /** The RSU's capacity (max_messages). */
  const MaxMessages: nat := 2500

  datatype RsuState = RsuState(messageCount: nat, operational: bool, legitimateReceived: nat)

  datatype VehicleState = VehicleState(
    currentTargetIndex: nat,
    communicationError: bool,
    sentPackets: nat,
    legitimateReceivedPackets: nat,
    lastSentTime: int)

  function InitialRsu(): RsuState
  {
    RsuState(0, true, 0)
  }

  /** A vehicle as created at time `created`. */
  function InitialVehicle(created: int): VehicleState
  {
    VehicleState(0, false, 0, 0, created)
  }

  /**
   * What the RSU's counters always satisfy: operational exactly while the
   * count is within capacity, the count never more than one past capacity,
   * and the received count, which reset leaves alone, never below it.
   */
  ghost predicate GateInv(r: RsuState)
  {
    && (r.operational <==> r.messageCount <= MaxMessages)
    && r.messageCount <= MaxMessages + 1
    && r.messageCount <= r.legitimateReceived
  }

  /** A vehicle never has more packets accepted than it sent. */
  ghost predicate VehicleInv(v: VehicleState)
  {
    v.legitimateReceivedPackets <= v.sentPackets
  }

  function LimiterOf(v: VehicleState): Limiter
  {
    Limiter(v.lastSentTime, v.sentPackets)
  }

  /** The RSU's own part of receive_message. */
  function Admit(r: RsuState): (r': RsuState)
    ensures !r.operational ==> r' == r
    ensures r.operational ==>
              r'.messageCount == r.messageCount + 1 && r'.legitimateReceived == r.legitimateReceived + 1
    ensures r'.operational <==> r.operational && r'.messageCount <= MaxMessages
    ensures GateInv(r) ==> GateInv(r')
  {
    if !r.operational then r
    else
      var counted := r.(messageCount := r.messageCount + 1, legitimateReceived := r.legitimateReceived + 1);
      if counted.messageCount > MaxMessages then counted.(operational := false) else counted
  }

  /**
   * RSU.receive_message: the RSU admits the message, and the vehicle's
   * received counter moves exactly as the RSU's received counter.
   */
  function Receive(r: RsuState, v: VehicleState): (res: (RsuState, VehicleState))
    ensures res.0 == Admit(r)
    ensures res.1 == v.(legitimateReceivedPackets := res.1.legitimateReceivedPackets)
    ensures res.1.legitimateReceivedPackets - v.legitimateReceivedPackets
         == res.0.legitimateReceived - r.legitimateReceived
  {
    if !r.operational then (r, v)
    else (Admit(r), v.(legitimateReceivedPackets := v.legitimateReceivedPackets + 1))
  }

  /**
   * The base Vehicle.send_packet, which LegitimateVehicle overrides: count
   * the packet and hand it to the RSU, with no rate limit. Only the sent and
   * received counters change, the latter exactly as the RSU's.
   */
  function SendUnthrottled(r: RsuState, v: VehicleState): (res: (RsuState, VehicleState))
    ensures res.0 == Admit(r)
    ensures res.1 == v.(sentPackets := v.sentPackets + 1, legitimateReceivedPackets := res.1.legitimateReceivedPackets)
    ensures res.1.legitimateReceivedPackets - v.legitimateReceivedPackets
         == res.0.legitimateReceived - r.legitimateReceived
    ensures VehicleInv(v) ==> VehicleInv(res.1)
    ensures GateInv(r) ==> GateInv(res.0)
  {
    Receive(r, v.(sentPackets := v.sentPackets + 1))
  }

  /**
   * LegitimateVehicle.send_packet: the rate limiter decides whether the
   * packet goes out; if it does, it is counted and handed to the RSU, and
   * otherwise nothing changes.
   */
  function Send(r: RsuState, v: VehicleState, now: int): (res: (RsuState, VehicleState))
    ensures LimiterOf(res.1) == Attempt(LimiterOf(v), now, LegitimateInterval)
    ensures res.1.sentPackets == v.sentPackets ==> res == (r, v)
    ensures res.1.sentPackets != v.sentPackets ==> res.0 == Admit(r)
    ensures res.1.currentTargetIndex == v.currentTargetIndex
    ensures res.1.communicationError == v.communicationError
    ensures res.1.legitimateReceivedPackets - v.legitimateReceivedPackets
         == res.0.legitimateReceived - r.legitimateReceived
    ensures VehicleInv(v) ==> VehicleInv(res.1)
    ensures GateInv(r) ==> GateInv(res.0)
  {
    if MayEmit(now, v.lastSentTime, LegitimateInterval) then
      Receive(r, v.(lastSentTime := now, sentPackets := v.sentPackets + 1))
    else (r, v)
  }

  /**
   * One vehicle's turn in the communication pass: a vehicle in range tries
   * to send, and if the RSU is then inoperable it flags a communication
   * error (whether or not its own packet went out).
   */
  function Communicate(r: RsuState, v: VehicleState, inRange: bool, now: int): (res: (RsuState, VehicleState))
    ensures !inRange ==> res == (r, v)
    ensures inRange ==> (res.0, res.1.(communicationError := v.communicationError)) == Send(r, v, now)
    ensures res.1.communicationError <==> v.communicationError || (inRange && !res.0.operational)
  {
    if !inRange then (r, v)
    else
      var (r1, v1) := Send(r, v, now);
      if r1.operational then (r1, v1) else (r1, v1.(communicationError := true))
  }

  /** The communication pass over the vehicles in order: `vs[i]` is in range when `inRange[i]`. */
  function Pass(r: RsuState, vs: seq<VehicleState>, inRange: seq<bool>, now: int): (res: (RsuState, seq<VehicleState>))
    requires |inRange| == |vs|
    ensures |res.1| == |vs|
    ensures forall i :: 0 <= i < |vs| ==> res.1[i].currentTargetIndex == vs[i].currentTargetIndex
    decreases |vs|
  {
    if vs == [] then (r, [])
    else
      var n := |vs| - 1;
      var (r1, done) := Pass(r, vs[..n], inRange[..n], now);
      var (r2, v2) := Communicate(r1, vs[n], inRange[n], now);
      (r2, done + [v2])
  }

  /** The pass over the first i + 1 vehicles is the pass over the first i, then vehicle i's turn. */
  lemma PassStep(r: RsuState, vs: seq<VehicleState>, inRange: seq<bool>, now: int, i: nat)
    requires |inRange| == |vs| && i < |vs|
    ensures var before := Pass(r, vs[..i], inRange[..i], now);
            var turn := Communicate(before.0, vs[i], inRange[i], now);
            Pass(r, vs[..i + 1], inRange[..i + 1], now) == (turn.0, before.1 + [turn.1])
  {
    assert vs[..i + 1][..i] == vs[..i];
    assert inRange[..i + 1][..i] == inRange[..i];
  }

  /** The RSU reset: count cleared, service restored, received count kept. */
  function ResetRsu(r: RsuState): (r': RsuState)
    ensures r'.messageCount == 0 && r'.operational && r'.legitimateReceived == r.legitimateReceived
    ensures GateInv(r) ==> GateInv(r')
  {
    r.(messageCount := 0, operational := true)
  }

  function SumReceived(vs: seq<VehicleState>): nat
  {
    if vs == [] then 0 else SumReceived(vs[..|vs| - 1]) + vs[|vs| - 1].legitimateReceivedPackets
  }

  /**
   * A communication pass keeps the RSU's and every vehicle's invariant, and
   * the RSU's received count moves exactly as the sum of the vehicles'
   * received counts does.
   */
  lemma {:induction false} PassKeepsInvariants(r: RsuState, vs: seq<VehicleState>, inRange: seq<bool>, now: int)
    requires |inRange| == |vs|
    requires GateInv(r) && forall i :: 0 <= i < |vs| ==> VehicleInv(vs[i])
    ensures var res := Pass(r, vs, inRange, now);
            && GateInv(res.0)
            && (forall i :: 0 <= i < |vs| ==> VehicleInv(res.1[i]))
            && res.0.legitimateReceived - SumReceived(res.1) == r.legitimateReceived - SumReceived(vs)
    decreases |vs|
  {
    if vs != [] {
      var n := |vs| - 1;
      PassKeepsInvariants(r, vs[..n], inRange[..n], now);
      var (r1, done) := Pass(r, vs[..n], inRange[..n], now);
      var (r2, v2) := Communicate(r1, vs[n], inRange[n], now);
      assert Pass(r, vs, inRange, now) == (r2, done + [v2]);
      assert (done + [v2])[..n] == done;
    }
  }

  /**
   * What a communication pass does to each vehicle's flags and counters: it
   * keeps the target, sends at most once per vehicle in range, never clears
   * a communication error, and sets one only on a vehicle in range of an
   * RSU that is inoperable by the end of the pass. A pass that meets an RSU
   * already inoperable changes no received counter and flags every vehicle
   * in range; one that ends with the RSU operational flags none.
   */
  lemma {:induction false} PassFlags(r: RsuState, vs: seq<VehicleState>, inRange: seq<bool>, now: int)
    requires |inRange| == |vs|
    ensures var res := Pass(r, vs, inRange, now);
            && (forall i :: 0 <= i < |vs| ==>
                  && res.1[i].currentTargetIndex == vs[i].currentTargetIndex
                  && res.1[i].sentPackets <= vs[i].sentPackets + (if inRange[i] then 1 else 0)
                  && (vs[i].communicationError ==> res.1[i].communicationError)
                  && (res.1[i].communicationError && !vs[i].communicationError ==>
                        inRange[i] && !res.0.operational))
            && (!r.operational ==>
                  && res.0 == r
                  && forall i :: 0 <= i < |vs| ==>
                       && res.1[i].legitimateReceivedPackets == vs[i].legitimateReceivedPackets
                       && (inRange[i] ==> res.1[i].communicationError))
    decreases |vs|
  {
    if vs != [] {
      var n := |vs| - 1;
      PassFlags(r, vs[..n], inRange[..n], now);
      var (r1, done) := Pass(r, vs[..n], inRange[..n], now);
      var (r2, v2) := Communicate(r1, vs[n], inRange[n], now);
      assert Pass(r, vs, inRange, now) == (r2, done + [v2]);
      assert !r1.operational ==> !r2.operational;
    }
  }

  /** A vehicle's limiter after a pass: one attempt at `now` if it was in range, none otherwise. */
  lemma {:induction false} PassLimiter(r: RsuState, vs: seq<VehicleState>, inRange: seq<bool>, now: int, i: nat)
    requires |inRange| == |vs| && i < |vs|
    ensures LimiterOf(Pass(r, vs, inRange, now).1[i])
         == if inRange[i] then Attempt(LimiterOf(vs[i]), now, LegitimateInterval) else LimiterOf(vs[i])
    decreases |vs|
  {
    var n := |vs| - 1;
    var (r1, done) := Pass(r, vs[..n], inRange[..n], now);
    var (r2, v2) := Communicate(r1, vs[n], inRange[n], now);
    assert Pass(r, vs, inRange, now) == (r2, done + [v2]);
    if i < n {
      PassLimiter(r, vs[..n], inRange[..n], now, i);
      assert vs[..n][i] == vs[i] && inRange[..n][i] == inRange[i];
    }
  }

  /** Each vehicle's target index lies on its path, which has lengths[i] waypoints. */
  ghost predicate Placed(vs: seq<VehicleState>, lengths: seq<nat>)
  {
    |lengths| == |vs| && forall i :: 0 <= i < |vs| ==> IndexInRange(vs[i].currentTargetIndex, lengths[i])
  }

  /**
   * all_sprites.update() on the vehicles' states: each vehicle's target
   * index steps as NextTargetIndex, on arrival, and nothing else changes.
   */
  function Move(vs: seq<VehicleState>, lengths: seq<nat>, arrived: seq<bool>): (res: seq<VehicleState>)
    requires Placed(vs, lengths) && |arrived| == |vs|
    ensures |res| == |vs| && Placed(res, lengths)
    ensures forall i :: 0 <= i < |vs| ==>
              && res[i] == vs[i].(currentTargetIndex := res[i].currentTargetIndex)
              && res[i].currentTargetIndex == NextTargetIndex(vs[i].currentTargetIndex, lengths[i], arrived[i])
  {
    seq(|vs|, i requires 0 <= i < |vs| =>
      vs[i].(currentTargetIndex := NextTargetIndex(vs[i].currentTargetIndex, lengths[i], arrived[i])))
  }

  /**
   * The simulation loop: each tick t moves the vehicles (arrivals[t] says
   * which have arrived at their target), then runs the communication pass
   * at times[t] with range flags ranges[t]. The loop never resets the RSU.
   */
  function Run(r: RsuState, vs: seq<VehicleState>, lengths: seq<nat>, arrivals: seq<seq<bool>>,
               ranges: seq<seq<bool>>, times: seq<int>): (res: (RsuState, seq<VehicleState>))
    requires Placed(vs, lengths) && Schedule(|vs|, arrivals, times) && Schedule(|vs|, ranges, times)
    ensures |res.1| == |vs| && Placed(res.1, lengths)
    decreases |times|
  {
    if times == [] then (r, vs)
    else
      var (r1, vs1) := Pass(r, Move(vs, lengths, arrivals[0]), ranges[0], times[0]);
      Run(r1, vs1, lengths, arrivals[1..], ranges[1..], times[1..])
  }

  /** Over a run, each vehicle has moved on by one waypoint, round its path, per tick it had arrived. */
  lemma {:induction false} RunTargets(r: RsuState, vs: seq<VehicleState>, lengths: seq<nat>, arrivals: seq<seq<bool>>,
                                      ranges: seq<seq<bool>>, times: seq<int>, i: nat)
    requires Placed(vs, lengths) && Schedule(|vs|, arrivals, times) && Schedule(|vs|, ranges, times) && i < |vs|
    ensures Run(r, vs, lengths, arrivals, ranges, times).1[i].currentTargetIndex
         == Arrivals(vs[i].currentTargetIndex, lengths[i], ArrivalCount(i, arrivals))
    decreases |times|
  {
    if times != [] {
      var moved := Move(vs, lengths, arrivals[0]);
      var (r1, vs1) := Pass(r, moved, ranges[0], times[0]);
      RunTargets(r1, vs1, lengths, arrivals[1..], ranges[1..], times[1..], i);
      if arrivals[0][i] {
        ArrivalsShift(vs[i].currentTargetIndex, lengths[i], ArrivalCount(i, arrivals[1..]));
      }
    }
  }

  /** Over a run, a vehicle's limiter has made exactly one attempt per tick it was in range for. */
  lemma {:induction false} RunLimiter(r: RsuState, vs: seq<VehicleState>, lengths: seq<nat>, arrivals: seq<seq<bool>>,
                                      ranges: seq<seq<bool>>, times: seq<int>, i: nat)
    requires Placed(vs, lengths) && Schedule(|vs|, arrivals, times) && Schedule(|vs|, ranges, times) && i < |vs|
    ensures LimiterOf(Run(r, vs, lengths, arrivals, ranges, times).1[i])
         == AttemptAll(LimiterOf(vs[i]), InRangeTimes(i, ranges, times), LegitimateInterval)
    decreases |times|
  {
    if times != [] {
      var moved := Move(vs, lengths, arrivals[0]);
      var (r1, vs1) := Pass(r, moved, ranges[0], times[0]);
      PassLimiter(r, moved, ranges[0], times[0], i);
      RunLimiter(r1, vs1, lengths, arrivals[1..], ranges[1..], times[1..], i);
      var rest := InRangeTimes(i, ranges[1..], times[1..]);
      if ranges[0][i] {
        var a := [times[0]] + rest;
        assert InRangeTimes(i, ranges, times) == a;
        assert a[0] == times[0] && a[1..] == rest;
      } else {
        assert InRangeTimes(i, ranges, times) == rest;
      }
    }
  }

  /**
   * Rate-limit correctness for the simulated vehicles: over a run whose
   * passes fall within a window of `span` microseconds, each vehicle sends
   * at most span / 0.05 s + 1 packets.
   */
  lemma RunRateBound(r: RsuState, vs: seq<VehicleState>, lengths: seq<nat>, arrivals: seq<seq<bool>>,
                     ranges: seq<seq<bool>>, times: seq<int>, i: nat, start: int, span: nat)
    requires Placed(vs, lengths) && Schedule(|vs|, arrivals, times) && Schedule(|vs|, ranges, times) && i < |vs|
    requires forall t :: t in times ==> start <= t <= start + span
    ensures Run(r, vs, lengths, arrivals, ranges, times).1[i].sentPackets
         <= vs[i].sentPackets + span / LegitimateInterval + 1
  {
    RunLimiter(r, vs, lengths, arrivals, ranges, times, i);
    SentWithinWindow(LimiterOf(vs[i]), InRangeTimes(i, ranges, times), LegitimateInterval, start, span);
  }

  /** Vehicles with the same received counters, one by one, have the same received sum. */
  lemma {:induction false} SumReceivedSame(a: seq<VehicleState>, b: seq<VehicleState>)
    requires |a| == |b| && forall i :: 0 <= i < |a| ==> a[i].legitimateReceivedPackets == b[i].legitimateReceivedPackets
    ensures SumReceived(a) == SumReceived(b)
  {
    if a != [] {
      var n := |a| - 1;
      SumReceivedSame(a[..n], b[..n]);
    }
  }

  /** A run keeps the invariants of every pass, and the RSU's received count tracks the vehicles' sum. */
  lemma {:induction false} RunKeepsInvariants(r: RsuState, vs: seq<VehicleState>, lengths: seq<nat>, arrivals: seq<seq<bool>>,
                                              ranges: seq<seq<bool>>, times: seq<int>)
    requires Placed(vs, lengths) && Schedule(|vs|, arrivals, times) && Schedule(|vs|, ranges, times)
    requires GateInv(r) && forall i :: 0 <= i < |vs| ==> VehicleInv(vs[i])
    ensures var res := Run(r, vs, lengths, arrivals, ranges, times);
            && GateInv(res.0)
            && (forall i :: 0 <= i < |vs| ==> VehicleInv(res.1[i]))
            && res.0.legitimateReceived - SumReceived(res.1) == r.legitimateReceived - SumReceived(vs)
    decreases |times|
  {
    if times != [] {
      var moved := Move(vs, lengths, arrivals[0]);
      SumReceivedSame(moved, vs);
      PassKeepsInvariants(r, moved, ranges[0], times[0]);
      var (r1, vs1) := Pass(r, moved, ranges[0], times[0]);
      RunKeepsInvariants(r1, vs1, lengths, arrivals[1..], ranges[1..], times[1..]);
    }
  }

  /**
   * Over a run an inoperable RSU stays as it is, and a run that ends with
   * the RSU operational raised no communication error.
   */
  lemma {:induction false} RunFlags(r: RsuState, vs: seq<VehicleState>, lengths: seq<nat>, arrivals: seq<seq<bool>>,
                                    ranges: seq<seq<bool>>, times: seq<int>)
    requires Placed(vs, lengths) && Schedule(|vs|, arrivals, times) && Schedule(|vs|, ranges, times)
    ensures var res := Run(r, vs, lengths, arrivals, ranges, times);
            && (!r.operational ==> res.0 == r)
            && (res.0.operational ==>
                  forall i :: 0 <= i < |vs| ==> res.1[i].communicationError == vs[i].communicationError)
    decreases |times|
  {
    if times != [] {
      var moved := Move(vs, lengths, arrivals[0]);
      PassFlags(r, moved, ranges[0], times[0]);
      var (r1, vs1) := Pass(r, moved, ranges[0], times[0]);
      RunFlags(r1, vs1, lengths, arrivals[1..], ranges[1..], times[1..]);
    }
  }

  /** Vehicles that each sent at most `b` packets have at most |vs| * b received between them. */
  lemma {:induction false} SumReceivedBound(vs: seq<VehicleState>, b: nat)
    requires forall i :: 0 <= i < |vs| ==> VehicleInv(vs[i]) && vs[i].sentPackets <= b
    ensures SumReceived(vs) <= |vs| * b
  {
    if vs != [] {
      var n := |vs| - 1;
      assert forall i :: 0 <= i < n ==> vs[..n][i] == vs[i];
      SumReceivedBound(vs[..n], b);
      assert |vs| * b == n * b + b;
    }
  }

  /**
   * Legitimate traffic alone does not overload the RSU: vehicles starting
   * with nothing sent, run from a fresh RSU through passes within a window
   * of `span` microseconds, leave it operational and raise no communication
   * error whenever together they cannot send more than its capacity at the
   * 0.05 s rate.
   */
  lemma NormalRateKeepsRsuOperational(vs: seq<VehicleState>, lengths: seq<nat>, arrivals: seq<seq<bool>>,
                                      ranges: seq<seq<bool>>, times: seq<int>, start: int, span: nat)
    requires Placed(vs, lengths) && Schedule(|vs|, arrivals, times) && Schedule(|vs|, ranges, times)
    requires forall i :: 0 <= i < |vs| ==> vs[i].sentPackets == 0 && VehicleInv(vs[i]) && !vs[i].communicationError
    requires forall t :: t in times ==> start <= t <= start + span
    requires |vs| * (span / LegitimateInterval + 1) <= MaxMessages
    ensures var res := Run(InitialRsu(), vs, lengths, arrivals, ranges, times);
            && res.0.operational
            && forall i :: 0 <= i < |vs| ==> !res.1[i].communicationError
  {
    var res := Run(InitialRsu(), vs, lengths, arrivals, ranges, times);
    var b := span / LegitimateInterval + 1;
    SumReceivedBound(vs, 0);
    RunKeepsInvariants(InitialRsu(), vs, lengths, arrivals, ranges, times);
    forall i | 0 <= i < |vs| ensures res.1[i].sentPackets <= b {
      RunRateBound(InitialRsu(), vs, lengths, arrivals, ranges, times, i, start, span);
    }
    SumReceivedBound(res.1, b);
    RunFlags(InitialRsu(), vs, lengths, arrivals, ranges, times);
  }

  /**
   * The simulated setting: five vehicles created with nothing sent, on
   * paths of any lengths, over any 20 s window (the loop stops after 10 s),
   * never take the RSU out of service.
   */
  lemma FiveVehiclesKeepRsuOperational(created: seq<int>, lengths: seq<nat>, arrivals: seq<seq<bool>>,
                                       ranges: seq<seq<bool>>, times: seq<int>, start: int)
    requires |created| == 5 && |lengths| == 5
    requires Schedule(5, arrivals, times) && Schedule(5, ranges, times)
    requires forall t :: t in times ==> start <= t <= start + 20_000_000
    ensures var vs := seq(5, i requires 0 <= i < 5 => InitialVehicle(created[i]));
            var res := Run(InitialRsu(), vs, lengths, arrivals, ranges, times);
            && res.0.operational
            && forall i :: 0 <= i < 5 ==> !res.1[i].communicationError
  {
    var vs := seq(5, i requires 0 <= i < 5 => InitialVehicle(created[i]));
    assert 5 * (20_000_000 / LegitimateInterval + 1) <= MaxMessages;
    NormalRateKeepsRsuOperational(vs, lengths, arrivals, ranges, times, start, 20_000_000);
  }

  /** `count` messages reaching the RSU one after another. */
  function AdmitAll(r: RsuState, count: nat): RsuState
  {
    if count == 0 then r else Admit(AdmitAll(r, count - 1))
  }

  /** Once inoperable, the RSU ignores every later message until reset. */
  lemma {:induction false} InoperableIsFinal(r: RsuState, count: nat)
    requires !r.operational
    ensures AdmitAll(r, count) == r
  {
    if count > 0 {
      InoperableIsFinal(r, count - 1);
    }
  }

  /**
   * The capacity gate from a fresh RSU: of any number of messages it
   * accepts exactly the first 2501, going inoperable on the 2501st, and its
   * received count equals its message count. In particular, fewer than 2501
   * messages leave it operational.
   */
  lemma {:induction false} CapacityGate(count: nat)
    ensures var r := AdmitAll(InitialRsu(), count);
            && r.messageCount == (if count <= MaxMessages then count else MaxMessages + 1)
            && (r.operational <==> count <= MaxMessages)
            && r.legitimateReceived == r.messageCount
            && GateInv(r)
  {
    if count > 0 {
      CapacityGate(count - 1);
    }
  }

  class Vehicle {
    /** The waypoints (graph node ids) driven round. */
    const path: seq<nat>
    var currentTargetIndex: nat
    var communicationError: bool
    var sentPackets: nat
    var legitimateReceivedPackets: nat
    var lastSentTime: int

    ghost predicate Valid()
      reads this
    {
      IndexInRange(currentTargetIndex, |path|)
    }

    function State(): VehicleState
      reads this
    {
      VehicleState(currentTargetIndex, communicationError, sentPackets, legitimateReceivedPackets, lastSentTime)
    }

    /** LegitimateVehicle's constructor at time `created`; position and image are not modelled. */
    constructor (path: seq<nat>, created: int)
      ensures Valid() && this.path == path
      ensures State() == InitialVehicle(created)
    {
      this.path := path;
      currentTargetIndex := 0;
      communicationError := false;
      sentPackets := 0;
      legitimateReceivedPackets := 0;
      lastSentTime := created;
    }

    /** The base class's send_packet, which LegitimateVehicle overrides. */
    method SendPacketUnthrottled(rsu: Rsu)
      modifies this, rsu
      ensures (rsu.State(), State()) == SendUnthrottled(old(rsu.State()), old(State()))
    {
      sentPackets := sentPackets + 1;
      rsu.ReceiveMessage(this);
    }

    /** LegitimateVehicle.send_packet at time `now`. */
    method SendPacket(rsu: Rsu, now: int)
      modifies this, rsu
      ensures (rsu.State(), State()) == Send(old(rsu.State()), old(State()), now)
    {
      if now - lastSentTime > LegitimateInterval {
        lastSentTime := now;
        sentPackets := sentPackets + 1;
        rsu.ReceiveMessage(this);
      }
    }

    /** update, given whether the vehicle is within one unit of its target. */
    method Update(arrived: bool)
      requires Valid()
      modifies this`currentTargetIndex
      ensures Valid()
      ensures State() == old(State()).(currentTargetIndex := NextTargetIndex(old(currentTargetIndex), |path|, arrived))
    {
      if |path| > 0 && arrived {
        currentTargetIndex := currentTargetIndex + 1;
        if currentTargetIndex >= |path| {
          currentTargetIndex := 0;
        }
      }
    }
  }

  class Rsu {
    var messageCount: nat
    var operational: bool
    var legitimateReceived: nat

    function State(): RsuState
      reads this
    {
      RsuState(messageCount, operational, legitimateReceived)
    }

    constructor ()
      ensures State() == InitialRsu()
    {
      messageCount := 0;
      operational := true;
      legitimateReceived := 0;
    }

    method ReceiveMessage(vehicle: Vehicle)
      modifies this, vehicle`legitimateReceivedPackets
      ensures (State(), vehicle.State()) == Receive(old(State()), old(vehicle.State()))
    {
      if !operational {
        return;
      }
      messageCount := messageCount + 1;
      vehicle.legitimateReceivedPackets := vehicle.legitimateReceivedPackets + 1;
      legitimateReceived := legitimateReceived + 1;
      if messageCount > MaxMessages {
        operational := false;
      }
    }

    method Reset()
      modifies this
      ensures State() == ResetRsu(old(State()))
    {
      messageCount := 0;
      operational := true;
    }
  }

  predicate Distinct(vs: seq<Vehicle>)
  {
    forall i, j :: 0 <= i < j < |vs| ==> vs[i] != vs[j]
  }

  function States(vs: seq<Vehicle>): (r: seq<VehicleState>)
    reads vs
    ensures |r| == |vs| && forall i :: 0 <= i < |vs| ==> r[i] == vs[i].State()
  {
    if vs == [] then [] else States(vs[..|vs| - 1]) + [vs[|vs| - 1].State()]
  }

  /** The number of waypoints on each vehicle's path. */
  function PathLengths(vs: seq<Vehicle>): (r: seq<nat>)
    ensures |r| == |vs| && forall i :: 0 <= i < |vs| ==> r[i] == |vs[i].path|
  {
    seq(|vs|, i requires 0 <= i < |vs| => |vs[i].path|)
  }

  /**
   * The sprite-group update that opens each tick: every vehicle in turn
   * steps its target index, vehicle i having arrived when `arrived[i]`, and
   * nothing else about any vehicle changes.
   */
  method UpdateAll(vehicles: seq<Vehicle>, arrived: seq<bool>)
    requires |arrived| == |vehicles| && Distinct(vehicles)
    requires forall i :: 0 <= i < |vehicles| ==> vehicles[i].Valid()
    modifies vehicles
    ensures forall i :: 0 <= i < |vehicles| ==> vehicles[i].Valid()
    ensures forall i :: 0 <= i < |vehicles| ==>
              old(vehicles[i].Valid()) &&
              vehicles[i].State() == old(vehicles[i].State()).(currentTargetIndex :=
                NextTargetIndex(old(vehicles[i].currentTargetIndex), |vehicles[i].path|, arrived[i]))
    ensures Placed(old(States(vehicles)), PathLengths(vehicles))
    ensures States(vehicles) == Move(old(States(vehicles)), PathLengths(vehicles), arrived)
  {
    var i := 0;
    while i < |vehicles|
      invariant 0 <= i <= |vehicles|
      invariant forall j :: 0 <= j < |vehicles| ==> vehicles[j].Valid()
      invariant forall j :: 0 <= j < i ==>
                  old(vehicles[j].Valid()) &&
                  vehicles[j].State() == old(vehicles[j].State()).(currentTargetIndex :=
                    NextTargetIndex(old(vehicles[j].currentTargetIndex), |vehicles[j].path|, arrived[j]))
      invariant forall j :: i <= j < |vehicles| ==> vehicles[j].State() == old(vehicles[j].State())
    {
      vehicles[i].Update(arrived[i]);
      i := i + 1;
    }
  }

  /** One vehicle's turn in the communication pass. */
  method Turn(rsu: Rsu, vehicle: Vehicle, inRange: bool, now: int)
    modifies rsu, vehicle
    ensures (rsu.State(), vehicle.State()) == Communicate(old(rsu.State()), old(vehicle.State()), inRange, now)
  {
    if inRange {
      vehicle.SendPacket(rsu, now);
      if !rsu.operational {
        vehicle.communicationError := true;
      }
    }
  }

  /**
   * The communication part of one tick: each vehicle in turn, in range when
   * its entry of `inRange` says so, tries to send at time `now`, and flags a
   * communication error if the RSU is then inoperable.
   */
  method CommunicationPass(rsu: Rsu, vehicles: seq<Vehicle>, inRange: seq<bool>, now: int)
    requires |inRange| == |vehicles|
    requires Distinct(vehicles)
    modifies rsu, vehicles
    ensures (rsu.State(), States(vehicles)) == Pass(old(rsu.State()), old(States(vehicles)), inRange, now)
  {
    ghost var r0, s0 := rsu.State(), States(vehicles);
    ghost var acc: (RsuState, seq<VehicleState>) := (r0, []);
    var i := 0;
    while i < |vehicles|
      invariant 0 <= i <= |vehicles|
      invariant PassedUpTo(rsu, vehicles, inRange, now, r0, s0, acc, i)
    {
      acc := TurnAt(rsu, vehicles, inRange, now, r0, s0, acc, i);
      i := i + 1;
    }
    assert s0[..i] == s0;
    assert inRange[..i] == inRange;
    assert States(vehicles) == acc.1;
  }

  /**
   * Where the communication pass stands before vehicle i's turn: the RSU and
   * the first i vehicles are as the pass over those i makes them, and the
   * other vehicles are as they started.
   */
  ghost predicate PassedUpTo(rsu: Rsu, vehicles: seq<Vehicle>, inRange: seq<bool>, now: int,
                             r0: RsuState, s0: seq<VehicleState>, acc: (RsuState, seq<VehicleState>), i: nat)
    reads rsu, vehicles
  {
    && |inRange| == |vehicles| == |s0| && i <= |vehicles|
    && acc == Pass(r0, s0[..i], inRange[..i], now)
    && rsu.State() == acc.0 && |acc.1| == i
    && (forall j :: 0 <= j < i ==> vehicles[j].State() == acc.1[j])
    && (forall j :: i <= j < |vehicles| ==> vehicles[j].State() == s0[j])
  }

  /** Vehicle i's turn, as a step of the communication pass. */
  method TurnAt(rsu: Rsu, vehicles: seq<Vehicle>, inRange: seq<bool>, now: int,
                ghost r0: RsuState, ghost s0: seq<VehicleState>, ghost acc: (RsuState, seq<VehicleState>), i: nat)
      returns (ghost acc': (RsuState, seq<VehicleState>))
    requires Distinct(vehicles) && i < |vehicles|
    requires PassedUpTo(rsu, vehicles, inRange, now, r0, s0, acc, i)
    modifies rsu, vehicles[i]
    ensures PassedUpTo(rsu, vehicles, inRange, now, r0, s0, acc', i + 1)
  {
    ghost var turn := Communicate(acc.0, s0[i], inRange[i], now);
    Turn(rsu, vehicles[i], inRange[i], now);
    PassStep(r0, s0, inRange, now, i);
    acc' := (turn.0, acc.1 + [turn.1]);
  }
}
