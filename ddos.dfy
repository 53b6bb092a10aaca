/**
 * DDOS.py: malicious vehicles flood one roadside unit (RSU) while
 * legitimate vehicles send at their normal rate. The RSU counts every
 * message it accepts, split by class, and once its count passes its capacity
 * of 2500 it goes inoperable and drops everything until reset. Legitimate
 * vehicles in range of an inoperable RSU raise a communication-error flag.
 */
module Ddos {

  import opened RateLimit
  import opened PathFollow

  /** The RSU's capacity (max_messages). */
  const MaxMessages: nat := 2500

  datatype RsuState = RsuState(
    messageCount: nat,
    operational: bool,
    maliciousReceived: nat,
    legitimateReceived: nat)

  /** A vehicle's state, with its fixed classification. */
  datatype VehicleState = VehicleState(
    isMalicious: bool,
    currentTargetIndex: nat,
    communicationError: bool,
    sentPackets: nat,
    legitimateReceivedPackets: nat,
    maliciousReceivedPackets: nat,
    lastSentTime: int)

  function InitialRsu(): RsuState
  {
    RsuState(0, true, 0, 0)
  }

  /** A vehicle as created at time `created`. */
  function InitialVehicle(isMalicious: bool, created: int): VehicleState
  {
    VehicleState(isMalicious, 0, false, 0, 0, 0, created)
  }

  /**
   * What the RSU's counters always satisfy: it is operational exactly while
   * its count is within capacity, the count never goes more than one past
   * capacity, and the per-class counts, which reset leaves alone, never fall
   * below it.
   */
  ghost predicate GateInv(r: RsuState)
  {
    && (r.operational <==> r.messageCount <= MaxMessages)
    && r.messageCount <= MaxMessages + 1
    && r.messageCount <= r.maliciousReceived + r.legitimateReceived
  }

  /** The packets the RSU accepted from a vehicle, whichever counter holds them. */
  function Received(v: VehicleState): nat
  {
    v.legitimateReceivedPackets + v.maliciousReceivedPackets
  }

  /** A vehicle never has more accepted than it sent, all in the counter of its class. */
  ghost predicate VehicleInv(v: VehicleState)
  {
    && Received(v) <= v.sentPackets
    && (v.isMalicious ==> v.legitimateReceivedPackets == 0)
    && (!v.isMalicious ==> v.maliciousReceivedPackets == 0)
  }

  function LimiterOf(v: VehicleState): Limiter
  {
    Limiter(v.lastSentTime, v.sentPackets)
  }

  /** `v'` differs from `v` at most in its send time and packet counters. */
  ghost predicate OnlyTraffic(v: VehicleState, v': VehicleState)
  {
    v' == v.(lastSentTime := v'.lastSentTime, sentPackets := v'.sentPackets,
             legitimateReceivedPackets := v'.legitimateReceivedPackets,
             maliciousReceivedPackets := v'.maliciousReceivedPackets)
  }

  /** The RSU's own part of receive_message. */
  function Admit(r: RsuState, isMalicious: bool): (r': RsuState)
    ensures !r.operational ==> r' == r
    ensures r.operational ==> r'.messageCount == r.messageCount + 1
    ensures r.operational && isMalicious ==>
              r'.maliciousReceived == r.maliciousReceived + 1 && r'.legitimateReceived == r.legitimateReceived
    ensures r.operational && !isMalicious ==>
              r'.legitimateReceived == r.legitimateReceived + 1 && r'.maliciousReceived == r.maliciousReceived
    ensures r'.operational <==> r.operational && r'.messageCount <= MaxMessages
    ensures GateInv(r) ==> GateInv(r')
  {
    if !r.operational then r
    else
      var counted :=
        if isMalicious then
          r.(messageCount := r.messageCount + 1, maliciousReceived := r.maliciousReceived + 1)
        else
          r.(messageCount := r.messageCount + 1, legitimateReceived := r.legitimateReceived + 1);
      if counted.messageCount > MaxMessages then counted.(operational := false) else counted
  }

  /**
   * RSU.receive_message: the RSU admits the message, and the vehicle's
   * counter of its class moves exactly as the RSU's counter of that class.
   */
  function Receive(r: RsuState, v: VehicleState): (res: (RsuState, VehicleState))
    ensures res.0 == Admit(r, v.isMalicious)
    ensures OnlyTraffic(v, res.1) && LimiterOf(res.1) == LimiterOf(v)
    ensures res.1.maliciousReceivedPackets - v.maliciousReceivedPackets
         == res.0.maliciousReceived - r.maliciousReceived
    ensures res.1.legitimateReceivedPackets - v.legitimateReceivedPackets
         == res.0.legitimateReceived - r.legitimateReceived
  {
    if !r.operational then (r, v)
    else if v.isMalicious then
      (Admit(r, true), v.(maliciousReceivedPackets := v.maliciousReceivedPackets + 1))
    else
      (Admit(r, false), v.(legitimateReceivedPackets := v.legitimateReceivedPackets + 1))
  }

  /**
   * The base Vehicle.send_packet, which both subclasses override: count the
   * packet and hand it to the RSU, with no rate limit. Only the sent counter
   * and the counter of the vehicle's class change, the latter exactly as the
   * RSU's counter of that class.
   */
  function SendUnthrottled(r: RsuState, v: VehicleState): (res: (RsuState, VehicleState))
    ensures res.0 == Admit(r, v.isMalicious)
    ensures res.1.sentPackets == v.sentPackets + 1 && res.1.lastSentTime == v.lastSentTime
    ensures OnlyTraffic(v, res.1)
    ensures res.1.maliciousReceivedPackets - v.maliciousReceivedPackets
         == res.0.maliciousReceived - r.maliciousReceived
    ensures res.1.legitimateReceivedPackets - v.legitimateReceivedPackets
         == res.0.legitimateReceived - r.legitimateReceived
    ensures Received(res.1) <= Received(v) + 1
    ensures VehicleInv(v) ==> VehicleInv(res.1)
    ensures GateInv(r) ==> GateInv(res.0)
  {
    Receive(r, v.(sentPackets := v.sentPackets + 1))
  }

  /**
   * MaliciousVehicle.send_packet and LegitimateVehicle.send_packet: the
   * rate limiter of the vehicle's class decides whether the packet goes out;
   * if it does, it is counted and handed to the RSU, and otherwise nothing
   * changes.
   */
  function Send(r: RsuState, v: VehicleState, now: int): (res: (RsuState, VehicleState))
    ensures LimiterOf(res.1) == Attempt(LimiterOf(v), now, IntervalFor(v.isMalicious))
    ensures res.1.sentPackets == v.sentPackets ==> res == (r, v)
    ensures res.1.sentPackets != v.sentPackets ==> res.0 == Admit(r, v.isMalicious)
    ensures OnlyTraffic(v, res.1)
    ensures res.1.maliciousReceivedPackets - v.maliciousReceivedPackets
         == res.0.maliciousReceived - r.maliciousReceived
    ensures res.1.legitimateReceivedPackets - v.legitimateReceivedPackets
         == res.0.legitimateReceived - r.legitimateReceived
    ensures VehicleInv(v) ==> VehicleInv(res.1)
    ensures GateInv(r) ==> GateInv(res.0)
  {
    if MayEmit(now, v.lastSentTime, IntervalFor(v.isMalicious)) then
      Receive(r, v.(lastSentTime := now, sentPackets := v.sentPackets + 1))
    else (r, v)
  }

  /**
   * One vehicle's turn in the communication pass: a vehicle in range tries
   * to send, and a legitimate one that then finds the RSU inoperable flags a
   * communication error (whether or not its own packet went out).
   */
  function Communicate(r: RsuState, v: VehicleState, inRange: bool, now: int): (res: (RsuState, VehicleState))
    ensures !inRange ==> res == (r, v)
    ensures inRange ==> (res.0, res.1.(communicationError := v.communicationError)) == Send(r, v, now)
    ensures res.1.communicationError <==>
              v.communicationError || (inRange && !v.isMalicious && !res.0.operational)
  {
    if !inRange then (r, v)
    else
      var (r1, v1) := Send(r, v, now);
      if !r1.operational && !v.isMalicious then (r1, v1.(communicationError := true)) else (r1, v1)
  }

  /** The communication pass over the vehicles in order: `vs[i]` is in range when `inRange[i]`. */
  function Pass(r: RsuState, vs: seq<VehicleState>, inRange: seq<bool>, now: int): (res: (RsuState, seq<VehicleState>))
    requires |inRange| == |vs|
    ensures |res.1| == |vs|
    ensures forall i :: 0 <= i < |vs| ==> res.1[i].currentTargetIndex == vs[i].currentTargetIndex
    decreases |vs|
  {
    if vs == [] then (r, [])
    else
      var n := |vs| - 1;
      var (r1, done) := Pass(r, vs[..n], inRange[..n], now);
      var (r2, v2) := Communicate(r1, vs[n], inRange[n], now);
      (r2, done + [v2])
  }

  /** The pass over the first i + 1 vehicles is the pass over the first i, then vehicle i's turn. */
  lemma PassStep(r: RsuState, vs: seq<VehicleState>, inRange: seq<bool>, now: int, i: nat)
    requires |inRange| == |vs| && i < |vs|
    ensures var before := Pass(r, vs[..i], inRange[..i], now);
            var turn := Communicate(before.0, vs[i], inRange[i], now);
            Pass(r, vs[..i + 1], inRange[..i + 1], now) == (turn.0, before.1 + [turn.1])
  {
    assert vs[..i + 1][..i] == vs[..i];
    assert inRange[..i + 1][..i] == inRange[..i];
  }

  /** The RSU reset: count cleared, service restored, class counts kept. */
  function ResetRsu(r: RsuState): (r': RsuState)
    ensures r'.messageCount == 0 && r'.operational
    ensures r'.maliciousReceived == r.maliciousReceived && r'.legitimateReceived == r.legitimateReceived
    ensures GateInv(r) ==> GateInv(r')
  {
    r.(messageCount := 0, operational := true)
  }

  function SumMalicious(vs: seq<VehicleState>): nat
  {
    if vs == [] then 0 else SumMalicious(vs[..|vs| - 1]) + vs[|vs| - 1].maliciousReceivedPackets
  }

  function SumLegitimate(vs: seq<VehicleState>): nat
  {
    if vs == [] then 0 else SumLegitimate(vs[..|vs| - 1]) + vs[|vs| - 1].legitimateReceivedPackets
  }

  /**
   * A communication pass keeps the RSU's and every vehicle's invariant, and
   * the RSU's per-class counts move exactly as the sums of the vehicles'
   * per-class counts do, so the report's totals agree with the RSU.
   */
  lemma {:induction false} PassKeepsInvariants(r: RsuState, vs: seq<VehicleState>, inRange: seq<bool>, now: int)
    requires |inRange| == |vs|
    requires GateInv(r) && forall i :: 0 <= i < |vs| ==> VehicleInv(vs[i])
    ensures var res := Pass(r, vs, inRange, now);
            && GateInv(res.0)
            && (forall i :: 0 <= i < |vs| ==> VehicleInv(res.1[i]))
            && res.0.maliciousReceived - SumMalicious(res.1) == r.maliciousReceived - SumMalicious(vs)
            && res.0.legitimateReceived - SumLegitimate(res.1) == r.legitimateReceived - SumLegitimate(vs)
    decreases |vs|
  {
    if vs != [] {
      var n := |vs| - 1;
      PassKeepsInvariants(r, vs[..n], inRange[..n], now);
      var (r1, done) := Pass(r, vs[..n], inRange[..n], now);
      var (r2, v2) := Communicate(r1, vs[n], inRange[n], now);
      assert Pass(r, vs, inRange, now) == (r2, done + [v2]);
      assert (done + [v2])[..n] == done;
    }
  }

  /**
   * What a communication pass does to each vehicle's flags and counters: it
   * keeps classification and target, sends at most once per vehicle in
   * range, never clears a communication error, and sets one only on a
   * legitimate vehicle in range of an RSU that is inoperable by the end of
   * the pass. A pass that meets an RSU already inoperable changes no counter
   * of the RSU or of any vehicle's received packets, and flags every
   * legitimate vehicle in range.
   */
  lemma {:induction false} PassFlags(r: RsuState, vs: seq<VehicleState>, inRange: seq<bool>, now: int)
    requires |inRange| == |vs|
    ensures var res := Pass(r, vs, inRange, now);
            && (forall i :: 0 <= i < |vs| ==>
                  && res.1[i].isMalicious == vs[i].isMalicious
                  && res.1[i].currentTargetIndex == vs[i].currentTargetIndex
                  && res.1[i].sentPackets <= vs[i].sentPackets + (if inRange[i] then 1 else 0)
                  && (vs[i].communicationError ==> res.1[i].communicationError)
                  && (res.1[i].communicationError && !vs[i].communicationError ==>
                        inRange[i] && !vs[i].isMalicious && !res.0.operational))
            && (!r.operational ==>
                  && res.0 == r
                  && forall i :: 0 <= i < |vs| ==>
                       && Received(res.1[i]) == Received(vs[i])
                       && (inRange[i] && !vs[i].isMalicious ==> res.1[i].communicationError))
    decreases |vs|
  {
    if vs != [] {
      var n := |vs| - 1;
      PassFlags(r, vs[..n], inRange[..n], now);
      var (r1, done) := Pass(r, vs[..n], inRange[..n], now);
      var (r2, v2) := Communicate(r1, vs[n], inRange[n], now);
      assert Pass(r, vs, inRange, now) == (r2, done + [v2]);
      assert !r1.operational ==> !r2.operational;
    }
  }

  /**
   * A vehicle's limiter after a pass: one attempt at `now`, at the interval
   * of its class, if it was in range, none otherwise; its class is kept.
   */
  lemma {:induction false} PassLimiter(r: RsuState, vs: seq<VehicleState>, inRange: seq<bool>, now: int, i: nat)
    requires |inRange| == |vs| && i < |vs|
    ensures Pass(r, vs, inRange, now).1[i].isMalicious == vs[i].isMalicious
    ensures LimiterOf(Pass(r, vs, inRange, now).1[i])
         == if inRange[i] then Attempt(LimiterOf(vs[i]), now, IntervalFor(vs[i].isMalicious)) else LimiterOf(vs[i])
    decreases |vs|
  {
    var n := |vs| - 1;
    var (r1, done) := Pass(r, vs[..n], inRange[..n], now);
    var (r2, v2) := Communicate(r1, vs[n], inRange[n], now);
    assert Pass(r, vs, inRange, now) == (r2, done + [v2]);
    if i < n {
      PassLimiter(r, vs[..n], inRange[..n], now, i);
      assert vs[..n][i] == vs[i] && inRange[..n][i] == inRange[i];
    }
  }

  /** Each vehicle's target index lies on its path, which has lengths[i] waypoints. */
  ghost predicate Placed(vs: seq<VehicleState>, lengths: seq<nat>)
  {
    |lengths| == |vs| && forall i :: 0 <= i < |vs| ==> IndexInRange(vs[i].currentTargetIndex, lengths[i])
  }

  /**
   * all_sprites.update() on the vehicles' states: each vehicle's target
   * index steps as NextTargetIndex, on arrival, and nothing else changes.
   */
  function Move(vs: seq<VehicleState>, lengths: seq<nat>, arrived: seq<bool>): (res: seq<VehicleState>)
    requires Placed(vs, lengths) && |arrived| == |vs|
    ensures |res| == |vs| && Placed(res, lengths)
    ensures forall i :: 0 <= i < |vs| ==>
              && res[i] == vs[i].(currentTargetIndex := res[i].currentTargetIndex)
              && res[i].currentTargetIndex == NextTargetIndex(vs[i].currentTargetIndex, lengths[i], arrived[i])
  {
    seq(|vs|, i requires 0 <= i < |vs| =>
      vs[i].(currentTargetIndex := NextTargetIndex(vs[i].currentTargetIndex, lengths[i], arrived[i])))
  }

  /**
   * The simulation loop: each tick t moves the vehicles (arrivals[t] says
   * which have arrived at their target), then runs the communication pass
   * at times[t] with range flags ranges[t], over the malicious vehicles
   * followed by the legitimate ones. The loop never resets the RSU.
   */
  function Run(r: RsuState, vs: seq<VehicleState>, lengths: seq<nat>, arrivals: seq<seq<bool>>,
               ranges: seq<seq<bool>>, times: seq<int>): (res: (RsuState, seq<VehicleState>))
    requires Placed(vs, lengths) && Schedule(|vs|, arrivals, times) && Schedule(|vs|, ranges, times)
    ensures |res.1| == |vs| && Placed(res.1, lengths)
    decreases |times|
  {
    if times == [] then (r, vs)
    else
      var (r1, vs1) := Pass(r, Move(vs, lengths, arrivals[0]), ranges[0], times[0]);
      Run(r1, vs1, lengths, arrivals[1..], ranges[1..], times[1..])
  }

  /** Over a run, each vehicle has moved on by one waypoint, round its path, per tick it had arrived. */
  lemma {:induction false} RunTargets(r: RsuState, vs: seq<VehicleState>, lengths: seq<nat>, arrivals: seq<seq<bool>>,
                                      ranges: seq<seq<bool>>, times: seq<int>, i: nat)
    requires Placed(vs, lengths) && Schedule(|vs|, arrivals, times) && Schedule(|vs|, ranges, times) && i < |vs|
    ensures Run(r, vs, lengths, arrivals, ranges, times).1[i].currentTargetIndex
         == Arrivals(vs[i].currentTargetIndex, lengths[i], ArrivalCount(i, arrivals))
    decreases |times|
  {
    if times != [] {
      var moved := Move(vs, lengths, arrivals[0]);
      var (r1, vs1) := Pass(r, moved, ranges[0], times[0]);
      RunTargets(r1, vs1, lengths, arrivals[1..], ranges[1..], times[1..], i);
      if arrivals[0][i] {
        ArrivalsShift(vs[i].currentTargetIndex, lengths[i], ArrivalCount(i, arrivals[1..]));
      }
    }
  }

  /**
   * Over a run, a vehicle keeps its class and its limiter has made exactly
   * one attempt, at the interval of its class, per tick it was in range for.
   */
  lemma {:induction false} RunLimiter(r: RsuState, vs: seq<VehicleState>, lengths: seq<nat>, arrivals: seq<seq<bool>>,
               ranges: seq<seq<bool>>, times: seq<int>, i: nat)
    requires Placed(vs, lengths) && Schedule(|vs|, arrivals, times) && Schedule(|vs|, ranges, times) && i < |vs|
    ensures Run(r, vs, lengths, arrivals, ranges, times).1[i].isMalicious == vs[i].isMalicious
    ensures LimiterOf(Run(r, vs, lengths, arrivals, ranges, times).1[i])
         == AttemptAll(LimiterOf(vs[i]), InRangeTimes(i, ranges, times), IntervalFor(vs[i].isMalicious))
    decreases |times|
  {
    if times != [] {
      var moved := Move(vs, lengths, arrivals[0]);
      var (r1, vs1) := Pass(r, moved, ranges[0], times[0]);
      PassLimiter(r, moved, ranges[0], times[0], i);
      RunLimiter(r1, vs1, lengths, arrivals[1..], ranges[1..], times[1..], i);
      var rest := InRangeTimes(i, ranges[1..], times[1..]);
      if ranges[0][i] {
        var a := [times[0]] + rest;
        assert InRangeTimes(i, ranges, times) == a;
        assert a[0] == times[0] && a[1..] == rest;
      } else {
        assert InRangeTimes(i, ranges, times) == rest;
      }
    }
  }

  /**
   * Rate-limit correctness for the simulated vehicles: over a run whose
   * passes fall within a window of `span` microseconds, each vehicle sends
   * at most span / interval + 1 packets, the interval being that of its
   * class (0.0001 s malicious, 0.05 s legitimate).
   */
  lemma RunRateBound(r: RsuState, vs: seq<VehicleState>, lengths: seq<nat>, arrivals: seq<seq<bool>>,
               ranges: seq<seq<bool>>, times: seq<int>, i: nat, start: int, span: nat)
    requires Placed(vs, lengths) && Schedule(|vs|, arrivals, times) && Schedule(|vs|, ranges, times) && i < |vs|
    requires forall t :: t in times ==> start <= t <= start + span
    ensures Run(r, vs, lengths, arrivals, ranges, times).1[i].sentPackets
         <= vs[i].sentPackets + span / IntervalFor(vs[i].isMalicious) + 1
  {
    RunLimiter(r, vs, lengths, arrivals, ranges, times, i);
    SentWithinWindow(LimiterOf(vs[i]), InRangeTimes(i, ranges, times), IntervalFor(vs[i].isMalicious), start, span);
  }

  /** A run of messages of the given classes reaching the RSU one after another. */
  function AdmitAll(r: RsuState, classes: seq<bool>): RsuState
    decreases |classes|
  {
    if classes == [] then r else Admit(AdmitAll(r, classes[..|classes| - 1]), classes[|classes| - 1])
  }

  /** How many of the messages come from malicious vehicles. */
  function CountMalicious(classes: seq<bool>): nat
  {
    if classes == [] then 0
    else CountMalicious(classes[..|classes| - 1]) + (if classes[|classes| - 1] then 1 else 0)
  }

  function Min(a: nat, b: nat): nat
  {
    if a <= b then a else b
  }

  /** Once inoperable, the RSU ignores every later message until reset. */
  lemma {:induction false} InoperableIsFinal(r: RsuState, classes: seq<bool>)
    requires !r.operational
    ensures AdmitAll(r, classes) == r
    decreases |classes|
  {
    if classes != [] {
      InoperableIsFinal(r, classes[..|classes| - 1]);
    }
  }

  /**
   * The capacity gate from a fresh RSU: of any run of messages the RSU
   * accepts exactly the first 2501, going inoperable on the 2501st; its
   * per-class counts split those accepted messages by class and add up to
   * its message count.
   */
  lemma {:induction false} CapacityGate(classes: seq<bool>)
    ensures var r := AdmitAll(InitialRsu(), classes);
            var accepted := Min(|classes|, MaxMessages + 1);
            && r.messageCount == accepted
            && (r.operational <==> |classes| <= MaxMessages)
            && r.maliciousReceived == CountMalicious(classes[..accepted])
            && r.legitimateReceived == accepted - CountMalicious(classes[..accepted])
            && GateInv(r)
    decreases |classes|
  {
    if classes != [] {
      var n := |classes| - 1;
      var front := classes[..n];
      CapacityGate(front);
      if n > MaxMessages {
        assert classes[..MaxMessages + 1] == front[..MaxMessages + 1];
      } else {
        assert classes[..|classes|] == classes;
        assert front[..n] == front;
        assert classes[..|classes|][..n] == front;
      }
    }
  }

  /** Vehicle, with MaliciousVehicle and LegitimateVehicle told apart by `isMalicious`. */
  class Vehicle {
    const isMalicious: bool
    /** The waypoints (graph node ids) driven round. */
    const path: seq<nat>
    var currentTargetIndex: nat
    var communicationError: bool
    var sentPackets: nat
    var legitimateReceivedPackets: nat
    var maliciousReceivedPackets: nat
    var lastSentTime: int

    ghost predicate Valid()
      reads this
    {
      IndexInRange(currentTargetIndex, |path|)
    }

    function State(): VehicleState
      reads this
    {
      VehicleState(isMalicious, currentTargetIndex, communicationError, sentPackets,
                   legitimateReceivedPackets, maliciousReceivedPackets, lastSentTime)
    }

    /** Both subclass constructors, at time `created`; position and image are not modelled. */
    constructor (isMalicious: bool, path: seq<nat>, created: int)
      ensures Valid() && this.isMalicious == isMalicious && this.path == path
      ensures State() == InitialVehicle(isMalicious, created)
    {
      this.isMalicious := isMalicious;
      this.path := path;
      currentTargetIndex := 0;
      communicationError := false;
      sentPackets := 0;
      legitimateReceivedPackets := 0;
      maliciousReceivedPackets := 0;
      lastSentTime := created;
    }

    /** The base class's send_packet, which both subclasses override. */
    method SendPacketUnthrottled(rsu: Rsu)
      modifies this, rsu
      ensures (rsu.State(), State()) == SendUnthrottled(old(rsu.State()), old(State()))
    {
      sentPackets := sentPackets + 1;
      rsu.ReceiveMessage(this);
    }

    /** The subclasses' send_packet at time `now`. */
    method SendPacket(rsu: Rsu, now: int)
      modifies this, rsu
      ensures (rsu.State(), State()) == Send(old(rsu.State()), old(State()), now)
    {
      var interval := if isMalicious then MaliciousInterval else LegitimateInterval;
      if now - lastSentTime > interval {
        lastSentTime := now;
        sentPackets := sentPackets + 1;
        rsu.ReceiveMessage(this);
      }
    }

    /** update, given whether the vehicle is within one unit of its target. */
    method Update(arrived: bool)
      requires Valid()
      modifies this`currentTargetIndex
      ensures Valid()
      ensures State() == old(State()).(currentTargetIndex := NextTargetIndex(old(currentTargetIndex), |path|, arrived))
    {
      if |path| > 0 && arrived {
        currentTargetIndex := currentTargetIndex + 1;
        if currentTargetIndex >= |path| {
          currentTargetIndex := 0;
        }
      }
    }
  }

  class Rsu {
    var messageCount: nat
    var operational: bool
    var maliciousReceived: nat
    var legitimateReceived: nat

    function State(): RsuState
      reads this
    {
      RsuState(messageCount, operational, maliciousReceived, legitimateReceived)
    }

    constructor ()
      ensures State() == InitialRsu()
    {
      messageCount := 0;
      operational := true;
      maliciousReceived := 0;
      legitimateReceived := 0;
    }

    method ReceiveMessage(vehicle: Vehicle)
      modifies this, vehicle
      ensures (State(), vehicle.State()) == Receive(old(State()), old(vehicle.State()))
    {
      if !operational {
        return;
      }
      messageCount := messageCount + 1;
      if vehicle.isMalicious {
        vehicle.maliciousReceivedPackets := vehicle.maliciousReceivedPackets + 1;
        maliciousReceived := maliciousReceived + 1;
      } else {
        vehicle.legitimateReceivedPackets := vehicle.legitimateReceivedPackets + 1;
        legitimateReceived := legitimateReceived + 1;
      }
      if messageCount > MaxMessages {
        operational := false;
      }
    }

    method Reset()
      modifies this
      ensures State() == ResetRsu(old(State()))
    {
      messageCount := 0;
      operational := true;
    }
  }

  predicate Distinct(vs: seq<Vehicle>)
  {
    forall i, j :: 0 <= i < j < |vs| ==> vs[i] != vs[j]
  }

  function States(vs: seq<Vehicle>): (r: seq<VehicleState>)
    reads vs
    ensures |r| == |vs| && forall i :: 0 <= i < |vs| ==> r[i] == vs[i].State()
  {
    if vs == [] then [] else States(vs[..|vs| - 1]) + [vs[|vs| - 1].State()]
  }

  /** The number of waypoints on each vehicle's path. */
  function PathLengths(vs: seq<Vehicle>): (r: seq<nat>)
    ensures |r| == |vs| && forall i :: 0 <= i < |vs| ==> r[i] == |vs[i].path|
  {
    seq(|vs|, i requires 0 <= i < |vs| => |vs[i].path|)
  }

  /**
   * The sprite-group update that opens each tick: every vehicle in turn
   * steps its target index, vehicle i having arrived when `arrived[i]`, and
   * nothing else about any vehicle changes.
   */
  method UpdateAll(vehicles: seq<Vehicle>, arrived: seq<bool>)
    requires |arrived| == |vehicles| && Distinct(vehicles)
    requires forall i :: 0 <= i < |vehicles| ==> vehicles[i].Valid()
    modifies vehicles
    ensures forall i :: 0 <= i < |vehicles| ==> vehicles[i].Valid()
    ensures forall i :: 0 <= i < |vehicles| ==>
              old(vehicles[i].Valid()) &&
              vehicles[i].State() == old(vehicles[i].State()).(currentTargetIndex :=
                NextTargetIndex(old(vehicles[i].currentTargetIndex), |vehicles[i].path|, arrived[i]))
    ensures Placed(old(States(vehicles)), PathLengths(vehicles))
    ensures States(vehicles) == Move(old(States(vehicles)), PathLengths(vehicles), arrived)
  {
    var i := 0;
    while i < |vehicles|
      invariant 0 <= i <= |vehicles|
      invariant forall j :: 0 <= j < |vehicles| ==> vehicles[j].Valid()
      invariant forall j :: 0 <= j < i ==>
                  old(vehicles[j].Valid()) &&
                  vehicles[j].State() == old(vehicles[j].State()).(currentTargetIndex :=
                    NextTargetIndex(old(vehicles[j].currentTargetIndex), |vehicles[j].path|, arrived[j]))
      invariant forall j :: i <= j < |vehicles| ==> vehicles[j].State() == old(vehicles[j].State())
    {
      vehicles[i].Update(arrived[i]);
      i := i + 1;
    }
  }

  /** One vehicle's turn in the communication pass; `legitimate` is the list of legitimate vehicles. */
  method Turn(rsu: Rsu, vehicle: Vehicle, legitimate: seq<Vehicle>, inRange: bool, now: int)
    requires vehicle in legitimate <==> !vehicle.isMalicious
    modifies rsu, vehicle
    ensures (rsu.State(), vehicle.State()) == Communicate(old(rsu.State()), old(vehicle.State()), inRange, now)
  {
    if inRange {
      vehicle.SendPacket(rsu, now);
      if !rsu.operational && vehicle in legitimate {
        vehicle.communicationError := true;
      }
    }
  }

  /**
   * The communication part of one tick: the malicious vehicles, then the
   * legitimate ones, each in range when its entry of `inRange` says so,
   * try to send at time `now`; a legitimate one that then finds the RSU
   * inoperable flags a communication error.
   */
  method CommunicationPass(rsu: Rsu, malicious: seq<Vehicle>, legitimate: seq<Vehicle>, inRange: seq<bool>, now: int)
    requires |inRange| == |malicious| + |legitimate|
    requires Distinct(malicious + legitimate)
    requires forall v :: v in malicious ==> v.isMalicious
    requires forall v :: v in legitimate ==> !v.isMalicious
    modifies rsu, malicious, legitimate
    ensures (rsu.State(), States(malicious + legitimate))
         == Pass(old(rsu.State()), old(States(malicious + legitimate)), inRange, now)
  {
    var vehicles := malicious + legitimate;
    forall j | 0 <= j < |vehicles|
      ensures vehicles[j] in legitimate <==> !vehicles[j].isMalicious
    {
      assert vehicles[j] in malicious || vehicles[j] in legitimate;
    }
    ghost var r0, s0 := rsu.State(), States(vehicles);
    ghost var acc: (RsuState, seq<VehicleState>) := (r0, []);
    var i := 0;
    while i < |vehicles|
      invariant 0 <= i <= |vehicles|
      invariant PassedUpTo(rsu, vehicles, inRange, now, r0, s0, acc, i)
    {
      acc := TurnAt(rsu, vehicles, legitimate, inRange, now, r0, s0, acc, i);
      i := i + 1;
    }
    assert s0[..i] == s0;
    assert inRange[..i] == inRange;
    assert States(vehicles) == acc.1;
  }

  /**
   * Where the communication pass stands before vehicle i's turn: the RSU and
   * the first i vehicles are as the pass over those i makes them, and the
   * other vehicles are as they started.
   */
  ghost predicate PassedUpTo(rsu: Rsu, vehicles: seq<Vehicle>, inRange: seq<bool>, now: int,
                             r0: RsuState, s0: seq<VehicleState>, acc: (RsuState, seq<VehicleState>), i: nat)
    reads rsu, vehicles
  {
    && |inRange| == |vehicles| == |s0| && i <= |vehicles|
    && acc == Pass(r0, s0[..i], inRange[..i], now)
    && rsu.State() == acc.0 && |acc.1| == i
    && (forall j :: 0 <= j < i ==> vehicles[j].State() == acc.1[j])
    && (forall j :: i <= j < |vehicles| ==> vehicles[j].State() == s0[j])
  }

  /** Vehicle i's turn, as a step of the communication pass. */
  method TurnAt(rsu: Rsu, vehicles: seq<Vehicle>, legitimate: seq<Vehicle>, inRange: seq<bool>, now: int,
                ghost r0: RsuState, ghost s0: seq<VehicleState>, ghost acc: (RsuState, seq<VehicleState>), i: nat)
      returns (ghost acc': (RsuState, seq<VehicleState>))
    requires Distinct(vehicles) && i < |vehicles|
    requires vehicles[i] in legitimate <==> !vehicles[i].isMalicious
    requires PassedUpTo(rsu, vehicles, inRange, now, r0, s0, acc, i)
    modifies rsu, vehicles[i]
    ensures PassedUpTo(rsu, vehicles, inRange, now, r0, s0, acc', i + 1)
  {
    ghost var turn := Communicate(acc.0, s0[i], inRange[i], now);
    Turn(rsu, vehicles[i], legitimate, inRange[i], now);
    PassStep(r0, s0, inRange, now, i);
    acc' := (turn.0, acc.1 + [turn.1]);
  }
}
