/**
 * BRSUMMain.py: the same malicious and legitimate traffic as the flooding
 * scenario, met by a roadside unit (RSU) that keeps a ledger of vehicle
 * keys. Every vehicle is registered as active on its first message and
 * every accepted message is counted per vehicle; the 51st accepted message
 * of a malicious vehicle revokes its key, in the ledger and on the vehicle,
 * after which the vehicle sends nothing and the RSU would drop anything it
 * did send. Keys are vehicle identities (natural numbers here).
 */
module Brsum {

  import opened RateLimit
  import opened PathFollow

  /** A malicious vehicle is revoked once more than this many of its messages are accepted. */
  const RevocationThreshold: nat := 50

  datatype Status = Active | Revoked

  datatype RsuState = RsuState(ledger: map<nat, Status>, packetCounts: map<nat, nat>)

  datatype VehicleState = VehicleState(
    id: nat,
    isMalicious: bool,
    currentTargetIndex: nat,
    revoked: bool,
    sentPackets: nat,
    packetsReceived: nat,
    lastSentTime: int,
    authenticated: bool)

  function InitialRsu(): RsuState
  {
    RsuState(map[], map[])
  }

  /** A vehicle with key `id`, as created at time `created`. */
  function InitialVehicle(id: nat, isMalicious: bool, created: int): VehicleState
  {
    VehicleState(id, isMalicious, 0, false, 0, 0, created, false)
  }

  /** The accepted-message count the RSU holds for key `id` (0 for an unseen key). */
  function CountOf(r: RsuState, id: nat): nat
  {
    if id in r.packetCounts then r.packetCounts[id] else 0
  }

  /** Whether the ledger marks key `id` revoked (an unseen key counts as active). */
  predicate IsRevoked(r: RsuState, id: nat)
  {
    id in r.ledger && r.ledger[id] == Revoked
  }

  function LimiterOf(v: VehicleState): Limiter
  {
    Limiter(v.lastSentTime, v.sentPackets)
  }

  /**
   * How a vehicle and the RSU agree: the vehicle's received counter is the
   * RSU's count for its key and equals its sent counter (no packet it sends
   * is dropped), the vehicle is revoked exactly when the ledger says so,
   * which is exactly when it is malicious and past the threshold, and a
   * malicious vehicle never has more than one message past the threshold
   * accepted.
   */
  ghost predicate Sound(r: RsuState, v: VehicleState)
  {
    && v.packetsReceived == CountOf(r, v.id)
    && v.packetsReceived == v.sentPackets
    && (v.revoked <==> IsRevoked(r, v.id))
    && (v.revoked <==> v.isMalicious && v.packetsReceived > RevocationThreshold)
    && (v.isMalicious ==> v.packetsReceived <= RevocationThreshold + 1)
  }

  /** A newly created vehicle agrees with any RSU that has not yet seen its key. */
  lemma FreshVehicleIsSound(r: RsuState, id: nat, isMalicious: bool, created: int)
    requires id !in r.ledger && id !in r.packetCounts
    ensures Sound(r, InitialVehicle(id, isMalicious, created))
  {
  }

  /**
   * RSU.receive_message: register an unseen key as active; drop the message
   * if the key is revoked; otherwise count it for the vehicle on both sides
   * and, for a malicious vehicle whose count is now past the threshold,
   * revoke its key on the vehicle and in the ledger. No other key's entries
   * change, and a revoked key stays revoked.
   */
  function Receive(r: RsuState, v: VehicleState): (res: (RsuState, VehicleState))
    ensures res.1 == v.(packetsReceived := res.1.packetsReceived, revoked := res.1.revoked)
    ensures v.id in res.0.ledger
    ensures res.0.ledger - {v.id} == r.ledger - {v.id}
    ensures res.0.packetCounts - {v.id} == r.packetCounts - {v.id}
    ensures IsRevoked(r, v.id) ==> res == (r, v)
    ensures !IsRevoked(r, v.id) ==>
              && CountOf(res.0, v.id) == CountOf(r, v.id) + 1
              && res.1.packetsReceived == v.packetsReceived + 1
              && (IsRevoked(res.0, v.id) <==> v.isMalicious && CountOf(res.0, v.id) > RevocationThreshold)
              && (res.1.revoked <==> v.revoked || IsRevoked(res.0, v.id))
  {
    var r1 := if v.id in r.ledger then r else r.(ledger := r.ledger[v.id := Active]);
    if r1.ledger[v.id] == Revoked then (r1, v)
    else
      var n := CountOf(r, v.id) + 1;
      var r2 := r1.(packetCounts := r1.packetCounts[v.id := n]);
      var v2 := v.(packetsReceived := v.packetsReceived + 1);
      if v.isMalicious && n > RevocationThreshold then
        (r2.(ledger := r2.ledger[v.id := Revoked]), v2.(revoked := true))
      else (r2, v2)
  }

  /**
   * Vehicle.send_packet at time `now`: a revoked vehicle does nothing; any
   * other authenticates (once) and then, if the rate limiter of its class
   * lets the packet out, counts it and hands it to the RSU. A send keeps a
   * vehicle sound and leaves every other key's count and status alone.
   */
  function Send(r: RsuState, v: VehicleState, now: int): (res: (RsuState, VehicleState))
    ensures v.revoked ==> res == (r, v)
    ensures !v.revoked ==>
              && res.1.authenticated
              && LimiterOf(res.1) == Attempt(LimiterOf(v), now, IntervalFor(v.isMalicious))
    ensures !v.revoked && res.1.sentPackets == v.sentPackets ==> res == (r, v.(authenticated := true))
    ensures res.1.sentPackets != v.sentPackets ==>
              res == Receive(r, v.(authenticated := true, lastSentTime := now, sentPackets := v.sentPackets + 1))
    ensures res.1.id == v.id && res.1.isMalicious == v.isMalicious
    ensures res.1.currentTargetIndex == v.currentTargetIndex
    ensures forall k :: k != v.id ==> CountOf(res.0, k) == CountOf(r, k) && (IsRevoked(res.0, k) <==> IsRevoked(r, k))
    ensures forall k :: IsRevoked(r, k) ==> IsRevoked(res.0, k)
    ensures r.ledger.Keys <= res.0.ledger.Keys
    ensures Sound(r, v) ==> Sound(res.0, res.1)
  {
    if v.revoked then (r, v)
    else
      var va := v.(authenticated := true);
      if MayEmit(now, va.lastSentTime, IntervalFor(v.isMalicious)) then
        Receive(r, va.(lastSentTime := now, sentPackets := va.sentPackets + 1))
      else (r, va)
  }

  /**
   * One vehicle's turn in the communication pass: a vehicle in range sends.
   * A vehicle out of range or already revoked leaves everything as it was;
   * otherwise only its own ledger entry and packet count can change, no
   * revocation is undone and soundness is kept.
   */
  function Communicate(r: RsuState, v: VehicleState, inRange: bool, now: int): (res: (RsuState, VehicleState))
    ensures !inRange || v.revoked ==> res == (r, v)
    ensures inRange ==> res == Send(r, v, now)
    ensures res.1.id == v.id && res.1.isMalicious == v.isMalicious
    ensures res.1.currentTargetIndex == v.currentTargetIndex
    ensures forall k :: k != v.id ==> CountOf(res.0, k) == CountOf(r, k) && (IsRevoked(res.0, k) <==> IsRevoked(r, k))
    ensures forall k :: IsRevoked(r, k) ==> IsRevoked(res.0, k)
    ensures r.ledger.Keys <= res.0.ledger.Keys
    ensures Sound(r, v) ==> Sound(res.0, res.1)
  {
    if inRange then Send(r, v, now) else (r, v)
  }

  /** The communication pass over the vehicles in order: `vs[i]` is in range when `inRange[i]`. */
  function Pass(r: RsuState, vs: seq<VehicleState>, inRange: seq<bool>, now: int): (res: (RsuState, seq<VehicleState>))
    requires |inRange| == |vs|
    ensures |res.1| == |vs|
    ensures forall i :: 0 <= i < |vs| ==> res.1[i].currentTargetIndex == vs[i].currentTargetIndex
    decreases |vs|
  {
    if vs == [] then (r, [])
    else
      var n := |vs| - 1;
      var (r1, done) := Pass(r, vs[..n], inRange[..n], now);
      var (r2, v2) := Communicate(r1, vs[n], inRange[n], now);
      (r2, done + [v2])
  }

  /** The pass over the first i + 1 vehicles is the pass over the first i, then vehicle i's turn. */
  lemma PassStep(r: RsuState, vs: seq<VehicleState>, inRange: seq<bool>, now: int, i: nat)
    requires |inRange| == |vs| && i < |vs|
    ensures var before := Pass(r, vs[..i], inRange[..i], now);
            var turn := Communicate(before.0, vs[i], inRange[i], now);
            Pass(r, vs[..i + 1], inRange[..i + 1], now) == (turn.0, before.1 + [turn.1])
  {
    assert vs[..i + 1][..i] == vs[..i];
    assert inRange[..i + 1][..i] == inRange[..i];
  }

  /** Every vehicle has its own key. */
  predicate DistinctIds(vs: seq<VehicleState>)
  {
    forall i, j :: 0 <= i < j < |vs| ==> vs[i].id != vs[j].id
  }

  /**
   * A communication pass over vehicles with distinct keys, each sound with
   * respect to the RSU, leaves every vehicle sound with respect to the new
   * RSU: so no malicious vehicle ever has more than 51 messages accepted, and
   * every packet sent is accepted. It never clears a revocation, never
   * forgets a registered key, keeps each vehicle's key, class and target,
   * raises each sent counter by at most one and only for a vehicle in range,
   * and leaves a revoked vehicle exactly as it was.
   */
  lemma {:induction false} PassKeepsSound(r: RsuState, vs: seq<VehicleState>, inRange: seq<bool>, now: int)
    requires |inRange| == |vs| && DistinctIds(vs)
    requires forall i :: 0 <= i < |vs| ==> Sound(r, vs[i])
    ensures var res := Pass(r, vs, inRange, now);
            && (forall i :: 0 <= i < |vs| ==> Sound(res.0, res.1[i]))
            && (forall i :: 0 <= i < |vs| ==>
                  && res.1[i].id == vs[i].id
                  && res.1[i].isMalicious == vs[i].isMalicious
                  && res.1[i].currentTargetIndex == vs[i].currentTargetIndex
                  && res.1[i].sentPackets <= vs[i].sentPackets + (if inRange[i] then 1 else 0)
                  && (vs[i].revoked ==> res.1[i] == vs[i]))
            && (forall k :: IsRevoked(r, k) ==> IsRevoked(res.0, k))
            && r.ledger.Keys <= res.0.ledger.Keys
    decreases |vs|
  {
    if vs != [] {
      var n := |vs| - 1;
      PassKeepsSound(r, vs[..n], inRange[..n], now);
      var (r1, done) := Pass(r, vs[..n], inRange[..n], now);
      var (r2, v2) := Communicate(r1, vs[n], inRange[n], now);
      assert Pass(r, vs, inRange, now) == (r2, done + [v2]);
      // The last vehicle was untouched by the earlier turns, whose keys differ from its own.
      assert CountOf(r1, vs[n].id) == CountOf(r, vs[n].id) && (IsRevoked(r1, vs[n].id) <==> IsRevoked(r, vs[n].id)) by {
        PassFrame(r, vs[..n], inRange[..n], now, vs[n].id);
      }
      assert Sound(r1, vs[n]);
      forall i | 0 <= i < n ensures Sound(r2, done[i]) {
        assert done[i].id == vs[i].id;
        assert Sound(r1, done[i]);
      }
    }
  }

  /** A pass leaves the count and status of a key no passing vehicle holds unchanged. */
  lemma {:induction false} PassFrame(r: RsuState, vs: seq<VehicleState>, inRange: seq<bool>, now: int, k: nat)
    requires |inRange| == |vs|
    requires forall i :: 0 <= i < |vs| ==> vs[i].id != k
    ensures CountOf(Pass(r, vs, inRange, now).0, k) == CountOf(r, k)
    ensures IsRevoked(Pass(r, vs, inRange, now).0, k) <==> IsRevoked(r, k)
    decreases |vs|
  {
    if vs != [] {
      var n := |vs| - 1;
      PassFrame(r, vs[..n], inRange[..n], now, k);
    }
  }

  /**
   * A vehicle's limiter after a pass: one attempt at `now`, at the interval
   * of its class, if it was in range and not revoked, none otherwise; its
   * class is kept.
   */
  lemma {:induction false} PassLimiter(r: RsuState, vs: seq<VehicleState>, inRange: seq<bool>, now: int, i: nat)
    requires |inRange| == |vs| && i < |vs|
    ensures Pass(r, vs, inRange, now).1[i].isMalicious == vs[i].isMalicious
    ensures LimiterOf(Pass(r, vs, inRange, now).1[i])
         == if inRange[i] && !vs[i].revoked then Attempt(LimiterOf(vs[i]), now, IntervalFor(vs[i].isMalicious))
            else LimiterOf(vs[i])
    decreases |vs|
  {
    var n := |vs| - 1;
    var (r1, done) := Pass(r, vs[..n], inRange[..n], now);
    var (r2, v2) := Communicate(r1, vs[n], inRange[n], now);
    assert Pass(r, vs, inRange, now) == (r2, done + [v2]);
    if i < n {
      PassLimiter(r, vs[..n], inRange[..n], now, i);
      assert vs[..n][i] == vs[i] && inRange[..n][i] == inRange[i];
    }
  }

  /** Each vehicle's target index lies on its path, which has lengths[i] waypoints. */
  ghost predicate Placed(vs: seq<VehicleState>, lengths: seq<nat>)
  {
    |lengths| == |vs| && forall i :: 0 <= i < |vs| ==> IndexInRange(vs[i].currentTargetIndex, lengths[i])
  }

  /**
   * all_sprites.update() on the vehicles' states: each vehicle's target
   * index steps as NextTargetIndex, on arrival, and nothing else changes.
   */
  function Move(vs: seq<VehicleState>, lengths: seq<nat>, arrived: seq<bool>): (res: seq<VehicleState>)
    requires Placed(vs, lengths) && |arrived| == |vs|
    ensures |res| == |vs| && Placed(res, lengths)
    ensures forall i :: 0 <= i < |vs| ==>
              && res[i] == vs[i].(currentTargetIndex := res[i].currentTargetIndex)
              && res[i].currentTargetIndex == NextTargetIndex(vs[i].currentTargetIndex, lengths[i], arrived[i])
  {
    seq(|vs|, i requires 0 <= i < |vs| =>
      vs[i].(currentTargetIndex := NextTargetIndex(vs[i].currentTargetIndex, lengths[i], arrived[i])))
  }

  /**
   * The simulation loop: each tick t moves the vehicles (arrivals[t] says
   * which have arrived at their target), then runs the communication pass
   * at times[t] with range flags ranges[t]. The loop never resets the RSU.
   */
  function Run(r: RsuState, vs: seq<VehicleState>, lengths: seq<nat>, arrivals: seq<seq<bool>>,
               ranges: seq<seq<bool>>, times: seq<int>): (res: (RsuState, seq<VehicleState>))
    requires Placed(vs, lengths) && Schedule(|vs|, arrivals, times) && Schedule(|vs|, ranges, times)
    ensures |res.1| == |vs| && Placed(res.1, lengths)
    decreases |times|
  {
    if times == [] then (r, vs)
    else
      var (r1, vs1) := Pass(r, Move(vs, lengths, arrivals[0]), ranges[0], times[0]);
      Run(r1, vs1, lengths, arrivals[1..], ranges[1..], times[1..])
  }

  /** Over a run, each vehicle has moved on by one waypoint, round its path, per tick it had arrived. */
  lemma {:induction false} RunTargets(r: RsuState, vs: seq<VehicleState>, lengths: seq<nat>, arrivals: seq<seq<bool>>,
                                      ranges: seq<seq<bool>>, times: seq<int>, i: nat)
    requires Placed(vs, lengths) && Schedule(|vs|, arrivals, times) && Schedule(|vs|, ranges, times) && i < |vs|
    ensures Run(r, vs, lengths, arrivals, ranges, times).1[i].currentTargetIndex
         == Arrivals(vs[i].currentTargetIndex, lengths[i], ArrivalCount(i, arrivals))
    decreases |times|
  {
    if times != [] {
      var moved := Move(vs, lengths, arrivals[0]);
      var (r1, vs1) := Pass(r, moved, ranges[0], times[0]);
      RunTargets(r1, vs1, lengths, arrivals[1..], ranges[1..], times[1..], i);
      if arrivals[0][i] {
        ArrivalsShift(vs[i].currentTargetIndex, lengths[i], ArrivalCount(i, arrivals[1..]));
      }
    }
  }

  /** The tick times, in order, at which vehicle i was in range and not yet revoked: its send attempts. */
  function SendTimes(r: RsuState, vs: seq<VehicleState>, lengths: seq<nat>, arrivals: seq<seq<bool>>,
               ranges: seq<seq<bool>>, times: seq<int>, i: nat): (a: seq<int>)
    requires Placed(vs, lengths) && Schedule(|vs|, arrivals, times) && Schedule(|vs|, ranges, times) && i < |vs|
    ensures forall t :: t in a ==> t in times
    decreases |times|
  {
    if times == [] then []
    else
      var (r1, vs1) := Pass(r, Move(vs, lengths, arrivals[0]), ranges[0], times[0]);
      (if ranges[0][i] && !vs[i].revoked then [times[0]] else [])
        + SendTimes(r1, vs1, lengths, arrivals[1..], ranges[1..], times[1..], i)
  }

  /**
   * Over a run, a vehicle keeps its class and its limiter has made exactly
   * one attempt, at the interval of its class, per tick it was in range for
   * and not revoked.
   */
  lemma {:induction false} RunLimiter(r: RsuState, vs: seq<VehicleState>, lengths: seq<nat>, arrivals: seq<seq<bool>>,
               ranges: seq<seq<bool>>, times: seq<int>, i: nat)
    requires Placed(vs, lengths) && Schedule(|vs|, arrivals, times) && Schedule(|vs|, ranges, times) && i < |vs|
    ensures Run(r, vs, lengths, arrivals, ranges, times).1[i].isMalicious == vs[i].isMalicious
    ensures LimiterOf(Run(r, vs, lengths, arrivals, ranges, times).1[i])
         == AttemptAll(LimiterOf(vs[i]), SendTimes(r, vs, lengths, arrivals, ranges, times, i), IntervalFor(vs[i].isMalicious))
    decreases |times|
  {
    if times != [] {
      var moved := Move(vs, lengths, arrivals[0]);
      var (r1, vs1) := Pass(r, moved, ranges[0], times[0]);
      PassLimiter(r, moved, ranges[0], times[0], i);
      RunLimiter(r1, vs1, lengths, arrivals[1..], ranges[1..], times[1..], i);
      var rest := SendTimes(r1, vs1, lengths, arrivals[1..], ranges[1..], times[1..], i);
      if ranges[0][i] && !vs[i].revoked {
        var a := [times[0]] + rest;
        assert SendTimes(r, vs, lengths, arrivals, ranges, times, i) == a;
        assert a[0] == times[0] && a[1..] == rest;
      } else {
        assert SendTimes(r, vs, lengths, arrivals, ranges, times, i) == rest;
      }
    }
  }

  /**
   * Rate-limit correctness for the simulated vehicles: over a run whose
   * passes fall within a window of `span` microseconds, each vehicle sends
   * at most span / interval + 1 packets, the interval being that of its
   * class (0.0001 s malicious, 0.05 s legitimate).
   */
  lemma RunRateBound(r: RsuState, vs: seq<VehicleState>, lengths: seq<nat>, arrivals: seq<seq<bool>>,
               ranges: seq<seq<bool>>, times: seq<int>, i: nat, start: int, span: nat)
    requires Placed(vs, lengths) && Schedule(|vs|, arrivals, times) && Schedule(|vs|, ranges, times) && i < |vs|
    requires forall t :: t in times ==> start <= t <= start + span
    ensures Run(r, vs, lengths, arrivals, ranges, times).1[i].sentPackets
         <= vs[i].sentPackets + span / IntervalFor(vs[i].isMalicious) + 1
  {
    RunLimiter(r, vs, lengths, arrivals, ranges, times, i);
    SentWithinWindow(LimiterOf(vs[i]), SendTimes(r, vs, lengths, arrivals, ranges, times, i), IntervalFor(vs[i].isMalicious), start, span);
  }

  /** `n` messages from one vehicle reaching the RSU one after another. */
  function ReceiveAll(r: RsuState, v: VehicleState, n: nat): (RsuState, VehicleState)
  {
    if n == 0 then (r, v)
    else
      var (r1, v1) := ReceiveAll(r, v, n - 1);
      Receive(r1, v1)
  }

  /**
   * The ledger's gate on one fresh vehicle: of any number of messages the
   * RSU accepts every one from a legitimate vehicle and only the first 51
   * from a malicious one, whose key is revoked, on the vehicle and in the
   * ledger, exactly when 51 have been accepted.
   */
  lemma {:induction false} ThresholdGate(id: nat, isMalicious: bool, created: int, n: nat)
    ensures var (r, v) := ReceiveAll(InitialRsu(), InitialVehicle(id, isMalicious, created), n);
            && v.packetsReceived == CountOf(r, id)
            && CountOf(r, id) == (if isMalicious && n > RevocationThreshold then RevocationThreshold + 1 else n)
            && (v.revoked <==> isMalicious && n > RevocationThreshold)
            && (IsRevoked(r, id) <==> v.revoked)
            && (n > 0 ==> id in r.ledger)
            && v.id == id && v.isMalicious == isMalicious
  {
    if n > 0 {
      ThresholdGate(id, isMalicious, created, n - 1);
    }
  }

  class Vehicle {
    /** The vehicle's key, id(vehicle) in the source. */
    const id: nat
    const isMalicious: bool
    /** The waypoints (graph node ids) driven round. */
    const path: seq<nat>
    var currentTargetIndex: nat
    var revoked: bool
    var sentPackets: nat
    var packetsReceived: nat
    var lastSentTime: int
    var authenticated: bool

    ghost predicate Valid()
      reads this
    {
      IndexInRange(currentTargetIndex, |path|)
    }

    function State(): VehicleState
      reads this
    {
      VehicleState(id, isMalicious, currentTargetIndex, revoked, sentPackets, packetsReceived, lastSentTime, authenticated)
    }

    /** Vehicle's constructor at time `created`; position, image and key string are not modelled. */
    constructor (id: nat, path: seq<nat>, isMalicious: bool, created: int)
      ensures Valid() && this.path == path
      ensures State() == InitialVehicle(id, isMalicious, created)
    {
      this.id := id;
      this.isMalicious := isMalicious;
      this.path := path;
      currentTargetIndex := 0;
      revoked := false;
      sentPackets := 0;
      packetsReceived := 0;
      lastSentTime := created;
      authenticated := false;
    }

    /** update, given whether the vehicle is within one unit of its target. */
    method Update(arrived: bool)
      requires Valid()
      modifies this`currentTargetIndex
      ensures Valid()
      ensures State() == old(State()).(currentTargetIndex := NextTargetIndex(old(currentTargetIndex), |path|, arrived))
    {
      if currentTargetIndex < |path| && arrived {
        currentTargetIndex := currentTargetIndex + 1;
        if currentTargetIndex >= |path| {
          currentTargetIndex := 0;
        }
      }
    }

    /** send_packet at time `now`. */
    method SendPacket(rsu: Rsu, now: int)
      modifies this, rsu
      ensures (rsu.State(), State()) == Send(old(rsu.State()), old(State()), now)
    {
      if !revoked {
        if !authenticated {
          authenticated := true;
        }
        if isMalicious {
          if now - lastSentTime > MaliciousInterval {
            lastSentTime := now;
            sentPackets := sentPackets + 1;
            rsu.ReceiveMessage(this);
          }
        } else {
          if now - lastSentTime > LegitimateInterval {
            lastSentTime := now;
            sentPackets := sentPackets + 1;
            rsu.ReceiveMessage(this);
          }
        }
      }
    }

    /** revoke_key: mark the vehicle's key revoked. */
    method RevokeKey()
      modifies this`revoked
      ensures State() == old(State()).(revoked := true)
    {
      revoked := true;
    }
  }

  class Rsu {
    var ledger: map<nat, Status>
    var packetCounts: map<nat, nat>

    function State(): RsuState
      reads this
    {
      RsuState(ledger, packetCounts)
    }

    constructor ()
      ensures State() == InitialRsu()
    {
      ledger := map[];
      packetCounts := map[];
    }

    method ReceiveMessage(vehicle: Vehicle)
      modifies this, vehicle`packetsReceived, vehicle`revoked
      ensures (State(), vehicle.State()) == Receive(old(State()), old(vehicle.State()))
    {
      var key := vehicle.id;
      if key !in ledger {
        ledger := ledger[key := Active];
      }
      if ledger[key] == Revoked {
        return;
      }
      var count := if key in packetCounts then packetCounts[key] else 0;
      packetCounts := packetCounts[key := count + 1];
      vehicle.packetsReceived := vehicle.packetsReceived + 1;
      if vehicle.isMalicious {
        if packetCounts[key] > RevocationThreshold {
          vehicle.RevokeKey();
          ledger := ledger[key := Revoked];
        }
      }
    }
  }

  function States(vs: seq<Vehicle>): (r: seq<VehicleState>)
    reads vs
    ensures |r| == |vs| && forall i :: 0 <= i < |vs| ==> r[i] == vs[i].State()
  {
    if vs == [] then [] else States(vs[..|vs| - 1]) + [vs[|vs| - 1].State()]
  }

  /** The number of waypoints on each vehicle's path. */
  function PathLengths(vs: seq<Vehicle>): (r: seq<nat>)
    ensures |r| == |vs| && forall i :: 0 <= i < |vs| ==> r[i] == |vs[i].path|
  {
    seq(|vs|, i requires 0 <= i < |vs| => |vs[i].path|)
  }

  /**
   * The sprite-group update that opens each tick: every vehicle in turn
   * steps its target index, vehicle i having arrived when `arrived[i]`, and
   * nothing else about any vehicle changes.
   */
  method UpdateAll(vehicles: seq<Vehicle>, arrived: seq<bool>)
    requires |arrived| == |vehicles| && forall i, j :: 0 <= i < j < |vehicles| ==> vehicles[i].id != vehicles[j].id
    requires forall i :: 0 <= i < |vehicles| ==> vehicles[i].Valid()
    modifies vehicles
    ensures forall i :: 0 <= i < |vehicles| ==> vehicles[i].Valid()
    ensures forall i :: 0 <= i < |vehicles| ==>
              old(vehicles[i].Valid()) &&
              vehicles[i].State() == old(vehicles[i].State()).(currentTargetIndex :=
                NextTargetIndex(old(vehicles[i].currentTargetIndex), |vehicles[i].path|, arrived[i]))
    ensures Placed(old(States(vehicles)), PathLengths(vehicles))
    ensures States(vehicles) == Move(old(States(vehicles)), PathLengths(vehicles), arrived)
  {
    var i := 0;
    while i < |vehicles|
      invariant 0 <= i <= |vehicles|
      invariant forall j :: 0 <= j < |vehicles| ==> vehicles[j].Valid()
      invariant forall j :: 0 <= j < i ==>
                  old(vehicles[j].Valid()) &&
                  vehicles[j].State() == old(vehicles[j].State()).(currentTargetIndex :=
                    NextTargetIndex(old(vehicles[j].currentTargetIndex), |vehicles[j].path|, arrived[j]))
      invariant forall j :: i <= j < |vehicles| ==> vehicles[j].State() == old(vehicles[j].State())
    {
      vehicles[i].Update(arrived[i]);
      i := i + 1;
    }
  }

  /** One vehicle's turn in the communication pass. */
  method Turn(rsu: Rsu, vehicle: Vehicle, inRange: bool, now: int)
    modifies rsu, vehicle
    ensures (rsu.State(), vehicle.State()) == Communicate(old(rsu.State()), old(vehicle.State()), inRange, now)
  {
    if inRange {
      vehicle.SendPacket(rsu, now);
    }
  }

  /**
   * The communication part of one tick over the malicious vehicles followed
   * by the legitimate ones: each in turn, in range when its entry of
   * `inRange` says so, sends at time `now`.
   */
  method CommunicationPass(rsu: Rsu, vehicles: seq<Vehicle>, inRange: seq<bool>, now: int)
    requires |inRange| == |vehicles|
    requires forall i, j :: 0 <= i < j < |vehicles| ==> vehicles[i].id != vehicles[j].id
    modifies rsu, vehicles
    ensures (rsu.State(), States(vehicles)) == Pass(old(rsu.State()), old(States(vehicles)), inRange, now)
  {
    ghost var r0, s0 := rsu.State(), States(vehicles);
    ghost var acc: (RsuState, seq<VehicleState>) := (r0, []);
    var i := 0;
    while i < |vehicles|
      invariant 0 <= i <= |vehicles|
      invariant PassedUpTo(rsu, vehicles, inRange, now, r0, s0, acc, i)
    {
      acc := TurnAt(rsu, vehicles, inRange, now, r0, s0, acc, i);
      i := i + 1;
    }
    assert s0[..i] == s0;
    assert inRange[..i] == inRange;
    assert States(vehicles) == acc.1;
  }

  /**
   * Where the communication pass stands before vehicle i's turn: the RSU and
   * the first i vehicles are as the pass over those i makes them, and the
   * other vehicles are as they started.
   */
  ghost predicate PassedUpTo(rsu: Rsu, vehicles: seq<Vehicle>, inRange: seq<bool>, now: int,
                             r0: RsuState, s0: seq<VehicleState>, acc: (RsuState, seq<VehicleState>), i: nat)
    reads rsu, vehicles
  {
    && |inRange| == |vehicles| == |s0| && i <= |vehicles|
    && acc == Pass(r0, s0[..i], inRange[..i], now)
    && rsu.State() == acc.0 && |acc.1| == i
    && (forall j :: 0 <= j < i ==> vehicles[j].State() == acc.1[j])
    && (forall j :: i <= j < |vehicles| ==> vehicles[j].State() == s0[j])
  }

  /** Vehicle i's turn, as a step of the communication pass. */
  method TurnAt(rsu: Rsu, vehicles: seq<Vehicle>, inRange: seq<bool>, now: int,
                ghost r0: RsuState, ghost s0: seq<VehicleState>, ghost acc: (RsuState, seq<VehicleState>), i: nat)
      returns (ghost acc': (RsuState, seq<VehicleState>))
    requires (forall i, j :: 0 <= i < j < |vehicles| ==> vehicles[i].id != vehicles[j].id) && i < |vehicles|
    requires PassedUpTo(rsu, vehicles, inRange, now, r0, s0, acc, i)
    modifies rsu, vehicles[i]
    ensures PassedUpTo(rsu, vehicles, inRange, now, r0, s0, acc', i + 1)
  {
    ghost var turn := Communicate(acc.0, s0[i], inRange[i], now);
    Turn(rsu, vehicles[i], inRange[i], now);
    PassStep(r0, s0, inRange, now, i);
    acc' := (turn.0, acc.1 + [turn.1]);
  }
}
