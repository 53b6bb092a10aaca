# Message admission in three VANET roadside-unit simulations

Three scripts simulate vehicles driving round fixed paths on a road graph and
sending packets to one roadside unit (RSU). This project models, and proves
properties of, the part of them that decides which packets the RSU admits:

- `DDOS.py` (module `Ddos`). Five malicious vehicles flood the RSU every
  0.0001 s and five legitimate vehicles send every 0.05 s. The RSU is a
  *capacity gate*: it counts every message it accepts, split by class. It
  goes inoperable when its count passes 2500 and drops everything until
  `reset`. A legitimate vehicle in range of an inoperable RSU raises a
  communication-error flag.
- `BRSUMMain.py` (module `Brsum`). The same traffic meets a *ledger* RSU:
  - an unseen key is registered as active;
  - accepted messages are counted per vehicle;
  - a malicious vehicle's key is revoked, in the ledger and on the vehicle,
    on its 51st accepted message;
  - a revoked vehicle no longer sends, and a revoked key's messages would be
    dropped.
- `Baseline.py` (module `Baseline`). Legitimate traffic only, against the
  capacity gate.

Shared pieces:

- `RateLimit`: the strict `now - last_sent_time > interval` limiter, and the
  rate bound it implies.
- `PathFollow`: target-index cycling along a path.
- `Paths`: the fixed-offset path construction.
- `Arith`: four small lemmas about division and remainders.

Each script's module has two layers:

- **Specification functions** on value states (`RsuState`, `VehicleState`):
  `Receive`, `Send`, `Communicate` (one vehicle's turn), `Pass` (the
  communication loop of one tick), `Move` (the sprite-group update of
  one tick) and `Run` (successive ticks of the simulation loop, each a
  `Move` then a `Pass`). The lemmas about the model are stated on these; the
  `RunRateBound` lemmas carry the rate bound of `RateLimit` to the
  simulated vehicles.
- **Classes** `Vehicle` and `Rsu` with the source's fields. Their methods
  update those fields in place, and each method's `ensures` ties the new
  state (read through `State()`) to the specification function applied to
  the old state. `CommunicationPass` is the tick's loop over the vehicles.
  `UpdateAll` is the sprite-group update.

Modelling choices:

- **Time.** Time is an integer number of microseconds, passed in as `now`.
  The intervals become 100 (malicious) and 50000 (legitimate), and the
  comparison stays strict. One communication pass uses one timestamp for
  all its vehicles.
- **Keys.** A vehicle's key, `id(vehicle)` in the source, is a natural
  number `id` given at construction. The communication pass requires
  distinct keys, as Python object identities are.
- **Arrival and range.** Whether a vehicle has arrived at its target (within
  one unit) and whether it is in range of the RSU (distance below 300) are
  boolean inputs.

Points of the code worth knowing when reading the model:

- `reset` sets the count to 0 and restores service but keeps the per-class
  counts. It is modelled (`Ddos.Rsu.Reset`, `Baseline.Rsu.Reset`), and the
  invariants allow for it.
- Received ≤ sent holds for every vehicle (`VehicleInv` in `Ddos` and
  `Baseline`). In `Brsum` the two are equal (`Sound`), because a revoked
  vehicle stops sending before the RSU could drop anything.
- In `DDOS.py` and `Baseline.py` the communication-error flag is set when
  the RSU is inoperable after the `send_packet` call. This happens even
  when the vehicle's own packet was throttled and never sent. In `DDOS.py`
  only vehicles in the legitimate list are flagged.

## Model

| member | source | states |
|---|---|---|
| RateLimit.IntervalFor | BRSUMMain.py:83-94 | the send interval is positive, and malicious vehicles have the shorter one |
| RateLimit.Attempt | DDOS.py:92-98 | a send attempt counts one packet and moves the last send time to `now` exactly when `now - last > interval`; otherwise the limiter is unchanged |
| RateLimit.AttemptAllCountsEmissions | DDOS.py:107-113 | after a series of attempts the sent counter has grown by exactly the number of attempts that emitted |
| RateLimit.EmissionsSpaced | DDOS.py:92-98 | emitted times are among the attempt times; the first is more than one interval after the previous send and consecutive ones are more than one interval apart |
| RateLimit.RateBound | DDOS.py:92-98 | attempts all within a window of length `span` emit at most `span / interval + 1` packets |
| RateLimit.SentWithinWindow | BRSUMMain.py:84-93 | the same bound stated for the sent counter of a series of attempts |
| PathFollow.NextTargetIndex | DDOS.py:59-70 | the target index stays in range for the path, advances on arrival and wraps to 0 after the last waypoint |
| PathFollow.Arrivals | Baseline.py:50-62 | repeated arrivals keep the index in range |
| PathFollow.ArrivalsCycle | DDOS.py:67-70 | after `k` arrivals the target index is `(index + k) mod length` |
| PathFollow.ArrivalsShift | DDOS.py:67-70 | one arrival followed by `k` more is `k + 1` arrivals |
| PathFollow.Lap | BRSUMMain.py:61-64 | a full lap of `length` arrivals returns to the starting waypoint, and no shorter run does |
| Paths.NodeAt | DDOS.py:175 | a node exists exactly for an index below the list length |
| Paths.OffsetPaths | DDOS.py:174-186 | the offset paths exist exactly when the largest index is within the node list; path `k` is nodes `from+k`, `from+k+stride`, `from+k+2·stride` |
| Paths.TwoClassSetupNeedsSixteenNodes | BRSUMMain.py:175-187 | both path lists of the two-class scripts exist exactly when there are at least 16 nodes; malicious path `k` is nodes `k..k+2`, legitimate path `k` is nodes `5+k`, `8+k`, `11+k` |
| Paths.BaselineSetupNeedsElevenNodes | Baseline.py:153-156 | the baseline paths exist exactly when there are at least 11 nodes; path `k` is nodes `k`, `k+3`, `k+6` |
| Ddos.Admit | DDOS.py:128-141 | an inoperable RSU changes nothing; otherwise the count and the counter of the sender's class rise by one and the other class's is unchanged; the RSU goes inoperable exactly when the count passes 2500; the gate invariant is kept |
| Ddos.Receive | DDOS.py:128-141 | the vehicle's counter of its class moves exactly as the RSU's counter of that class; nothing else about the vehicle changes |
| Ddos.SendUnthrottled | DDOS.py:55-57 | the base send counts one packet and hands it to the RSU; only the sent counter and the class counter change, the latter exactly as the RSU's class counter; received never overtakes sent and the gate invariant is kept |
| Ddos.Send | DDOS.py:92-113 | the limiter moves as `Attempt` with the class interval; a throttled send changes nothing; an emitted one is admitted; both invariants are kept |
| Ddos.Communicate | DDOS.py:228-242 | out of range nothing happens; in range the vehicle sends, and the error flag is set exactly when already set or the vehicle is legitimate and the RSU is then inoperable |
| Ddos.Pass | DDOS.py:228-242 | the loop as a fold yielding one state per vehicle, in order; what the loop promises is stated by the lemmas about it below |
| Ddos.PassStep | DDOS.py:228-230 | the pass over `i + 1` vehicles is the pass over `i` followed by vehicle `i`'s turn |
| Ddos.ResetRsu | DDOS.py:144-147 | reset clears the count and restores service, keeping the per-class counts and the gate invariant |
| Ddos.PassKeepsInvariants | DDOS.py:122-141 | a pass keeps the gate invariant (count ≤ 2501, operational iff count ≤ 2500, count ≤ per-class sum) and received ≤ sent per vehicle; RSU per-class counts move exactly as the vehicles' sums |
| Ddos.PassFlags | DDOS.py:228-242 | per vehicle: class and target are kept; at most one send, and only in range; errors are never cleared and are set only for legitimate vehicles in range of an RSU inoperable at the end; an already inoperable RSU changes no RSU or received counter and flags every in-range legitimate vehicle |
| Ddos.PassLimiter | DDOS.py:228-242 | in a pass each vehicle keeps its class and its limiter makes exactly one attempt at `now`, at its class's interval, if in range, and none otherwise |
| Ddos.Move | DDOS.py:215 | the sprite-group update on states: each target index steps as `NextTargetIndex` and stays on its path, nothing else changes |
| Ddos.Run | DDOS.py:210-268 | the simulation loop: every tick moves the vehicles, then runs the communication pass; one state per vehicle, target indices stay on their paths; the loop never resets the RSU |
| Ddos.RunTargets | DDOS.py:210-268 | after a run each target index is its start moved on by one waypoint, round its path, per tick the vehicle had arrived |
| Ddos.RunLimiter | DDOS.py:210-268 | over a run each vehicle keeps its class and its limiter is the run of attempts at exactly the pass times it was in range |
| Ddos.RunRateBound | DDOS.py:92-113 | every simulated vehicle sends at most `span / interval + 1` packets over passes within a window of `span`, at its class's interval |
| Ddos.InoperableIsFinal | DDOS.py:129-130 | once inoperable, the RSU ignores any run of messages |
| Ddos.CapacityGate | DDOS.py:122-141 | from a fresh RSU any run of messages has exactly its first 2501 accepted; the RSU is operational iff at most 2500 arrived; per-class counts split the accepted ones by class |
| Ddos.Vehicle.constructor | DDOS.py:41-53 | a new vehicle has zero counters, no error, target 0 and its class |
| Ddos.Vehicle.SendPacketUnthrottled | DDOS.py:55-57 | updates the vehicle and RSU as `SendUnthrottled` |
| Ddos.Vehicle.SendPacket | DDOS.py:92-113 | updates the vehicle and RSU as `Send` |
| Ddos.Vehicle.Update | DDOS.py:59-70 | steps the target index as `NextTargetIndex`, nothing else |
| Ddos.Rsu.constructor | DDOS.py:118-126 | a new RSU is operational with zero counts |
| Ddos.Rsu.ReceiveMessage | DDOS.py:128-142 | updates the RSU and the sending vehicle as `Receive` |
| Ddos.Rsu.Reset | DDOS.py:144-147 | updates the RSU as `ResetRsu` |
| Ddos.UpdateAll | DDOS.py:215 | every vehicle steps its target index as `NextTargetIndex`, nothing else changes: the vehicles end in the states `Move` gives |
| Ddos.Turn | DDOS.py:229-242 | one vehicle's turn updates RSU and vehicle as `Communicate` |
| Ddos.TurnAt | DDOS.py:229-242 | vehicle `i`'s turn extends the pass by one vehicle: the RSU and the first `i + 1` vehicles are as the pass over them makes them, the rest unchanged |
| Ddos.CommunicationPass | DDOS.py:228-242 | the loop over malicious then legitimate vehicles updates the RSU and all vehicles as `Pass` |
| Brsum.FreshVehicleIsSound | BRSUMMain.py:43-50 | a new vehicle is sound with respect to any RSU that has not seen its key |
| Brsum.Receive | BRSUMMain.py:124-144 | the key is registered; a revoked key's message changes nothing; otherwise the count and the vehicle's received counter rise by one together, and the key is revoked, on both sides, exactly when a malicious vehicle's count passes 50; no other key's entries change |
| Brsum.Send | BRSUMMain.py:72-94 | a revoked vehicle changes nothing; otherwise it is authenticated even if throttled, the limiter moves as `Attempt` with the class interval, and an emitted packet goes to `Receive`; other keys are untouched, revocations and registrations kept, soundness preserved |
| Brsum.Communicate | BRSUMMain.py:231-233 | a vehicle out of range or already revoked changes nothing; in range it sends, so only its own ledger entry and packet count can change, no revocation is undone and soundness is kept |
| Brsum.Pass | BRSUMMain.py:231-236 | the loop as a fold yielding one state per vehicle, in order; what the loop promises is stated by the lemmas about it below |
| Brsum.PassStep | BRSUMMain.py:231-233 | the pass over `i + 1` vehicles is the pass over `i` followed by vehicle `i`'s turn |
| Brsum.PassKeepsSound | BRSUMMain.py:75-143 | with distinct keys, a pass keeps every vehicle sound: received equals the RSU's count and the sent counter, revoked iff the ledger says so iff malicious with more than 50 accepted, at most 51 for a malicious one; revocations and registrations are never lost; a revoked vehicle is unchanged |
| Brsum.PassFrame | BRSUMMain.py:124-144 | a pass leaves the count and status of a key none of its vehicles holds unchanged |
| Brsum.PassLimiter | BRSUMMain.py:231-233 | in a pass each vehicle keeps its class and its limiter makes exactly one attempt at `now`, at its class's interval, if in range and not revoked, and none otherwise |
| Brsum.Move | BRSUMMain.py:218 | the sprite-group update on states: each target index steps as `NextTargetIndex` and stays on its path, nothing else changes |
| Brsum.Run | BRSUMMain.py:213-250 | the simulation loop: every tick moves the vehicles, then runs the communication pass; one state per vehicle, target indices stay on their paths |
| Brsum.RunTargets | BRSUMMain.py:213-250 | after a run each target index is its start moved on by one waypoint, round its path, per tick the vehicle had arrived |
| Brsum.RunLimiter | BRSUMMain.py:213-250 | over a run each vehicle keeps its class and its limiter is the run of attempts at exactly the pass times it was in range and not yet revoked |
| Brsum.RunRateBound | BRSUMMain.py:74-94 | every simulated vehicle sends at most `span / interval + 1` packets over passes within a window of `span`, at its class's interval |
| Brsum.ThresholdGate | BRSUMMain.py:137-143 | from a fresh RSU, `n` messages from one vehicle are all accepted if it is legitimate and only the first 51 if malicious; it is revoked (vehicle and ledger) exactly when malicious and `n > 50` |
| Brsum.Vehicle.constructor | BRSUMMain.py:36-50 | a new vehicle has its key and class, zero counters, not revoked, not authenticated |
| Brsum.Vehicle.Update | BRSUMMain.py:52-64 | steps the target index as `NextTargetIndex`, nothing else |
| Brsum.Vehicle.SendPacket | BRSUMMain.py:72-94 | updates the vehicle and RSU as `Send` |
| Brsum.Vehicle.RevokeKey | BRSUMMain.py:102-104 | sets the revoked flag and nothing else |
| Brsum.Rsu.constructor | BRSUMMain.py:117-122 | a new RSU has an empty ledger and no counts |
| Brsum.Rsu.ReceiveMessage | BRSUMMain.py:124-144 | updates the RSU and the sending vehicle as `Receive` |
| Brsum.UpdateAll | BRSUMMain.py:218 | every vehicle steps its target index as `NextTargetIndex`, nothing else changes: the vehicles end in the states `Move` gives |
| Brsum.Turn | BRSUMMain.py:231-233 | one vehicle's turn updates RSU and vehicle as `Communicate` |
| Brsum.TurnAt | BRSUMMain.py:232-233 | vehicle `i`'s turn extends the pass by one vehicle: the RSU and the first `i + 1` vehicles are as the pass over them makes them, the rest unchanged |
| Brsum.CommunicationPass | BRSUMMain.py:207-236 | the loop over the vehicles updates the RSU and all vehicles as `Pass` |
| Baseline.Admit | Baseline.py:105-116 | an inoperable RSU changes nothing; otherwise count and received count rise by one; it goes inoperable exactly when the count passes 2500; the gate invariant is kept |
| Baseline.Receive | Baseline.py:105-116 | the vehicle's received counter moves exactly as the RSU's; nothing else about the vehicle changes |
| Baseline.SendUnthrottled | Baseline.py:45-48 | the base send (overridden by LegitimateVehicle) counts one packet and hands it to the RSU; only the sent and received counters change, the latter exactly as the RSU's; received never overtakes sent and the gate invariant is kept |
| Baseline.Send | Baseline.py:84-91 | the limiter moves as `Attempt` with 0.05 s; a throttled send changes nothing; an emitted one is admitted; both invariants are kept |
| Baseline.Communicate | Baseline.py:198-207 | out of range nothing happens; in range the vehicle sends, and the error flag is set exactly when already set or the RSU is then inoperable |
| Baseline.Pass | Baseline.py:198-207 | the loop as a fold yielding one state per vehicle, in order; what the loop promises is stated by the lemmas about it below |
| Baseline.PassStep | Baseline.py:198-200 | the pass over `i + 1` vehicles is the pass over `i` followed by vehicle `i`'s turn |
| Baseline.ResetRsu | Baseline.py:118-121 | reset clears the count and restores service, keeping the received count and the gate invariant |
| Baseline.PassKeepsInvariants | Baseline.py:100-116 | a pass keeps the gate invariant and received ≤ sent per vehicle; the RSU's received count moves exactly as the vehicles' sum |
| Baseline.PassFlags | Baseline.py:198-207 | per vehicle: target kept; at most one send, only in range; errors never cleared, set only in range of an RSU inoperable at the end; an already inoperable RSU changes no RSU or received counter and flags every in-range vehicle |
| Baseline.PassLimiter | Baseline.py:198-207 | in a pass each vehicle's limiter makes exactly one attempt at `now` if in range, and none otherwise |
| Baseline.Move | Baseline.py:185 | the sprite-group update on states: each target index steps as `NextTargetIndex` and stays on its path, nothing else changes |
| Baseline.Run | Baseline.py:180-230 | the simulation loop: every tick moves the vehicles, then runs the communication pass; one state per vehicle, target indices stay on their paths; the loop never resets the RSU |
| Baseline.RunTargets | Baseline.py:180-230 | after a run each target index is its start moved on by one waypoint, round its path, per tick the vehicle had arrived |
| Baseline.RunLimiter | Baseline.py:180-230 | over a run each vehicle's limiter is the run of attempts at exactly the pass times it was in range |
| Baseline.RunRateBound | Baseline.py:84-91 | every simulated vehicle sends at most `span / 0.05 s + 1` packets over passes within a window of `span` |
| Baseline.RunKeepsInvariants | Baseline.py:180-230 | a run keeps the gate invariant and received ≤ sent, and the RSU's received count moves with the vehicles' sum |
| Baseline.RunFlags | Baseline.py:180-230 | an inoperable RSU stays unchanged for the rest of a run, and a run ending with the RSU operational raised no error |
| Baseline.SumReceivedBound | Baseline.py:236-239 | vehicles with at most `b` sent each have at most `n * b` received between them |
| Baseline.NormalRateKeepsRsuOperational | Baseline.py:180-230 | fresh vehicles that together cannot send more than 2500 packets at 0.05 s within the window leave a fresh RSU operational and raise no communication error |
| Baseline.FiveVehiclesKeepRsuOperational | Baseline.py:152-163 | the five vehicles as created keep the RSU operational, with no error, over any 20 s window, more than the 10 s the loop runs |
| Baseline.InoperableIsFinal | Baseline.py:107-108 | once inoperable, the RSU ignores any number of messages |
| Baseline.CapacityGate | Baseline.py:100-116 | from a fresh RSU exactly the first 2501 messages are accepted; operational iff at most 2500 arrived; received count equals message count |
| Baseline.Vehicle.constructor | Baseline.py:33-43 | a new vehicle has zero counters, no error and target 0 |
| Baseline.Vehicle.SendPacketUnthrottled | Baseline.py:45-48 | updates the vehicle and RSU as `SendUnthrottled` |
| Baseline.Vehicle.SendPacket | Baseline.py:84-91 | updates the vehicle and RSU as `Send` |
| Baseline.Vehicle.Update | Baseline.py:50-62 | steps the target index as `NextTargetIndex`, nothing else |
| Baseline.Rsu.constructor | Baseline.py:96-103 | a new RSU is operational with zero counts |
| Baseline.Rsu.ReceiveMessage | Baseline.py:105-116 | updates the RSU and the sending vehicle as `Receive` |
| Baseline.Rsu.Reset | Baseline.py:118-121 | updates the RSU as `ResetRsu` |
| Baseline.UpdateAll | Baseline.py:185 | every vehicle steps its target index as `NextTargetIndex`, nothing else changes: the vehicles end in the states `Move` gives |
| Baseline.Turn | Baseline.py:199-207 | one vehicle's turn updates RSU and vehicle as `Communicate` |
| Baseline.TurnAt | Baseline.py:199-207 | vehicle `i`'s turn extends the pass by one vehicle: the RSU and the first `i + 1` vehicles are as the pass over them makes them, the rest unchanged |
| Baseline.CommunicationPass | Baseline.py:198-207 | the loop over the vehicles updates the RSU and all vehicles as `Pass` |

## Left out

- Rendering is not modelled: the display, images, sprite drawing, road
  lines, timer text, `draw_x`, the communication-error marker and the
  connection lines.
- Loading the OpenStreetMap graph and scaling node positions to the screen
  are not modelled. Paths are built from an abstract node list.
- The floating-point movement step in `update` and `distance_to` are not
  modelled. Arrival and being in range are inputs.
- `time.time()` is not modelled. Time is an integer microsecond timestamp
  passed in, so timing differences finer than a microsecond are not
  represented.
- Of the `while running` loop, the event pump, the drawing,
  `time.sleep(0.01)` and the stop after 10 s are left out. Each tick's
  update and communication pass are modelled (`Run`); which ticks happen,
  and when, is an input, bounded by a time window in the lemmas that need
  one.
- `print` messages and `get_vehicle_number` are left out; they only format
  output.
- The key string `Key<id>` is left out; the RSU never reads it.
- The RSU is one sprite in the sprite-group update. Its inherited `update`
  does nothing, so `UpdateAll` covers only vehicles.
- Ddos.CommunicationPass: one timestamp `now` serves the whole
  communication pass. The source reads the clock again inside each
  vehicle's `send_packet`, so later vehicles in the loop see a later time.
  Each rate limiter reads only its own vehicle's time, so no stated
  property depends on this.
- Brsum.CommunicationPass: one timestamp per communication pass, as for
  `Ddos.CommunicationPass`; the source reads the clock once per vehicle.
- Baseline.CommunicationPass: one timestamp per communication pass, as for
  `Ddos.CommunicationPass`; the source reads the clock once per vehicle.
- Paths.OffsetPaths: an index past the node list is a `None` result. The
  source stops with an `IndexError` there.
