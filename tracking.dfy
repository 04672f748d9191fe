/**
 * The camera client's tracking and flight-state logic.
 *
 * The client keeps a target-label filter, a flight state ("land", "track" or
 * "emergency"), an emergency flag, the altitude it last flew to and the time
 * it last saw a target. Each cycle it sends a camera frame to the detector,
 * reads the reply and acts on the first entry that is either a person (which
 * forces an emergency) or passes the filter (which is tracked with one yaw
 * and one position command). A target lost for more than 30 seconds makes
 * the vehicle land. The command interface sets the filter and altitude, and
 * raises and clears emergencies.
 *
 * Calls into the control layer are recorded, in order, as a trace of
 * ControlCall values. A call that can raise in the control layer is given
 * its outcome as a parameter.
 */
module Tracking {
  import opened Basics
  import opened Detection

  /** The label that forces an emergency. */
  const PERSON: string := "person"
  /** The only mode the command interface accepts. */
  const OBJECT_MODE: string := "obje"
  /** Seconds without a qualifying target after which the vehicle lands. */
  const TARGET_LOSS_TIMEOUT: real := 30.0
  const MIN_ALTITUDE: real := 1.0
  const MAX_ALTITUDE: real := 5.0
  /** The altitude used when the command carries none, or one that is not a number. */
  const DEFAULT_ALTITUDE: real := 1.0

  datatype FlightState = Land | Track | Emergency

  /** A call from the tracker into the control layer. */
  datatype ControlCall =
    | ArmAndTakeoff(height: real)
    | LandVehicle
    | StopDrone
    | SendYawControl(dx: int)
    | SendPositionControl(dx: int, dy: int, area: int)

  /** The tracker's state as a value. */
  datatype Session = Session(filter: Option<string>, state: FlightState, emergencyFlag: bool, altitude: real, lastTargetTime: real)

  /** The state after one step and the control calls the step made, in order. */
  datatype Transition = Transition(next: Session, calls: seq<ControlCall>)

  /** How a start command ends: started (200), rejected mode (400), or failed takeoff (the exception escapes: 500). */
  datatype CommandStatus = Started(altitude: real) | InvalidMode | TakeoffFailed

  /** Python truthiness of an optional label: present and not empty. */
  predicate Truthy(tag: Option<string>) { tag.Some? && tag.value != "" }

  predicate IsPerson(t: Target) { t.name == PERSON }

  /** A target the tracker may follow: not a person, and matching the filter when one is set. */
  predicate Qualifies(t: Target, filter: Option<string>)
  {
    !IsPerson(t) && (!Truthy(filter) || t.name == filter.value)
  }

  /** An entry that ends the scan of a reply: a person or a qualifying target. */
  predicate Decisive(t: Target, filter: Option<string>) { IsPerson(t) || Qualifies(t, filter) }

  /** While the flag is raised or the state is Emergency, a cycle only stops the vehicle. */
  predicate Gated(s: Session) { s.emergencyFlag || s.state == Emergency }

  /** The altitudes the tracker can record: 0 after a landing, otherwise one a command asked for. */
  predicate AltitudeOk(alt: real) { alt == 0.0 || MIN_ALTITUDE <= alt <= MAX_ALTITUDE }

  /**
   * The altitude a start command flies to: the requested one limited to
   * [1.0, 5.0]; 1.0 when the command carries no number.
   */
  function CommandAltitude(requested: Option<real>): (alt: real)
    ensures MIN_ALTITUDE <= alt <= MAX_ALTITUDE
    ensures requested.None? ==> alt == DEFAULT_ALTITUDE
    ensures requested.Some? && MIN_ALTITUDE <= requested.value <= MAX_ALTITUDE ==> alt == requested.value
    ensures requested.Some? && requested.value < MIN_ALTITUDE ==> alt == MIN_ALTITUDE
    ensures requested.Some? && requested.value > MAX_ALTITUDE ==> alt == MAX_ALTITUDE
  {
    var a := if requested.Some? then requested.value else DEFAULT_ALTITUDE;
    var lowered := if MAX_ALTITUDE < a then MAX_ALTITUDE else a;
    if MIN_ALTITUDE > lowered then MIN_ALTITUDE else lowered
  }

  /** The recorded altitude after a landing attempt: 0 when the land call returned, unchanged when it raised. */
  function LandedAltitude(altitude: real, landOk: bool): real
  {
    if landOk then 0.0 else altitude
  }

  /** The position of the first decisive entry of a reply, or its length when there is none. */
  function FirstDecisive(ts: seq<Target>, filter: Option<string>): (k: nat)
    ensures k <= |ts|
    ensures forall j :: 0 <= j < k ==> !Decisive(ts[j], filter)
    ensures k < |ts| ==> Decisive(ts[k], filter)
  {
    if ts == [] then 0
    else if Decisive(ts[0], filter) then 0
    else 1 + FirstDecisive(ts[1..], filter)
  }

  /** The scan of a reply's targets and the target-loss check that follows it. */
  function ScanStep(s: Session, now: real, ts: seq<Target>, landOk: bool): Transition
  {
    var k := FirstDecisive(ts, s.filter);
    if k < |ts| && Qualifies(ts[k], s.filter) then
      var t := ts[k];
      Transition(s.(state := Track, lastTargetTime := now), [SendYawControl(t.dx), SendPositionControl(t.dx, t.dy, t.area)])
    else
      var scanned := if k < |ts| then s.(state := Emergency) else s;
      if now - scanned.lastTargetTime > TARGET_LOSS_TIMEOUT then
        Transition(scanned.(state := Land, lastTargetTime := now, altitude := LandedAltitude(s.altitude, landOk)), [LandVehicle])
      else
        Transition(scanned, [])
  }

  /**
   * One cycle of the client at time `now`, given the reply to the frame it
   * sent; `landOk` says whether a landing it starts returns normally.
   */
  function CycleStep(s: Session, now: real, reply: Reply, landOk: bool): (t: Transition)
    // a cycle never touches the filter or the emergency flag, and keeps the altitude valid
    ensures t.next.filter == s.filter && t.next.emergencyFlag == s.emergencyFlag
    ensures AltitudeOk(s.altitude) ==> AltitudeOk(t.next.altitude)
    // the only calls a cycle makes are one stop, one yaw and position pair, or one landing
    ensures t.calls == [] || t.calls == [StopDrone] || t.calls == [LandVehicle] ||
            (|t.calls| == 2 && t.calls[0].SendYawControl? && t.calls[1].SendPositionControl? &&
             t.calls[0].dx == t.calls[1].dx)
  {
    if Gated(s) then Transition(s, [StopDrone])
    else
      match reply
      case Malformed => Transition(s, [])
      case Parsed(status, ts) =>
        if status != Some(TARGETS_STATUS) then Transition(s, []) else ScanStep(s, now, ts, landOk)
  }

  /**
   * A person before any qualifying entry stops tracking for this cycle: no
   * motion command, state Emergency, unless the target-loss timeout fires
   * in the same cycle, which lands and leaves the state Land.
   */
  lemma PersonFirstForcesEmergency(s: Session, now: real, ts: seq<Target>, landOk: bool, k: nat)
    requires !Gated(s)
    requires k < |ts| && IsPerson(ts[k])
    requires forall j :: 0 <= j < k ==> !Qualifies(ts[j], s.filter)
    ensures var t := CycleStep(s, now, Parsed(Some(TARGETS_STATUS), ts), landOk);
      && (forall i :: 0 <= i < |t.calls| ==> t.calls[i] == LandVehicle)
      && (now - s.lastTargetTime > TARGET_LOSS_TIMEOUT ==>
            t.calls == [LandVehicle] && t.next.state == Land && t.next.lastTargetTime == now)
      && (now - s.lastTargetTime <= TARGET_LOSS_TIMEOUT ==>
            t.calls == [] && t.next.state == Emergency && t.next.lastTargetTime == s.lastTargetTime)
  {
    var m := FirstDecisive(ts, s.filter);
    assert Decisive(ts[k], s.filter);
    assert m <= k;
    assert IsPerson(ts[m]) by {
      if m < k { assert !Qualifies(ts[m], s.filter); }
    }
  }

  /**
   * The first qualifying entry, when no person comes before it, is tracked:
   * exactly one yaw command and one position command for it, state Track,
   * and the time of the last target is now.
   */
  lemma FirstMatchIsTracked(s: Session, now: real, ts: seq<Target>, landOk: bool, k: nat)
    requires !Gated(s)
    requires k < |ts| && Qualifies(ts[k], s.filter)
    requires forall j :: 0 <= j < k ==> !Decisive(ts[j], s.filter)
    ensures var t := CycleStep(s, now, Parsed(Some(TARGETS_STATUS), ts), landOk);
      && t.calls == [SendYawControl(ts[k].dx), SendPositionControl(ts[k].dx, ts[k].dy, ts[k].area)]
      && t.next == s.(state := Track, lastTargetTime := now)
  {
    var m := FirstDecisive(ts, s.filter);
    assert m == k;
  }

  /**
   * With no qualifying entry, the vehicle lands exactly when more than 30
   * seconds have passed since the last target (strictly); a landing sets
   * the state to Land and restarts the 30 seconds. No motion command is sent.
   */
  lemma NoTargetLandsAfterTimeout(s: Session, now: real, ts: seq<Target>, landOk: bool)
    requires !Gated(s)
    requires forall j :: 0 <= j < |ts| ==> !Qualifies(ts[j], s.filter)
    ensures var t := CycleStep(s, now, Parsed(Some(TARGETS_STATUS), ts), landOk);
      && (LandVehicle in t.calls <==> now - s.lastTargetTime > TARGET_LOSS_TIMEOUT)
      && (forall i :: 0 <= i < |t.calls| ==> t.calls[i] == LandVehicle)
      && (LandVehicle in t.calls ==>
            t.next.state == Land && t.next.lastTargetTime == now && t.next.altitude == LandedAltitude(s.altitude, landOk))
      && (LandVehicle !in t.calls ==> t.next.lastTargetTime == s.lastTargetTime && t.next.altitude == s.altitude)
      // with nothing decisive and no landing, the cycle changes nothing: a Track state stays Track, uncommanded
      && (FirstDecisive(ts, s.filter) == |ts| && LandVehicle !in t.calls ==> t == Transition(s, []))
  {
    var m := FirstDecisive(ts, s.filter);
    assert m < |ts| ==> !Qualifies(ts[m], s.filter);
  }

  /** Once the first decisive entry is found, whatever follows it in the reply does not matter. */
  lemma {:induction false} LaterEntriesIgnored(ts: seq<Target>, rest: seq<Target>, filter: Option<string>)
    requires FirstDecisive(ts, filter) < |ts|
    ensures var k := FirstDecisive(ts, filter);
      FirstDecisive(ts[..k + 1] + rest, filter) == k && (ts[..k + 1] + rest)[k] == ts[k]
  {
    var k := FirstDecisive(ts, filter);
    var u := ts[..k + 1] + rest;
    var m := FirstDecisive(u, filter);
    assert forall j :: 0 <= j <= k ==> u[j] == ts[j];
    assert m == k;
  }

  /** The scan's outcome depends only on the first decisive entry, if there is one. */
  lemma ScanStepSameDecision(s: Session, now: real, a: seq<Target>, b: seq<Target>, landOk: bool)
    requires FirstDecisive(a, s.filter) < |a| <==> FirstDecisive(b, s.filter) < |b|
    requires FirstDecisive(a, s.filter) < |a| ==> a[FirstDecisive(a, s.filter)] == b[FirstDecisive(b, s.filter)]
    ensures ScanStep(s, now, a, landOk) == ScanStep(s, now, b, landOk)
  {
  }

  /** The cycle acts on a reply cut after its first decisive entry exactly as on the whole reply. */
  lemma CycleIgnoresLaterEntries(s: Session, now: real, ts: seq<Target>, rest: seq<Target>, landOk: bool)
    requires FirstDecisive(ts, s.filter) < |ts|
    ensures var k := FirstDecisive(ts, s.filter);
      CycleStep(s, now, Parsed(Some(TARGETS_STATUS), ts[..k + 1] + rest), landOk)
        == CycleStep(s, now, Parsed(Some(TARGETS_STATUS), ts), landOk)
  {
    LaterEntriesIgnored(ts, rest, s.filter);
    var k := FirstDecisive(ts, s.filter);
    var u := ts[..k + 1] + rest;
    ScanStepSameDecision(s, now, u, ts, landOk);
  }

  /**
   * With a filter set, an entry of another label that is not a person is
   * skipped wherever it stands: inserting it changes nothing.
   */
  lemma {:induction false} OtherLabelSkipped(s: Session, now: real, ts: seq<Target>, i: nat, x: Target, landOk: bool)
    requires Truthy(s.filter) && !IsPerson(x) && x.name != s.filter.value
    requires i <= |ts|
    ensures CycleStep(s, now, Parsed(Some(TARGETS_STATUS), ts[..i] + [x] + ts[i..]), landOk)
         == CycleStep(s, now, Parsed(Some(TARGETS_STATUS), ts), landOk)
  {
    var u := ts[..i] + [x] + ts[i..];
    var k := FirstDecisive(ts, s.filter);
    var m := FirstDecisive(u, s.filter);
    assert !Decisive(x, s.filter);
    assert forall j :: 0 <= j < i ==> u[j] == ts[j];
    assert forall j :: i <= j < |ts| ==> u[j + 1] == ts[j];
    if k < i {
      assert m == k;
      assert u[m] == ts[k];
    } else {
      assert m == k + 1;
      assert m < |u| ==> u[m] == ts[k];
    }
  }

  /** Without a filter (none, or the empty label), every entry but a person qualifies. */
  lemma NoFilterQualifiesAllButPersons(t: Target, filter: Option<string>)
    requires !Truthy(filter)
    ensures Qualifies(t, filter) <==> !IsPerson(t)
  {
  }

  /**
   * Without a filter the scan stops at the first entry: unless it is a
   * person, it is tracked, whatever its label.
   */
  lemma NoFilterTracksFirstEntry(s: Session, now: real, ts: seq<Target>, landOk: bool)
    requires !Gated(s) && !Truthy(s.filter)
    requires |ts| > 0 && !IsPerson(ts[0])
    ensures var t := CycleStep(s, now, Parsed(Some(TARGETS_STATUS), ts), landOk);
      && t.calls == [SendYawControl(ts[0].dx), SendPositionControl(ts[0].dx, ts[0].dy, ts[0].area)]
      && t.next == s.(state := Track, lastTargetTime := now)
  {
    NoFilterQualifiesAllButPersons(ts[0], s.filter);
    FirstMatchIsTracked(s, now, ts, landOk, 0);
  }

  /**
   * The reply the detector server builds always passes the status check:
   * with a target that qualifies and no person before it, the cycle tracks.
   */
  lemma ServerReplyIsActedOn(s: Session, now: real, boxes: seq<Box>, landOk: bool)
    requires !Gated(s)
    ensures var t := CycleStep(s, now, ServerReply(boxes), landOk);
      (t.calls == [] || t.calls == [LandVehicle]) <==>
        (FirstDecisive(TargetsOf(boxes), s.filter) == |TargetsOf(boxes)| ||
         IsPerson(TargetsOf(boxes)[FirstDecisive(TargetsOf(boxes), s.filter)]))
  {
  }

  /** The inputs of one cycle. */
  datatype CycleInput = CycleInput(now: real, reply: Reply, landOk: bool)

  /** The times at which a run of cycles landed the vehicle for target loss. */
  function TimeoutLandings(s: Session, run: seq<CycleInput>): seq<real>
    decreases |run|
  {
    if run == [] then []
    else
      var t := CycleStep(s, run[0].now, run[0].reply, run[0].landOk);
      (if LandVehicle in t.calls then [run[0].now] else []) + TimeoutLandings(t.next, run[1..])
  }

  /**
   * A cycle moves the time of the last target only to its own time, and
   * lands only when that time is more than 30 seconds after the last target.
   */
  lemma CycleClock(s: Session, input: CycleInput)
    ensures var t := CycleStep(s, input.now, input.reply, input.landOk);
      && (t.next.lastTargetTime == s.lastTargetTime || t.next.lastTargetTime == input.now)
      && (LandVehicle in t.calls ==>
            input.now - s.lastTargetTime > TARGET_LOSS_TIMEOUT && t.next.lastTargetTime == input.now)
  {
  }

  /** Landing times each more than 30 seconds after `since` and more than 30 seconds apart. */
  ghost predicate SpacedAfter(times: seq<real>, since: real)
  {
    && (forall i :: 0 <= i < |times| ==> times[i] - since > TARGET_LOSS_TIMEOUT)
    && (forall i :: 0 < i < |times| ==> times[i] - times[i - 1] > TARGET_LOSS_TIMEOUT)
  }

  lemma SpacedPrepend(x: real, times: seq<real>, since: real)
    requires SpacedAfter(times, x) && x - since > TARGET_LOSS_TIMEOUT
    ensures SpacedAfter([x] + times, since)
  {
    var all := [x] + times;
    forall i | 0 < i < |all|
      ensures all[i] - since > TARGET_LOSS_TIMEOUT && all[i] - all[i - 1] > TARGET_LOSS_TIMEOUT
    {
      assert all[i] == times[i - 1];
    }
  }

  lemma SpacedEarlier(times: seq<real>, since: real, later: real)
    requires SpacedAfter(times, later) && since <= later
    ensures SpacedAfter(times, since)
  {
  }

  /**
   * On a clock that does not run backwards, target-loss landings are more
   * than 30 seconds apart, and the first comes more than 30 seconds after
   * the last target: no cycle lands twice for the same loss, but the
   * landing repeats every 30 seconds for as long as no target is seen.
   */
  lemma {:induction false} TimeoutLandingsSpaced(s: Session, run: seq<CycleInput>)
    requires forall i :: 0 <= i < |run| ==> s.lastTargetTime <= run[i].now
    requires forall i, j :: 0 <= i < j < |run| ==> run[i].now <= run[j].now
    ensures SpacedAfter(TimeoutLandings(s, run), s.lastTargetTime)
    decreases |run|
  {
    if run != [] {
      var t := CycleStep(s, run[0].now, run[0].reply, run[0].landOk);
      var rest := run[1..];
      CycleClock(s, run[0]);
      var clock := t.next.lastTargetTime;
      assert s.lastTargetTime <= clock by {
        assert s.lastTargetTime <= run[0].now;
      }
      forall i | 0 <= i < |rest|
        ensures clock <= rest[i].now
      {
        assert rest[i] == run[i + 1];
      }
      TimeoutLandingsSpaced(t.next, rest);
      var tail := TimeoutLandings(t.next, rest);
      if LandVehicle in t.calls {
        SpacedPrepend(run[0].now, tail, s.lastTargetTime);
      } else {
        SpacedEarlier(tail, s.lastTargetTime, clock);
      }
    }
  }

  /** A vehicle already in Land lands again when another timeout passes: the state does not suppress it. */
  lemma LandingRepeatsWhileLanded(s: Session, now: real, landOk: bool)
    requires s.state == Land && !s.emergencyFlag
    requires now - s.lastTargetTime > TARGET_LOSS_TIMEOUT
    ensures CycleStep(s, now, Parsed(Some(TARGETS_STATUS), []), landOk).calls == [LandVehicle]
  {
  }

  /** The client's receive queue after one cycle, and the reply it processed, if any. */
  datatype ReadResult = ReadResult(queued: seq<Reply>, processed: Option<Reply>)

  /**
   * The client's read as written: every cycle sends a frame and the detector
   * answers it, but a gated cycle skips the read, so the reply to its frame
   * stays queued and a later cycle reads the oldest queued reply.
   */
  function ReadAsWritten(queued: seq<Reply>, gated: bool, reply: Reply): (r: ReadResult)
    // a gated cycle leaves its reply at the back of the queue
    ensures gated ==> r.processed.None? && r.queued == queued + [reply]
    // a reading cycle takes the oldest reply, its own only when nothing was queued
    ensures !gated ==> r.processed == Some(if queued == [] then reply else queued[0])
    ensures !gated ==> |r.queued| == |queued| && (queued != [] ==> r.queued == queued[1..] + [reply])
  {
    var q := queued + [reply];
    if gated then ReadResult(q, None) else ReadResult(q[1..], Some(q[0]))
  }

  /** The read with the gated cycle taking and discarding its reply: from an empty queue, nothing is ever left queued. */
  function ReadDrained(queued: seq<Reply>, gated: bool, reply: Reply): (r: ReadResult)
    ensures queued == [] ==> r.queued == [] && r.processed == (if gated then None else Some(reply))
  {
    var q := queued + [reply];
    ReadResult(q[1..], if gated then None else Some(q[0]))
  }

  /** As written, the cycle after an emergency cycle acts on the reply to the emergency cycle's frame. */
  lemma StaleReplyAfterEmergency(r0: Reply, r1: Reply)
    requires r0 != r1
    ensures var first := ReadAsWritten([], true, r0);
      ReadAsWritten(first.queued, false, r1).processed == Some(r0)
  {
  }

  /** The number of gated cycles in a run. */
  function GatedCount(gated: seq<bool>): nat
  {
    if gated == [] then 0 else (if gated[0] then 1 else 0) + GatedCount(gated[1..])
  }

  /** The replies queued after a run of cycles, as written; `gated[i]` says whether cycle i was gated. */
  function QueuedAsWritten(queued: seq<Reply>, gated: seq<bool>, replies: seq<Reply>): seq<Reply>
    requires |gated| == |replies|
    decreases |gated|
  {
    if gated == [] then queued
    else QueuedAsWritten(ReadAsWritten(queued, gated[0], replies[0]).queued, gated[1..], replies[1..])
  }

  /**
   * As written, every gated cycle adds one reply to the backlog and no cycle
   * removes one, so after any gated cycle every processed reply answers an
   * older frame, for the rest of the connection.
   */
  lemma {:induction false} BacklogCountsGatedCycles(queued: seq<Reply>, gated: seq<bool>, replies: seq<Reply>)
    requires |gated| == |replies|
    ensures |QueuedAsWritten(queued, gated, replies)| == |queued| + GatedCount(gated)
    decreases |gated|
  {
    if gated != [] {
      BacklogCountsGatedCycles(ReadAsWritten(queued, gated[0], replies[0]).queued, gated[1..], replies[1..]);
    }
  }

  /**
   * The client's state. The fields are the client's globals, plus the time
   * of the last target kept by its detection loop and the replies waiting
   * unread on its socket.
   */
  class Tracker {
    var filter: Option<string>
    var state: FlightState
    var emergencyFlag: bool
    var altitude: real
    var lastTargetTime: real
    var unread: seq<Reply>
    ghost var calls: seq<ControlCall>

    ghost predicate Valid()
      reads this
    {
      AltitudeOk(altitude) && unread == []
    }

    function Snapshot(): Session
      reads this
    {
      Session(filter, state, emergencyFlag, altitude, lastTargetTime)
    }

    /** The client at start-up; its detection loop starts its target clock at `now`. */
    constructor (now: real)
      ensures Valid()
      ensures Snapshot() == Session(None, Land, false, 1.0, now) && calls == []
    {
      filter := None;
      state := Land;
      emergencyFlag := false;
      altitude := 1.0;
      lastTargetTime := now;
      unread := [];
      calls := [];
    }

    /** `land_drone()`: asks the vehicle to land; the altitude drops to 0 only if that call returns. */
    method LandDrone(landOk: bool)
      requires Valid()
      modifies this`altitude, this`calls
      ensures Valid()
      ensures calls == old(calls) + [LandVehicle]
      ensures altitude == LandedAltitude(old(altitude), landOk)
    {
      calls := calls + [LandVehicle];
      if landOk {
        altitude := 0.0;
      }
    }

    /**
     * The start command. The filter becomes `target` and, unless the takeoff
     * raises, the state becomes Track for a truthy target and Land otherwise,
     * whatever the mode; a mode other than "obje" is then rejected.
     */
    method Command(mode: Option<string>, requested: Option<real>, target: Option<string>, takeoffOk: bool)
      returns (status: CommandStatus)
      requires Valid()
      modifies this
      ensures Valid()
      ensures filter == target
      ensures emergencyFlag == old(emergencyFlag) && lastTargetTime == old(lastTargetTime)
      // a takeoff is asked for exactly when the altitude changes
      ensures var alt := CommandAltitude(requested);
        calls == old(calls) + (if old(altitude) != alt then [ArmAndTakeoff(alt)] else [])
      ensures status == TakeoffFailed <==> old(altitude) != CommandAltitude(requested) && !takeoffOk
      ensures status == TakeoffFailed ==> altitude == old(altitude) && state == old(state)
      ensures status != TakeoffFailed ==>
        altitude == CommandAltitude(requested) && state == (if Truthy(target) then Track else Land)
      ensures status != TakeoffFailed ==>
        status == (if mode == Some(OBJECT_MODE) then Started(CommandAltitude(requested)) else InvalidMode)
    {
      filter := target;
      var alt := CommandAltitude(requested);
      if altitude != alt {
        calls := calls + [ArmAndTakeoff(alt)];
        if !takeoffOk {
          return TakeoffFailed;
        }
        altitude := alt;
      }
      state := if Truthy(target) then Track else Land;
      if mode != Some(OBJECT_MODE) {
        return InvalidMode;
      }
      status := Started(alt);
    }

    /** The reset command: clears the filter and sets Land, nothing else. */
    method Reset()
      requires Valid()
      modifies this`filter, this`state
      ensures Valid()
      ensures filter == None && state == Land
    {
      filter := None;
      state := Land;
    }

    /**
     * The emergency command: raises the flag, stops the vehicle and, if the
     * stop returns, lands; the state is Emergency even when the stop raises.
     */
    method RaiseEmergency(stopOk: bool, landOk: bool)
      requires Valid()
      modifies this
      ensures Valid()
      ensures emergencyFlag && state == Emergency
      ensures calls == old(calls) + (if stopOk then [StopDrone, LandVehicle] else [StopDrone])
      ensures altitude == (if stopOk then LandedAltitude(old(altitude), landOk) else old(altitude))
      ensures filter == old(filter) && lastTargetTime == old(lastTargetTime)
    {
      emergencyFlag := true;
      calls := calls + [StopDrone];
      if stopOk {
        LandDrone(landOk);
      }
      state := Emergency;
    }

    /** The resume command: lowers the flag, lands and sets Land, whatever the filter. */
    method Resume(landOk: bool)
      requires Valid()
      modifies this
      ensures Valid()
      ensures !emergencyFlag && state == Land
      ensures calls == old(calls) + [LandVehicle]
      ensures altitude == LandedAltitude(old(altitude), landOk)
      ensures filter == old(filter) && lastTargetTime == old(lastTargetTime)
    {
      emergencyFlag := false;
      LandDrone(landOk);
      state := Land;
    }

    /**
     * One detection cycle at time `now`. `reply` is the reply the socket
     * delivers next; with the gated cycle consuming its own reply
     * (`ReadDrained`) that is the reply to the frame this cycle sent. `landOk` says whether a landing it starts
     * returns normally.
     */
    method Cycle(now: real, reply: Reply, landOk: bool)
      requires Valid()
      modifies this
      ensures Valid()
      ensures var t := CycleStep(old(Snapshot()), now, reply, landOk);
        Snapshot() == t.next && calls == old(calls) + t.calls
      // while the emergency gate is closed a cycle stops the vehicle and processes no reply
      ensures old(Gated(Snapshot())) ==> Snapshot() == old(Snapshot()) && calls == old(calls) + [StopDrone]
      // a reply without the targets status changes nothing
      ensures !old(Gated(Snapshot())) && !(reply.Parsed? && reply.status == Some(TARGETS_STATUS)) ==>
        Snapshot() == old(Snapshot()) && calls == old(calls)
    {
      var gated := emergencyFlag || state == Emergency;
      var read := ReadDrained(unread, gated, reply);
      unread := read.queued;
      if gated {
        calls := calls + [StopDrone];
        return;
      }
      var r := read.processed.value;
      if r.Malformed? || r.status != Some(TARGETS_STATUS) {
        return;
      }
      var targets := r.targets;
      var found := false;
      var i := 0;
      while i < |targets|
        invariant 0 <= i <= |targets|
        invariant forall j :: 0 <= j < i ==> !Decisive(targets[j], filter)
        invariant Snapshot() == old(Snapshot()) && calls == old(calls) && unread == []
        invariant !found
      {
        var target := targets[i];
        if target.name == PERSON {
          state := Emergency;
          break;
        }
        if Truthy(filter) && target.name != filter.value {
          i := i + 1;
          continue;
        }
        found := true;
        lastTargetTime := now;
        calls := calls + [SendYawControl(target.dx), SendPositionControl(target.dx, target.dy, target.area)];
        state := Track;
        break;
      }
      if !found && now - lastTargetTime > TARGET_LOSS_TIMEOUT {
        LandDrone(landOk);
        state := Land;
        lastTargetTime := now;
      }
    }
  }
}
