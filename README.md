# Drone target tracking: a Dafny model

This project models the decision-making core of a camera drone that follows
objects found by a remote detector. There are three pieces:

- **The camera client** (`fake_pi_test_client_cam_object.py`) holds a label
  filter, a flight state (land, track or emergency), an emergency flag, the
  current altitude and the time it last saw a target. Each cycle sends a
  camera frame to the detector; a cycle not held by the emergency gate reads
  one reply. The first entry of the reply that is a person or passes the
  filter decides the cycle: a person forces an emergency, a match is tracked
  with one yaw command and one position command. When no target has been
  seen for more than 30 seconds, the vehicle lands. The HTTP command
  handlers (`command`, `reset`, `emergency`, `resume`) set the filter and
  altitude, and raise and clear emergencies.
- **The control layer** (`control.py`) turns a target's pixel offset and box
  area into a body-frame velocity. Each axis has a dead-band, a proportional
  gain and a ±1 m/s clamp. The yaw PID's output is clamped to ±15 °/s.
  `configure_PID` selects gains and limits, and `stop_drone` sends a zero
  velocity.
- **The detector server** (`server_yolo_response.py`) reassembles frames that
  carry a four-byte big-endian length prefix from a TCP byte stream. It turns
  each detector box above confidence 0.4 into a target (centre offset from
  the frame centre, and area) and answers every frame with one framed reply
  whose status is `"hedefler"`.

Files:

| file | module | contents |
|---|---|---|
| `basics.dfy` | `Basics` | `Option` |
| `framing.dfy` | `Framing` | length prefix, frame splitting, the server's reassembly loop |
| `detection.dfy` | `Detection` | box geometry, the confidence filter, the reply |
| `server.dfy` | `Server` | one accepted connection of the detector server |
| `control.dfy` | `Control` | velocity arithmetic and the `Controller` class (PID configuration, commands sent) |
| `tracking.dfy` | `Tracking` | the client's `Tracker` class, the value-level cycle `CycleStep`, and the lemmas about it |

Two parts are imperative in the source and imperative in the model:

- **The client's globals** are the fields of `Tracking.Tracker`. Its handlers
  and its detection cycle are methods. Each call into the control layer is
  appended to a ghost trace, `calls`. `Tracker.Cycle` is proved against the
  value-level function `CycleStep`, and the tracking properties are proved
  as lemmas about `CycleStep`.
- **The server's reassembly loop** is the pair of methods `Framing.FillTo`
  and `Framing.ReceiveFrame`. They are proved against `SplitFrame`.
  `Server.ServeConnection` is proved against `Deframe`.

Some behaviour is documented differently from how the code does it. The model follows the code, and the lemmas named here state what the code does:

- **No smoothing.** There is no moving-average smoother. Offsets and areas reach the velocity arithmetic unfiltered.
- **A person stops the scan.** The scan stops at the first entry that is a person or passes the filter (`FirstDecisive`). A matching target listed before a person is tracked, and the person is not seen that cycle (`FirstMatchIsTracked`). A person does not force an emergency regardless of position.
- **Resume always lands.** `resume` always lands and never takes off again, whatever the filter (`Tracker.Resume`).
- **The timeout repeats.** The target-loss landing is not issued just once. It repeats every 30 seconds for as long as nothing qualifies, even in the Land state (`LandingRepeatsWhileLanded`, `TimeoutLandingsSpaced`). A timeout in the same cycle as a person overrides Emergency with Land (`PersonFirstForcesEmergency`).
- **A malformed reply skips the timeout.** A reply that is not valid JSON is not treated as "no detections": the JSON error is caught outside the status branch, so the 30 s target-loss check does not run that cycle (`Tracker.Cycle`: a reply without status "hedefler" changes nothing).
- **The roll PID is unused.** `configure_PID` builds a roll PID, but nothing uses it.

## Model

| member | source | states |
|---|---|---|
| Framing.PackLength | server_yolo_response.py:99 | four bytes whose big-endian value is the length |
| Framing.UnpackLength | server_yolo_response.py:58 | the first four bytes read as a big-endian unsigned number; always below 2^32 |
| Framing.UnpackPack | server_yolo_response.py:99 | reading back a packed length gives the length, for every length below 2^32 |
| Framing.PackUnpack | server_yolo_response.py:58 | packing a header's value gives back the header's four bytes |
| Framing.EncodeFrame | server_yolo_response.py:99 | an encoded frame is four header bytes announcing the payload length, followed by the payload |
| Framing.SplitFrame | server_yolo_response.py:53-67 | a frame is taken exactly when the stream holds four header bytes and the payload they announce; the payload has the announced length |
| Framing.SplitFrameParts | server_yolo_response.py:58-67 | header, payload and remaining bytes make up the whole stream: no byte is lost |
| Framing.SplitEncodeFrame | server_yolo_response.py:58-67 | round trip: an encoded payload followed by any bytes splits into that payload and those bytes |
| Framing.Deframe | server_yolo_response.py:52-67 | the frames the server takes from a connection's bytes: none exactly when the stream does not start with a whole frame, and together with their headers they use no more bytes than the stream has |
| Framing.DeframeEncodeAll | server_yolo_response.py:52-67 | round trip for a connection: the frames read from a stream of encoded payloads are those payloads |
| Framing.FillTo | server_yolo_response.py:53-57 | one wait loop: bytes are conserved, it ends with at least `need` bytes unless the connection closed after every chunk, and the last chunk read was needed |
| Framing.ReceiveFrame | server_yolo_response.py:49-67 | one pass of the reassembly loop gives the frame `SplitFrame` takes, keeps exactly the bytes after it, reports a close before a whole frame, and reads no chunk the frame did not need |
| Server.ServeConnection | server_yolo_response.py:49-115 | the server answers exactly the complete frames of the connection, in order, one reply each, and drops a partial frame cut off by the close |
| Server.ChunkingDoesNotMatter | server_yolo_response.py:52-67 | however the network splits the client's encoded frames into chunks, the server receives exactly the frames sent |
| Detection.Truncate | server_yolo_response.py:78 | `int()` on a coordinate rounds toward zero |
| Detection.TargetOf | server_yolo_response.py:78-83 | a target keeps the box's name and the box's (unrounded) confidence; its offset is the floor of the corner midpoint minus the frame centre (320, 160); a centred box has offset 0; its area is (xmax − xmin)·(ymax − ymin) of the truncated corners, non-negative when they are in order |
| Detection.TargetsOf | server_yolo_response.py:73-91 | at most one target per box, and every listed target comes from a box whose confidence is above 0.4 |
| Detection.TargetsOfAppend | server_yolo_response.py:74-91 | listing distributes over concatenation, so targets keep detector order |
| Detection.TargetsOfOne | server_yolo_response.py:75-91 | a box is listed, as its target, exactly when its confidence is above 0.4 |
| Detection.ListTargets | server_yolo_response.py:73-91 | the server's loop builds exactly `TargetsOf(boxes)` |
| Detection.ServerReply | server_yolo_response.py:97 | every reply carries the status "hedefler" and no more targets than boxes |
| Control.Clamp | control.py:89-91 | the clamped value lies within ±limit, equals the input inside the range and the nearer bound outside it |
| Control.PositionVelocity | control.py:72-91 | every component is within ±1 m/s; each axis is 0 inside its dead-band (20 px, 15 px, 400 px²) and the clamped proportional command outside it; vy has the sign of dx, vz the opposite sign of dy, and vx the sign of areaRef − area |
| Control.PositionAxesIndependent | control.py:76-86 | each component depends only on its own input |
| Control.PositionExamples | control.py:66-91 | a centred target at the ideal area gives no motion; 25 px to the right gives 0.1 m/s; 20 px is inside the dead-band and 21 px is not |
| Control.Controller.constructor | control.py:17-18 | both PID objects start unconfigured and nothing has been sent |
| Control.Controller.ConfigurePID | control.py:24-36 | "PID" mode gives gains (0.18, 0.018, 0) and (0.135, 0.182, 0.0036); any other mode zeroes I and D; the limits are ±15 and ±1; the set-point is 0 |
| Control.Controller.StopDrone | control.py:51-52 | sends exactly one zero velocity held for one second |
| Control.Controller.SendYawControl | control.py:55-63 | nothing is sent while the yaw PID is unconfigured; otherwise exactly one relative yaw within ±15 °/s, the clamped PID output |
| Control.Controller.SendPositionControl | control.py:66-94 | sends exactly one velocity command, carrying `PositionVelocity`, held for one second |
| Tracking.CommandAltitude | fake_pi_test_client_cam_object.py:169-173 | the start altitude always lies in [1, 5]; it is 1 when none is given, the requested value inside the range, and the nearer bound outside it |
| Tracking.FirstDecisive | fake_pi_test_client_cam_object.py:108-128 | the scan stops at the first entry that is a person or passes the filter, and no earlier entry is either |
| Tracking.CycleStep | fake_pi_test_client_cam_object.py:89-134 | a cycle never changes the filter or the emergency flag; it keeps the altitude valid; it makes no calls, one stop, one landing, or one yaw/position pair for the same target |
| Tracking.PersonFirstForcesEmergency | fake_pi_test_client_cam_object.py:108-134 | a person before any qualifying entry gives no motion command and state Emergency, unless the timeout fires in the same cycle, which lands and leaves Land |
| Tracking.FirstMatchIsTracked | fake_pi_test_client_cam_object.py:119-128 | the first qualifying entry, with nothing decisive before it, gives exactly Yaw(dx) and Position(dx, dy, area), state Track and last target time := now |
| Tracking.NoTargetLandsAfterTimeout | fake_pi_test_client_cam_object.py:130-134 | with nothing qualifying, the cycle lands iff more than 30 s (strictly) have passed; a landing sets Land and restarts the clock; otherwise the clock and the altitude are unchanged, and when nothing is decisive the whole state is unchanged and no command is sent |
| Tracking.LaterEntriesIgnored | fake_pi_test_client_cam_object.py:108-128 | entries after the first decisive one do not change where the scan stops |
| Tracking.CycleIgnoresLaterEntries | fake_pi_test_client_cam_object.py:108-134 | a reply cut after its first decisive entry, with anything appended, gives the same cycle outcome |
| Tracking.OtherLabelSkipped | fake_pi_test_client_cam_object.py:119-120 | with a filter set, inserting a non-person entry of another label anywhere changes nothing |
| Tracking.NoFilterQualifiesAllButPersons | fake_pi_test_client_cam_object.py:114-120 | without a filter (none or the empty label) an entry qualifies exactly when it is not a person |
| Tracking.NoFilterTracksFirstEntry | fake_pi_test_client_cam_object.py:108-128 | without a filter the first entry, unless it is a person, is tracked whatever its label: exactly Yaw(dx) and Position(dx, dy, area) for it, state Track, last target time := now |
| Tracking.ServerReplyIsActedOn | fake_pi_test_client_cam_object.py:104-134 | for a reply the server built, the cycle sends no motion command exactly when no listed target is decisive or the first decisive one is a person |
| Tracking.CycleClock | fake_pi_test_client_cam_object.py:122-134 | a cycle moves the last-target time only to its own time, and lands only more than 30 s after the last target |
| Tracking.TimeoutLandingsSpaced | fake_pi_test_client_cam_object.py:130-134 | over any run with a clock that does not go backwards, target-loss landings come more than 30 s after the last target and more than 30 s apart |
| Tracking.LandingRepeatsWhileLanded | fake_pi_test_client_cam_object.py:130-134 | a vehicle already in Land lands again once another timeout has passed |
| Tracking.ReadAsWritten | fake_pi_test_client_cam_object.py:86-100 | the read as written: a gated cycle leaves its reply queued; a reading cycle processes the oldest queued reply, its own only when nothing was queued, and the queue keeps its length |
| Tracking.StaleReplyAfterEmergency | fake_pi_test_client_cam_object.py:86-100 | as written, the cycle after a gated cycle acts on the reply to the gated cycle's frame |
| Tracking.BacklogCountsGatedCycles | fake_pi_test_client_cam_object.py:86-100 | as written, the unread backlog grows by one with every gated cycle and never shrinks |
| Tracking.ReadDrained | fake_pi_test_client_cam_object.py:89-100 | with the reply to a gated cycle consumed, a queue that starts empty stays empty, and every cycle that reads acts on the reply to its own frame |
| Tracking.Tracker.constructor | fake_pi_test_client_cam_object.py:29-33 | start-up state: no filter, Land, flag down, altitude 1.0, target clock at start time, nothing called |
| Tracking.Tracker.LandDrone | fake_pi_test_client_cam_object.py:46-53 | one landing call; the altitude becomes 0 only when the call returns |
| Tracking.Tracker.Command | fake_pi_test_client_cam_object.py:160-184 | the filter becomes the target; a takeoff is issued iff the altitude differs from the clamped one, and afterwards they are equal; the state becomes Track for a truthy target and Land otherwise, even for a rejected mode; a failed takeoff leaves altitude and state |
| Tracking.Tracker.Reset | fake_pi_test_client_cam_object.py:187-192 | clears the filter, sets Land and changes nothing else |
| Tracking.Tracker.RaiseEmergency | fake_pi_test_client_cam_object.py:195-206 | raises the flag and sets Emergency even when the stop fails; stops, then lands only if the stop returned |
| Tracking.Tracker.Resume | fake_pi_test_client_cam_object.py:209-215 | lowers the flag, lands and sets Land whatever the filter |
| Tracking.Tracker.Cycle | fake_pi_test_client_cam_object.py:89-134 | the cycle's new state and calls are exactly `CycleStep`'s; while gated it only stops; a reply without status "hedefler" changes nothing |

## Left out

- I/O: the sockets, the connect and accept calls, and the 5 s reconnect loop. Also the frame-rate sleeps, Flask routing, JSON encoding and decoding, the random ids, the stream redirect, `/ping`, OpenCV capture, encoding and drawing, YOLO inference, the signal and atexit handlers, and logging. Detector output and the time are passed in as parameters.
- Concurrency: the Flask handlers and the detection thread share the globals without a lock. Each handler and each cycle is modelled as one atomic step.
- Floating point: gains, altitudes, velocities and confidences are `real`. IEEE rounding is not modelled, and neither are NaN or infinite altitudes. The rounding of `conf` to two decimals in the reply is not modelled, so a target carries its box's confidence: the reported value of a box at 0.403 would be exactly 0.4.
- A frame the image decoder cannot decode makes the detector raise, which ends the server's connection. The model's `detect` is total.
- The client's `recv(4)` and `recv(cmd_len)` are assumed to return whole messages. Short reads are not modelled, and neither is an empty header read, which ends the connection.
- A reply is modelled as already decoded: `Malformed` when it is not JSON, otherwise its status and its target list. Replies that are JSON but not an object, and targets with missing fields, are not modelled.
- An exception raised inside a cycle by the gate's `stop_drone` call (line 91) or by the yaw or position call ends the connection. It is not modelled: those calls are recorded as made.
- `Framing.PackLength`, `Framing.EncodeFrame`, `Framing.EncodeAll`: `struct.pack(">L", n)` raises for n ≥ 2^32. The model requires lengths below 2^32 and does not model that error.
- The detection cycle calls `time.time()` three times. The model uses one time, `now`, for all three.
- `Tracking.Tracker.Command`: the altitude field is `Option<real>`. `None` stands for a missing or non-numeric value. The model does not say which strings `float()` accepts.
- `Control.Controller.SendYawControl`: the PID library's arithmetic is not part of this model. Its output is a parameter, and only the clamp applied to it is proved.
- The `simple_pid` PID objects are modelled by their settings only: gains, set-point and output limits. The integral and derivative state is not modelled.
- `drone_control.py` is not part of this model. Its calls appear only as recorded commands: `ControlCall` in the client and `VehicleCommand` in the control layer. So do `control.py`'s thin wrappers `arm_and_takeoff`, `land` and `rtl` (lines 42-49).
- `test.py` is a hardware test script and is not modelled.
- The server's `/stream` endpoint and its `latest_frame` are not modelled.
- `Tracking.Tracker.Cycle`: the class uses the corrected read (`ReadDrained`), not the read as written. `reply` is whatever reply the socket delivers next, and the `unread` queue stays empty. The read as written, where the queue grows with every gated cycle, is modelled by `ReadAsWritten` and the lemmas about it, and is not part of the class.
- `Framing.ReceiveFrame`: a header longer than `2^32 - 1` cannot occur with four bytes, so the bound is a fact of the format, not a precondition.

## Findings

| source | as written | input that shows it | evidently intended | confidence | as-written member | corrected member |
|---|---|---|---|---|---|---|
| fake_pi_test_client_cam_object.py:86-100 | every cycle sends a frame (line 86), but a cycle in the emergency gate `continue`s before reading the reply (lines 89-93); the server answers every frame, so each gated cycle leaves one reply unread, and every later cycle reads the oldest queued reply | one gated cycle whose frame is answered with r0, then `resume` and an ungated cycle whose frame is answered with r1 ≠ r0: the second cycle acts on r0 | each cycle acts on the reply to its own frame (the gated cycle reads and discards its reply, or sends no frame) | high (not executed) | Tracking.StaleReplyAfterEmergency | Tracking.ReadDrained |
