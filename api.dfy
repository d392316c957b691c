/**
  The web layer's own state and decisions: the registry of open camera
  streams, the teleoperation WebSocket's rule for forwarding tables, the
  parameter check of the synchronous motor-setup endpoint, and the
  calibration status reply.
 */
module Api {
  import opened Text
  import opened Sessions
  import Calibration
  import opened Datasets

  /** An opened capture device (the OpenCV object, opaque). */
  datatype Capture = Capture(handle: nat)

  /** A reply `{"success": …, "message": …}`. */
  datatype Reply = Reply(success: bool, message: string)

  function CameraText(index: int): string {
    "Camera " + IntToString(index)
  }

  /** `active_camera_streams`: camera index to the capture streaming it. */
  class CameraStreams {
    var active: map<int, Capture>

    constructor()
      ensures active == map[]
    {
      active := map[];
    }

    /**
      `start_camera_stream`: success without opening anything for an active
      index; otherwise `opens` is whether the device could be opened, and the
      device is released at once. The registry never changes.
     */
    method Start(index: int, opens: bool) returns (r: Reply)
      ensures index in active ==> r == Reply(true, CameraText(index) + " stream already active")
      ensures index !in active && opens ==> r == Reply(true, CameraText(index) + " stream started")
      ensures index !in active && !opens ==> r == Reply(false, CameraText(index) + " not available")
    {
      if index in active {
        return Reply(true, CameraText(index) + " stream already active");
      }
      if !opens {
        return Reply(false, CameraText(index) + " not available");
      }
      r := Reply(true, CameraText(index) + " stream started");
    }

    /** `stop_camera_stream`: an active index is released and removed, and nothing else; an inactive one is refused. */
    method Stop(index: int) returns (r: Reply)
      modifies this
      ensures r.success <==> index in old(active)
      ensures active == old(active) - {index}
      ensures r.success ==> r.message == CameraText(index) + " stream stopped and released"
      ensures !r.success ==> r.message == CameraText(index) + " stream not active"
    {
      if index in active {
        active := active - {index};
        return Reply(true, CameraText(index) + " stream stopped and released");
      }
      r := Reply(false, CameraText(index) + " stream not active");
    }

    /** `get_camera_status`. */
    method IsStreaming(index: int) returns (b: bool)
      ensures b <==> index in active
    {
      b := index in active;
    }

    /**
      The MJPEG generator's start: a device that does not open ends the stream
      at once; otherwise its capture is registered under the index, replacing
      any capture already there.
     */
    method OpenStream(index: int, cap: Capture, isOpen: bool) returns (registered: bool)
      modifies this
      ensures registered == isOpen
      ensures isOpen ==> active == old(active)[index := cap]
      ensures !isOpen ==> active == old(active)
    {
      registered := isOpen;
      if isOpen {
        active := active[index := cap];
      }
    }

    /** The generator's loop condition: it sends another frame only while its index is registered. */
    method KeepStreaming(index: int) returns (goOn: bool)
      ensures goOn <==> index in active
    {
      goOn := index in active;
    }

    /** The generator's clean-up: whatever capture is registered under the index is removed. */
    method CloseStream(index: int)
      modifies this
      ensures active == old(active) - {index}
    {
      if index in active {
        active := active - {index};
      }
    }
  }

  /** A stream stopped through the endpoint ends its generator's loop, and a second stop is refused. */
  method StopEndsStream(s: CameraStreams, index: int, cap: Capture) returns (goOn: bool, first: Reply, second: Reply)
    modifies s
    ensures first.success && !second.success && !goOn
  {
    var _ := s.OpenStream(index, cap, true);
    first := s.Stop(index);
    second := s.Stop(index);
    goOn := s.KeepStreaming(index);
  }

  // ----- the teleoperation WebSocket: send a table only when it changed -----

  /** Whether the reading `latest` is sent, given what was sent so far. */
  predicate Sendable(latest: Option<string>, sent: seq<string>) {
    latest.Some? && latest.value != [] && (sent == [] || sent[|sent| - 1] != latest.value)
  }

  /** The tables sent for successive `get_latest_table` readings, starting with nothing sent. */
  function Forwarded(readings: seq<Option<string>>): seq<string>
    decreases |readings|
  {
    if readings == [] then []
    else
      var sent := Forwarded(readings[..|readings| - 1]);
      var latest := readings[|readings| - 1];
      if Sendable(latest, sent) then sent + [latest.value] else sent
  }

  /**
    No empty table is sent, no table is sent twice in a row, at most one table
    goes out per reading, and every table sent was read.
   */
  lemma {:induction false} ForwardedSpec(readings: seq<Option<string>>)
    ensures var sent := Forwarded(readings);
      && |sent| <= |readings|
      && (forall k :: 0 <= k < |sent| ==> sent[k] != [])
      && (forall k :: 0 < k < |sent| ==> sent[k - 1] != sent[k])
      && (forall k :: 0 <= k < |sent| ==> Some(sent[k]) in readings)
    decreases |readings|
  {
    if readings != [] {
      var prefix := readings[..|readings| - 1];
      ForwardedSpec(prefix);
      assert forall x :: x in prefix ==> x in readings;
    }
  }

  /** Once a non-empty table has been read, the last table the client got is that one. */
  lemma ClientHasLatest(readings: seq<Option<string>>, t: string)
    requires t != []
    ensures Forwarded(readings + [Some(t)]) != []
    ensures var sent := Forwarded(readings + [Some(t)]); sent[|sent| - 1] == t
  {
    assert (readings + [Some(t)])[..|readings|] == readings;
  }

  /**
    The forwarding loop of `websocket_teleoperation`, one reading per
    iteration, with `last_table_sent` starting as nothing.
   */
  method ForwardTables(readings: seq<Option<string>>) returns (sent: seq<string>)
    ensures sent == Forwarded(readings)
  {
    var lastSent: Option<string> := None;
    sent := [];
    var i := 0;
    while i < |readings|
      invariant 0 <= i <= |readings|
      invariant sent == Forwarded(readings[..i])
      invariant lastSent == (if sent == [] then None else Some(sent[|sent| - 1]))
    {
      assert readings[..i + 1][..i] == readings[..i];
      var latest := readings[i];
      if latest.Some? && latest.value != [] && latest != lastSent {
        sent := sent + [latest.value];
        lastSent := latest;
      }
      i := i + 1;
    }
    assert readings[..i] == readings;
  }

  // ----- `/run-motor-setup` -----

  /** The endpoint's answer before the command is run: a 400 error, or the command to run. */
  datatype SetupResponse = BadRequest(status: int, error: string) | Run(command: seq<string>)

  /** `str(v)` of a request value, as the f-string writes it into the command; `None` for `Null`. */
  function FormatValue(v: Json): (r: string)
    ensures v.Str? ==> r == v.s
    ensures v.Int? ==> r == IntToString(v.n)
  {
    match v
    case Str(s) => s
    case Int(n) => IntToString(n)
    case Null => "None"
  }

  /**
    The parameter check of `run_motor_setup` and the command it then runs. The
    request's `type` and `port` are JSON values (`Null` when absent) and are
    tested for Python truthiness, so a number other than 0 passes.
   */
  function RunMotorSetup(python: string, robotType: Json, port: Json): (r: SetupResponse)
    ensures r.BadRequest? <==> !Truthy(robotType) || !Truthy(port)
    ensures r.BadRequest? ==> r == BadRequest(400, "Missing type or port")
    ensures r.Run? ==> r.command == [python, "-u", "-m", "lerobot.setup_motors",
                                     "--robot.type=" + FormatValue(robotType), "--robot.port=" + FormatValue(port)]
  {
    if !Truthy(robotType) || !Truthy(port) then BadRequest(400, "Missing type or port")
    else Run([python, "-u", "-m", "lerobot.setup_motors", "--robot.type=" + FormatValue(robotType), "--robot.port=" + FormatValue(port)])
  }

  /**
    A missing, empty or zero `type` or `port` is refused; a non-empty text or
    a non-zero number is accepted and written into its flag.
   */
  lemma RunMotorSetupCases(python: string, port: string, n: int)
    requires port != []
    ensures RunMotorSetup(python, Null, Str(port)).BadRequest?
    ensures RunMotorSetup(python, Int(0), Str(port)).BadRequest?
    ensures RunMotorSetup(python, Str(""), Str(port)).BadRequest?
    ensures n != 0 ==> RunMotorSetup(python, Int(n), Str(port)).Run?
                       && RunMotorSetup(python, Int(n), Str(port)).command[4] == "--robot.type=" + IntToString(n)
  {
  }

  // ----- `/calibrate/status/{session_id}` -----

  datatype CalibrationStatus = CalibrationStatus(sessionId: string, isRunning: bool, isWaitingForInput: bool, status: string)

  /** The status reply: "running" exactly while the session is starting or running, "finished" otherwise (an unknown id included). */
  method GetCalibrationStatus(svc: Calibration.CalibrationService, id: string) returns (r: CalibrationStatus)
    ensures r.sessionId == id
    ensures r.isRunning <==> id in svc.reg.sessions && svc.reg.sessions[id].status in {Starting, Running}
    ensures r.isWaitingForInput <==> id in svc.reg.sessions && svc.reg.sessions[id].waiting
    ensures r.status == "running" <==> r.isRunning
    ensures r.status == "finished" <==> !r.isRunning
  {
    var running := svc.IsRunning(id);
    var waiting := svc.IsWaitingForInput(id);
    r := CalibrationStatus(id, running, waiting, if running then "running" else "finished");
  }
}
