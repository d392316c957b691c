/**
  The dataset-recording service: it runs `lerobot.record` with the arms, the
  cameras and the dataset options of a request, posts every line the program
  writes with its escape sequences removed, and reports how the program ended.
 */
module Recording {
  import opened Text
  import opened Ansi
  import opened Sessions
  import opened Cameras

  /** The word used in every message of the service. */
  const Activity := "Dataset recording"

  /** The parameters of `start_dataset_recording`; an optional text is `None` when not given. */
  datatype Request = Request(
    robotType: string, robotPort: string, robotId: string,
    teleopType: string, teleopPort: string, teleopId: string,
    cameras: seq<CameraSpec>, displayData: bool,
    repoId: Option<string>, numEpisodes: int, singleTask: Option<string>,
    pushToHub: bool, resume: bool, episodeTimeS: int, resetTimeS: int)

  /** Python truthiness of an optional text: given and not empty. */
  predicate Truthy(o: Option<string>) {
    o.Some? && o.value != []
  }

  /** The session id: robot id, teleoperator id, "recording" and the start time in seconds. */
  function SessionId(robotId: string, teleopId: string, now: int): string {
    robotId + "_" + teleopId + "_recording_" + IntToString(now)
  }

  /** Recordings of the same arms started at different seconds have different ids. */
  lemma SessionIdDistinct(robotId: string, teleopId: string, a: int, b: int)
    requires a != b
    ensures SessionId(robotId, teleopId, a) != SessionId(robotId, teleopId, b)
  {
    var p := robotId + "_" + teleopId + "_recording_";
    assert SessionId(robotId, teleopId, a)[|p|..] == IntToString(a);
    assert SessionId(robotId, teleopId, b)[|p|..] == IntToString(b);
    IntToStringInjective(a, b);
  }

  /** The fifteen arguments every recording command starts with. */
  function BaseCommand(python: string, r: Request): seq<Arg> {
    [Plain(python), Plain("-m"), Plain("lerobot.record"),
     Plain("--robot.type=" + r.robotType), Plain("--robot.port=" + r.robotPort), Plain("--robot.id=" + r.robotId),
     Plain("--teleop.type=" + r.teleopType), Plain("--teleop.port=" + r.teleopPort), Plain("--teleop.id=" + r.teleopId),
     Plain("--display_data=" + BoolText(r.displayData)),
     Plain("--dataset.num_episodes=" + IntToString(r.numEpisodes)),
     Plain("--dataset.push_to_hub=" + BoolText(r.pushToHub)),
     Plain("--resume=" + BoolText(r.resume)),
     Plain("--dataset.episode_time_s=" + IntToString(r.episodeTimeS)),
     Plain("--dataset.reset_time_s=" + IntToString(r.resetTimeS))]
  }

  /** The argument for an optional text, present only when the text is truthy. */
  function OptionalArg(flag: string, o: Option<string>): (args: seq<Arg>)
    ensures |args| == (if Truthy(o) then 1 else 0)
    ensures Truthy(o) ==> args == [Plain(flag + o.value)]
  {
    if Truthy(o) then [Plain(flag + o.value)] else []
  }

  /** The whole command: the fifteen base arguments, the camera dictionary, the repository, the task. */
  function Command(python: string, r: Request): seq<Arg> {
    BaseCommand(python, r) + CameraArgs(r.cameras, false)
    + OptionalArg("--dataset.repo_id=", r.repoId) + OptionalArg("--dataset.single_task=", r.singleTask)
  }

  /**
    The command: the booleans are written "true"/"false"; the camera dictionary
    follows the base arguments when there are cameras; the repository and the
    task come last, each present exactly when it is truthy, the task after the
    repository.
   */
  lemma CommandSpec(python: string, r: Request)
    ensures var cmd := Command(python, r);
      var extra := (if r.cameras == [] then 0 else 1) + (if Truthy(r.repoId) then 1 else 0) + (if Truthy(r.singleTask) then 1 else 0);
      && |cmd| == 15 + extra
      && cmd[9] == Plain("--display_data=" + (if r.displayData then "true" else "false"))
      && cmd[11] == Plain("--dataset.push_to_hub=" + (if r.pushToHub then "true" else "false"))
      && cmd[12] == Plain("--resume=" + (if r.resume then "true" else "false"))
      && (r.cameras != [] ==> cmd[15] == CamerasJson(ConfigOf(r.cameras)))
      && (Truthy(r.singleTask) ==> cmd[|cmd| - 1] == Plain("--dataset.single_task=" + r.singleTask.value))
      && (Truthy(r.repoId) ==>
            cmd[|cmd| - 1 - (if Truthy(r.singleTask) then 1 else 0)] == Plain("--dataset.repo_id=" + r.repoId.value))
  {
    var cmd := Command(python, r);
    assert cmd[..15] == BaseCommand(python, r);
    assert cmd[15..] == CameraArgs(r.cameras, false)
      + OptionalArg("--dataset.repo_id=", r.repoId) + OptionalArg("--dataset.single_task=", r.singleTask);
  }

  /** The camera dictionary is passed exactly when cameras are requested. */
  lemma CamerasArgIffCameras(python: string, r: Request)
    ensures r.cameras == [] <==> forall k :: 0 <= k < |Command(python, r)| ==> Command(python, r)[k].Plain?
  {
    var cmd := Command(python, r);
    var base := BaseCommand(python, r);
    var repo := OptionalArg("--dataset.repo_id=", r.repoId);
    var task := OptionalArg("--dataset.single_task=", r.singleTask);
    if r.cameras == [] {
      assert cmd == base + repo + task;
      forall k | 0 <= k < |cmd|
        ensures cmd[k].Plain?
      {
        if k < 15 {
          assert cmd[k] == base[k];
        } else if k < 15 + |repo| {
          assert cmd[k] == repo[k - 15];
        } else {
          assert cmd[k] == task[k - 15 - |repo|];
        }
      }
    } else {
      assert cmd[15] == CamerasJson(ConfigOf(r.cameras));
    }
  }

  /** Recording never adds `--display_data=true` for its cameras: the only display argument is the base one. */
  lemma NoDisplayFlagForCameras(python: string, r: Request)
    ensures Plain("--display_data=true") !in Command(python, r)[15..]
  {
    var cmd := Command(python, r);
    var cams := CameraArgs(r.cameras, false);
    var repo := OptionalArg("--dataset.repo_id=", r.repoId);
    var task := OptionalArg("--dataset.single_task=", r.singleTask);
    assert cmd[15..] == cams + repo + task;
    var bad := "--display_data=true";
    assert bad[3] == 'i';
    assert Plain(bad) !in cams;
    OptionalArgLacks("--dataset.repo_id=", r.repoId, bad);
    OptionalArgLacks("--dataset.single_task=", r.singleTask, bad);
  }

  /** An optional argument never equals a text that differs from its flag at the fourth character. */
  lemma OptionalArgLacks(flag: string, o: Option<string>, t: string)
    requires |flag| > 3 && |t| > 3 && flag[3] != t[3]
    ensures Plain(t) !in OptionalArg(flag, o)
  {
    if Truthy(o) {
      assert (flag + o.value)[3] == flag[3];
    }
  }

  function StartMessage(robotId: string, teleopId: string): string {
    "Dataset recording started for robot " + robotId + " and teleop " + teleopId
  }

  class RecordingService {
    const reg: Registry

    ghost predicate Valid()
      reads this, reg
    {
      reg.Valid()
    }

    constructor()
      ensures Valid() && fresh(reg)
      ensures reg.sessions == map[] && reg.queues == map[] && reg.processes == map[] && reg.cancelled == {}
    {
      reg := new Registry();
    }

    /**
      `start_dataset_recording`: a running session with the same id is stopped
      first, the session is opened afresh and the command built; a successful
      spawn records the process and posts the start message, a failed one
      raises (result None) and leaves the fresh session without a process.
     */
    method Start(python: string, r: Request, now: int, spawnOk: bool)
      returns (result: Option<string>, command: seq<Arg>)
      requires Valid()
      modifies reg
      ensures Valid()
      ensures command == Command(python, r)
      ensures spawnOk <==> result == Some(SessionId(r.robotId, r.teleopId, now))
      ensures !spawnOk <==> result == None
      ensures var id := SessionId(r.robotId, r.teleopId, now);
        var log := if spawnOk then [StartMessage(r.robotId, r.teleopId)] else [];
        && reg.sessions == old(reg.sessions)[id := Session(Starting, false, log)]
        && reg.queues == old(reg.queues)[id := log]
        && reg.processes == (if spawnOk then old(reg.processes)[id := Alive] else old(reg.processes) - {id})
        && reg.cancelled == old(reg.cancelled) - {id}
    {
      var id := SessionId(r.robotId, r.teleopId, now);
      command := Command(python, r);
      var _ := reg.Launch(id, StartMessage(r.robotId, r.teleopId), spawnOk);
      result := if spawnOk then Some(id) else None;
    }

    /** First step of the monitor: mark the session running, or report the missing process and fail the session. */
    method BeginMonitor(id: string) returns (goesOn: bool)
      requires Valid()
      modifies reg
      ensures Valid()
      ensures goesOn <==> id in old(reg.processes)
      ensures goesOn ==> reg.sessions == old(reg.sessions)[id := old(reg.sessions[id]).(status := Running)]
                         && reg.queues == old(reg.queues)
      ensures !goesOn && id in old(reg.sessions) ==>
        var m := Activity + " monitoring error: " + KeyErrorText(id);
        && reg.queues == old(reg.queues)[id := old(reg.queues[id]) + [m]]
        && reg.sessions == old(reg.sessions)[id := old(reg.sessions[id]).(status := Failed, output := old(reg.sessions[id]).output + [m])]
      ensures !goesOn && id !in old(reg.sessions) ==> reg.sessions == old(reg.sessions) && reg.queues == old(reg.queues)
      ensures reg.processes == old(reg.processes) && reg.cancelled == old(reg.cancelled)
    {
      goesOn := reg.BeginMonitor(id, Activity, true);
    }

    /**
      One chunk read from the terminal: each of its lines is stripped, the
      empty ones dropped, the rest cleaned of escape sequences and posted in
      order unless nothing remains.
     */
    method HandleChunk(id: string, text: string)
      requires Valid()
      modifies reg
      ensures Valid()
      ensures var msgs := CleanedMessages(ChunkLines(text));
        && (id in old(reg.queues) ==> reg.queues == old(reg.queues)[id := old(reg.queues[id]) + msgs])
        && (id !in old(reg.queues) ==> reg.queues == old(reg.queues))
        && (id in old(reg.sessions) ==>
              reg.sessions == old(reg.sessions)[id := old(reg.sessions[id]).(output := old(reg.sessions[id]).output + msgs)])
        && (id !in old(reg.sessions) ==> reg.sessions == old(reg.sessions))
      ensures reg.processes == old(reg.processes) && reg.cancelled == old(reg.cancelled)
    {
      reg.PostAll(id, CleanedMessages(ChunkLines(text)));
    }

    /** Last step of the monitor once the process ended with `poll`. */
    method Finish(id: string, poll: ProcessState)
      requires Valid()
      modifies reg
      ensures Valid()
      ensures var rep := ResolveEnd(Activity, poll, id in old(reg.cancelled));
        && (id in old(reg.queues) ==> reg.queues == old(reg.queues)[id := old(reg.queues[id]) + [rep.message]])
        && (id !in old(reg.queues) ==> reg.queues == old(reg.queues))
        && (id in old(reg.sessions) ==>
              reg.sessions == old(reg.sessions)[id := Session(
                if rep.newStatus.Some? then rep.newStatus.value else old(reg.sessions[id]).status,
                old(reg.sessions[id]).waiting,
                old(reg.sessions[id]).output + [rep.message])])
        && (id !in old(reg.sessions) ==> reg.sessions == old(reg.sessions))
      ensures reg.processes == old(reg.processes) && reg.cancelled == old(reg.cancelled)
    {
      reg.Finish(id, Activity, poll);
    }

    /** `stop_dataset_recording`: an id without a process is refused; otherwise it is cancelled and removed from every map. */
    method Stop(id: string) returns (ok: bool)
      requires Valid()
      modifies reg
      ensures Valid()
      ensures ok <==> id in old(reg.processes)
      ensures !ok ==> reg.sessions == old(reg.sessions) && reg.queues == old(reg.queues)
                      && reg.processes == old(reg.processes) && reg.cancelled == old(reg.cancelled)
      ensures ok ==> reg.cancelled == old(reg.cancelled) + {id}
                     && reg.processes == old(reg.processes) - {id}
                     && reg.queues == old(reg.queues) - {id}
                     && reg.sessions == old(reg.sessions) - {id}
    {
      ok := reg.Remove(id);
    }

    /** `get_all_output`: the queued messages in FIFO order; the queue is left empty. */
    method GetAllOutput(id: string) returns (outs: seq<string>)
      requires Valid()
      modifies reg
      ensures Valid()
      ensures id in old(reg.queues) ==> outs == old(reg.queues[id]) && reg.queues == old(reg.queues)[id := []]
      ensures id !in old(reg.queues) ==> outs == [] && reg.queues == old(reg.queues)
      ensures reg.sessions == old(reg.sessions) && reg.processes == old(reg.processes) && reg.cancelled == old(reg.cancelled)
    {
      outs := reg.Drain(id);
    }

    /** `is_running`. */
    method IsRunning(id: string) returns (b: bool)
      ensures b <==> id in reg.sessions && IsActiveStatus(reg.sessions[id].status)
    {
      b := reg.IsActive(id);
    }
  }
}
