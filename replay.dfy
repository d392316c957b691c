/**
  The dataset-replay service: it runs `lerobot.replay` for one episode of a
  dataset on one arm, posts every line the program writes with its escape
  sequences removed, and reports how the program ended.
 */
module Replay {
  import opened Text
  import opened Ansi
  import opened Sessions

  /** The word used in every message of the service. */
  const Activity := "Dataset replay"

  /** The session id: robot id, "replay" and the start time in seconds. */
  function SessionId(robotId: string, now: int): string {
    robotId + "_replay_" + IntToString(now)
  }

  /** Replays on the same arm started at different seconds have different ids. */
  lemma SessionIdDistinct(robotId: string, a: int, b: int)
    requires a != b
    ensures SessionId(robotId, a) != SessionId(robotId, b)
  {
    var p := robotId + "_replay_";
    assert SessionId(robotId, a)[|p|..] == IntToString(a);
    assert SessionId(robotId, b)[|p|..] == IntToString(b);
    IntToStringInjective(a, b);
  }

  /** The command: the module, then type, port, id, repository and episode, in that order. */
  function Command(python: string, robotType: string, robotPort: string, robotId: string,
                   repoId: string, episode: int): seq<string>
  {
    [python, "-m", "lerobot.replay",
     "--robot.type=" + robotType, "--robot.port=" + robotPort, "--robot.id=" + robotId,
     "--dataset.repo_id=" + repoId, "--dataset.episode=" + IntToString(episode)]
  }

  /**
    The episode argument tells episodes apart: replays of different episodes
    run different commands, and nothing else of the command depends on the
    episode.
   */
  lemma CommandEpisode(python: string, robotType: string, robotPort: string, robotId: string,
                       repoId: string, a: int, b: int)
    ensures var ca := Command(python, robotType, robotPort, robotId, repoId, a);
      var cb := Command(python, robotType, robotPort, robotId, repoId, b);
      && |ca| == |cb| == 8
      && ca[..7] == cb[..7]
      && (ca == cb <==> a == b)
  {
    var ca := Command(python, robotType, robotPort, robotId, repoId, a);
    var cb := Command(python, robotType, robotPort, robotId, repoId, b);
    if a != b {
      IntToStringInjective(a, b);
      var f := "--dataset.episode=";
      assert ca[7][|f|..] == IntToString(a);
      assert cb[7][|f|..] == IntToString(b);
    }
  }

  function StartMessage(robotId: string, repoId: string): string {
    "Dataset replay started for robot " + robotId + " with dataset " + repoId
  }

  /**
    `_clean_ansi_codes` on what the replay program prints: colour codes around
    the text are removed, and text without escape sequences is kept as it is.
   */
  lemma CleanReplayLine(c1: string, a: string, c2: string, b: string)
    requires forall k :: 0 <= k < |c1| ==> '0' <= c1[k] <= '9' || c1[k] == ';'
    requires forall k :: 0 <= k < |c2| ==> '0' <= c2[k] <= '9' || c2[k] == ';'
    requires ESC !in a && ESC !in b
    ensures StripEscapes(Sgr(c1) + a + Sgr(c2) + b) == a + b
    ensures StripEscapes(a + b) == a + b
  {
    StripEscapesColoured(c1, a, c2, b);
  }

  class ReplayService {
    const reg: Registry

    ghost predicate Valid()
      reads this, reg
    {
      reg.Valid()
    }

    constructor()
      ensures Valid() && fresh(reg)
      ensures reg.sessions == map[] && reg.queues == map[] && reg.processes == map[] && reg.cancelled == {}
    {
      reg := new Registry();
    }

    /**
      `start_dataset_replay`: a running session with the same id is stopped
      first, the session is opened afresh and the command built; a successful
      spawn records the process and posts the start message, a failed one
      raises (result None) and leaves the fresh session without a process.
     */
    method Start(python: string, robotType: string, robotPort: string, robotId: string,
                 repoId: string, episode: int, now: int, spawnOk: bool)
      returns (result: Option<string>, command: seq<string>)
      requires Valid()
      modifies reg
      ensures Valid()
      ensures command == Command(python, robotType, robotPort, robotId, repoId, episode)
      ensures spawnOk <==> result == Some(SessionId(robotId, now))
      ensures !spawnOk <==> result == None
      ensures var id := SessionId(robotId, now);
        var log := if spawnOk then [StartMessage(robotId, repoId)] else [];
        && reg.sessions == old(reg.sessions)[id := Session(Starting, false, log)]
        && reg.queues == old(reg.queues)[id := log]
        && reg.processes == (if spawnOk then old(reg.processes)[id := Alive] else old(reg.processes) - {id})
        && reg.cancelled == old(reg.cancelled) - {id}
    {
      var id := SessionId(robotId, now);
      command := Command(python, robotType, robotPort, robotId, repoId, episode);
      var _ := reg.Launch(id, StartMessage(robotId, repoId), spawnOk);
      result := if spawnOk then Some(id) else None;
    }

    /** First step of the monitor: mark the session running, or report the missing process and fail the session. */
    method BeginMonitor(id: string) returns (goesOn: bool)
      requires Valid()
      modifies reg
      ensures Valid()
      ensures goesOn <==> id in old(reg.processes)
      ensures goesOn ==> reg.sessions == old(reg.sessions)[id := old(reg.sessions[id]).(status := Running)]
                         && reg.queues == old(reg.queues)
      ensures !goesOn && id in old(reg.sessions) ==>
        var m := Activity + " monitoring error: " + KeyErrorText(id);
        && reg.queues == old(reg.queues)[id := old(reg.queues[id]) + [m]]
        && reg.sessions == old(reg.sessions)[id := old(reg.sessions[id]).(status := Failed, output := old(reg.sessions[id]).output + [m])]
      ensures !goesOn && id !in old(reg.sessions) ==> reg.sessions == old(reg.sessions) && reg.queues == old(reg.queues)
      ensures reg.processes == old(reg.processes) && reg.cancelled == old(reg.cancelled)
    {
      goesOn := reg.BeginMonitor(id, Activity, true);
    }

    /** One chunk read from the terminal: its non-empty stripped lines, cleaned, posted in order unless nothing remains. */
    method HandleChunk(id: string, text: string)
      requires Valid()
      modifies reg
      ensures Valid()
      ensures var msgs := CleanedMessages(ChunkLines(text));
        && (id in old(reg.queues) ==> reg.queues == old(reg.queues)[id := old(reg.queues[id]) + msgs])
        && (id !in old(reg.queues) ==> reg.queues == old(reg.queues))
        && (id in old(reg.sessions) ==>
              reg.sessions == old(reg.sessions)[id := old(reg.sessions[id]).(output := old(reg.sessions[id]).output + msgs)])
        && (id !in old(reg.sessions) ==> reg.sessions == old(reg.sessions))
      ensures reg.processes == old(reg.processes) && reg.cancelled == old(reg.cancelled)
    {
      reg.PostAll(id, CleanedMessages(ChunkLines(text)));
    }

    /** Last step of the monitor once the process ended with `poll`. */
    method Finish(id: string, poll: ProcessState)
      requires Valid()
      modifies reg
      ensures Valid()
      ensures var rep := ResolveEnd(Activity, poll, id in old(reg.cancelled));
        && (id in old(reg.queues) ==> reg.queues == old(reg.queues)[id := old(reg.queues[id]) + [rep.message]])
        && (id !in old(reg.queues) ==> reg.queues == old(reg.queues))
        && (id in old(reg.sessions) ==>
              reg.sessions == old(reg.sessions)[id := Session(
                if rep.newStatus.Some? then rep.newStatus.value else old(reg.sessions[id]).status,
                old(reg.sessions[id]).waiting,
                old(reg.sessions[id]).output + [rep.message])])
        && (id !in old(reg.sessions) ==> reg.sessions == old(reg.sessions))
      ensures reg.processes == old(reg.processes) && reg.cancelled == old(reg.cancelled)
    {
      reg.Finish(id, Activity, poll);
    }

    /** `stop_dataset_replay`: an id without a process is refused; otherwise it is cancelled and removed from every map. */
    method Stop(id: string) returns (ok: bool)
      requires Valid()
      modifies reg
      ensures Valid()
      ensures ok <==> id in old(reg.processes)
      ensures !ok ==> reg.sessions == old(reg.sessions) && reg.queues == old(reg.queues)
                      && reg.processes == old(reg.processes) && reg.cancelled == old(reg.cancelled)
      ensures ok ==> reg.cancelled == old(reg.cancelled) + {id}
                     && reg.processes == old(reg.processes) - {id}
                     && reg.queues == old(reg.queues) - {id}
                     && reg.sessions == old(reg.sessions) - {id}
    {
      ok := reg.Remove(id);
    }

    /** `get_all_output`: the queued messages in FIFO order; the queue is left empty. */
    method GetAllOutput(id: string) returns (outs: seq<string>)
      requires Valid()
      modifies reg
      ensures Valid()
      ensures id in old(reg.queues) ==> outs == old(reg.queues[id]) && reg.queues == old(reg.queues)[id := []]
      ensures id !in old(reg.queues) ==> outs == [] && reg.queues == old(reg.queues)
      ensures reg.sessions == old(reg.sessions) && reg.processes == old(reg.processes) && reg.cancelled == old(reg.cancelled)
    {
      outs := reg.Drain(id);
    }

    /** `is_running`. */
    method IsRunning(id: string) returns (b: bool)
      ensures b <==> id in reg.sessions && IsActiveStatus(reg.sessions[id].status)
    {
      b := reg.IsActive(id);
    }
  }
}
