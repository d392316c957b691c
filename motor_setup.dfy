/**
  The motor-setup service: it runs `lerobot.setup_motors` for one arm in a
  pseudo-terminal, posts every chunk the program writes as it is, notices when
  the program asks for Enter, forwards the user's input, and reports how the
  program ended.
 */
module MotorSetup {
  import opened Text
  import opened Sessions

  /** The word used in every message of the service. */
  const Activity := "Motor setup"

  /** The session id: robot type, port with every '/' turned into '_', and the start time in seconds. */
  function SessionId(robotType: string, port: string, now: int): (id: string)
    ensures |id| == |robotType| + |port| + 2 + |IntToString(now)|
    ensures id[..|robotType|] == robotType
    ensures forall k :: |robotType| < k <= |robotType| + |port| ==> id[k] != '/'
  {
    robotType + "_" + ReplaceChar(port, '/', '_') + "_" + IntToString(now)
  }

  /** Sessions of the same arm started at different seconds have different ids. */
  lemma SessionIdDistinct(robotType: string, port: string, a: int, b: int)
    requires a != b
    ensures SessionId(robotType, port, a) != SessionId(robotType, port, b)
  {
    var p := robotType + "_" + ReplaceChar(port, '/', '_') + "_";
    assert SessionId(robotType, port, a)[|p|..] == IntToString(a);
    assert SessionId(robotType, port, b)[|p|..] == IntToString(b);
    IntToStringInjective(a, b);
  }

  function StartMessage(robotType: string, port: string): string {
    "Motor setup started for " + robotType + " on port " + port
  }

  /** The phrases that mean the program waits for Enter, looked for in the lower-cased chunk. */
  predicate AsksForEnter(lower: string) {
    Contains(lower, "press enter") || Contains(lower, "hit enter")
    || Contains(lower, "press <enter>") || Contains(lower, "press return")
  }

  /**
    The prompt is recognised whatever its letter case: a chunk holding any
    casing of one of the phrases sets the flag.
   */
  lemma AsksForEnterAnyCase(chunk: string, phrase: string)
    requires Contains(chunk, phrase)
    requires Lower(phrase) in Phrases
    ensures AsksForEnter(Lower(chunk))
  {
    LowerKeepsOccurrence(chunk, phrase);
  }

  /** The phrases, as `AsksForEnter` looks for them. */
  const Phrases: seq<string> := ["press enter", "hit enter", "press <enter>", "press return"]

  /** A phrase found in the lower-cased chunk is the lower-casing of a piece of the chunk. */
  lemma PieceOfLowered(chunk: string, t: string) returns (i: int)
    requires Contains(Lower(chunk), t)
    ensures 0 <= i <= i + |t| <= |chunk| && Lower(chunk[i..i + |t|]) == t
  {
    i := ContainsOccurs(Lower(chunk), t);
    assert Lower(chunk)[i..i + |t|] == Lower(chunk[i..i + |t|]);
  }

  /**
    Conversely, the flag is only set when some piece of the chunk is one of the
    phrases in some casing.
   */
  lemma PromptHasPhrase(chunk: string) returns (i: int, j: int)
    requires AsksForEnter(Lower(chunk))
    ensures 0 <= i <= j <= |chunk| && Lower(chunk[i..j]) in Phrases
  {
    var t := if Contains(Lower(chunk), "press enter") then "press enter"
      else if Contains(Lower(chunk), "hit enter") then "hit enter"
      else if Contains(Lower(chunk), "press <enter>") then "press <enter>"
      else "press return";
    i := PieceOfLowered(chunk, t);
    j := i + |t|;
  }

  class MotorSetupService {
    const reg: Registry

    ghost predicate Valid()
      reads this, reg
    {
      reg.Valid()
    }

    constructor()
      ensures Valid() && fresh(reg)
      ensures reg.sessions == map[] && reg.queues == map[] && reg.processes == map[] && reg.cancelled == {}
    {
      reg := new Registry();
    }

    /**
      `start_motor_setup`: the id is built from the arm and the clock; a running
      session with that id is stopped first; the session is opened afresh and
      the command built. A successful spawn records the process and posts the
      start message; a failed one raises (result None) and leaves the fresh
      session without a process.
     */
    method Start(python: string, robotType: string, port: string, now: int, spawnOk: bool)
      returns (result: Option<string>, command: seq<string>)
      requires Valid()
      modifies reg
      ensures Valid()
      ensures command == [python, "-u", "-m", "lerobot.setup_motors", "--robot.type=" + robotType, "--robot.port=" + port]
      ensures spawnOk <==> result == Some(SessionId(robotType, port, now))
      ensures !spawnOk <==> result == None
      ensures var id := SessionId(robotType, port, now);
        var log := if spawnOk then [StartMessage(robotType, port)] else [];
        && reg.sessions == old(reg.sessions)[id := Session(Starting, false, log)]
        && reg.queues == old(reg.queues)[id := log]
        && reg.processes == (if spawnOk then old(reg.processes)[id := Alive] else old(reg.processes) - {id})
        && reg.cancelled == old(reg.cancelled) - {id}
    {
      var id := SessionId(robotType, port, now);
      command := [python, "-u", "-m", "lerobot.setup_motors", "--robot.type=" + robotType, "--robot.port=" + port];
      var _ := reg.Launch(id, StartMessage(robotType, port), spawnOk);
      result := if spawnOk then Some(id) else None;
    }

    /** First step of the monitor: look the process up and mark the session running; a missing process ends the monitor silently. */
    method BeginMonitor(id: string) returns (goesOn: bool)
      requires Valid()
      modifies reg
      ensures Valid()
      ensures goesOn <==> id in old(reg.processes)
      ensures goesOn ==> reg.sessions == old(reg.sessions)[id := old(reg.sessions[id]).(status := Running)]
      ensures !goesOn ==> reg.sessions == old(reg.sessions)
      ensures reg.queues == old(reg.queues) && reg.processes == old(reg.processes) && reg.cancelled == old(reg.cancelled)
    {
      goesOn := reg.BeginMonitor(id, Activity, false);
    }

    /**
      One chunk read from the terminal. A non-empty chunk is posted unchanged;
      when its lower-cased text asks for Enter the session is marked waiting
      for input, and if the session is gone by then the lookup raises and the
      monitor ends (goesOn false).
     */
    method HandleChunk(id: string, chunk: string) returns (goesOn: bool)
      requires Valid()
      modifies reg
      ensures Valid()
      ensures chunk == [] ==> goesOn && reg.sessions == old(reg.sessions) && reg.queues == old(reg.queues)
      ensures chunk != [] && id in old(reg.queues) ==> reg.queues == old(reg.queues)[id := old(reg.queues[id]) + [chunk]]
      ensures chunk != [] && id !in old(reg.queues) ==> reg.queues == old(reg.queues)
      ensures chunk != [] && id in old(reg.sessions) ==>
        goesOn && reg.sessions == old(reg.sessions)[id := Session(
          old(reg.sessions[id]).status,
          old(reg.sessions[id]).waiting || AsksForEnter(Lower(chunk)),
          old(reg.sessions[id]).output + [chunk])]
      ensures chunk != [] && id !in old(reg.sessions) ==>
        reg.sessions == old(reg.sessions) && (goesOn <==> !AsksForEnter(Lower(chunk)))
      ensures reg.processes == old(reg.processes) && reg.cancelled == old(reg.cancelled)
    {
      goesOn := true;
      if chunk == [] {
        return;
      }
      var asks := AsksForEnter(Lower(chunk));
      reg.Post(id, chunk);
      if asks {
        if id in reg.sessions {
          reg.SetWaiting(id, true);
        } else {
          goesOn := false;
        }
      }
    }

    /** Last step of the monitor once the process ended (`poll` is Alive when reading the terminal failed first). */
    method Finish(id: string, poll: ProcessState)
      requires Valid()
      modifies reg
      ensures Valid()
      ensures var rep := ResolveEnd(Activity, poll, id in old(reg.cancelled));
        && (id in old(reg.queues) ==> reg.queues == old(reg.queues)[id := old(reg.queues[id]) + [rep.message]])
        && (id !in old(reg.queues) ==> reg.queues == old(reg.queues))
        && (id in old(reg.sessions) ==>
              reg.sessions == old(reg.sessions)[id := Session(
                if rep.newStatus.Some? then rep.newStatus.value else old(reg.sessions[id]).status,
                old(reg.sessions[id]).waiting,
                old(reg.sessions[id]).output + [rep.message])])
        && (id !in old(reg.sessions) ==> reg.sessions == old(reg.sessions))
      ensures reg.processes == old(reg.processes) && reg.cancelled == old(reg.cancelled)
    {
      reg.Finish(id, Activity, poll);
    }

    /**
      `send_input`: refused (false) for an id without a process, for a process
      that has exited, and when writing to the terminal fails; otherwise the
      session no longer waits for input.
     */
    method SendInput(id: string, writeOk: bool) returns (ok: bool)
      requires Valid()
      modifies reg
      ensures Valid()
      ensures ok <==> id in old(reg.processes) && old(reg.processes[id]) == Alive && writeOk
      ensures ok ==> reg.sessions == old(reg.sessions)[id := old(reg.sessions[id]).(waiting := false)]
      ensures !ok ==> reg.sessions == old(reg.sessions)
      ensures reg.queues == old(reg.queues) && reg.processes == old(reg.processes) && reg.cancelled == old(reg.cancelled)
    {
      if id !in reg.processes || reg.processes[id] != Alive || !writeOk {
        return false;
      }
      reg.SetWaiting(id, false);
      ok := true;
    }

    /** `stop_motor_setup`: an id without a process is refused; otherwise it is cancelled and removed from every map. */
    method Stop(id: string) returns (ok: bool)
      requires Valid()
      modifies reg
      ensures Valid()
      ensures ok <==> id in old(reg.processes)
      ensures !ok ==> reg.sessions == old(reg.sessions) && reg.queues == old(reg.queues)
                      && reg.processes == old(reg.processes) && reg.cancelled == old(reg.cancelled)
      ensures ok ==> reg.cancelled == old(reg.cancelled) + {id}
                     && reg.processes == old(reg.processes) - {id}
                     && reg.queues == old(reg.queues) - {id}
                     && reg.sessions == old(reg.sessions) - {id}
    {
      ok := reg.Remove(id);
    }

    /** `get_all_output`: every queued chunk and message in FIFO order; the queue is left empty. */
    method GetAllOutput(id: string) returns (outs: seq<string>)
      requires Valid()
      modifies reg
      ensures Valid()
      ensures id in old(reg.queues) ==> outs == old(reg.queues[id]) && reg.queues == old(reg.queues)[id := []]
      ensures id !in old(reg.queues) ==> outs == [] && reg.queues == old(reg.queues)
      ensures reg.sessions == old(reg.sessions) && reg.processes == old(reg.processes) && reg.cancelled == old(reg.cancelled)
    {
      outs := reg.Drain(id);
    }

    /** `is_running`. */
    method IsRunning(id: string) returns (b: bool)
      ensures b <==> id in reg.sessions && IsActiveStatus(reg.sessions[id].status)
    {
      b := reg.IsActive(id);
    }

    /** `is_waiting_for_input`. */
    method IsWaitingForInput(id: string) returns (b: bool)
      ensures b <==> id in reg.sessions && reg.sessions[id].waiting
    {
      b := reg.IsWaiting(id);
    }
  }

  /**
    A prompt and its answer: after a chunk asking for Enter the session waits
    for input, and once the input is written it no longer does.
   */
  method PromptThenAnswer(s: MotorSetupService, id: string, chunk: string)
    requires s.Valid() && id in s.reg.processes && s.reg.processes[id] == Alive
    requires chunk != [] && AsksForEnter(Lower(chunk))
    modifies s.reg
    ensures s.Valid()
    ensures id in s.reg.sessions && !s.reg.sessions[id].waiting
  {
    var goesOn := s.HandleChunk(id, chunk);
    assert id in s.reg.sessions && s.reg.sessions[id].waiting;
    var ok := s.SendInput(id, true);
    assert ok;
  }
}
