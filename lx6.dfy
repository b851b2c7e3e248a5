/**
 * The Quectel L86 driver instance: its scratch buffers, match callback
 * slot, response slot, lock, pipe and chat state and power-management
 * deadline, and the operations of the GNSS and power-management APIs that
 * change them step by step.
 */
module Lx6 {
  import opened Pmtk
  import opened Chat
  import opened Transactions

  class Device {
    /** CONFIG_GNSS_SATELLITES: whether the resume script also selects satellite sentences. */
    const satellites: bool
    /** The devicetree `pps-mode` and `pps-pulse-width` of the instance. */
    const ppsMode: PpsMode
    const ppsPulseWidth: Uint16

    var requestBuf: Buf
    var matchBuf: Buf
    var callback: Slot
    var enabledSystemsResponse: Systems
    /** Whether the per-device semaphore is held. */
    var locked: bool
    var pipeOpen: bool
    var chatAttached: bool
    /** The absolute uptime in milliseconds before which the module is not ready again. */
    var pmReadyAt: nat
    /** Lock, sleep and collaborator events, in order. */
    ghost var trace: seq<Event>

    /** Between operations no callback is installed and the response slot holds only reportable systems. */
    ghost predicate Valid()
      reads this
    {
      callback == NoCallback && enabledSystemsResponse & !ReportableSystems == 0
    }

    function View(): (s: Session)
      reads this
    {
      Session(requestBuf, matchBuf, callback, enabledSystemsResponse, pipeOpen, chatAttached)
    }

    /** The state reached from `start` and `log` by the calls `done`. */
    ghost predicate After(start: Session, log: seq<Event>, done: seq<Call>, env: Env)
      reads this
    {
      View() == ApplyAll(start, done, env) && trace == log + Invocations(done)
    }

    /** An early-exit chain ran from `start` and `log`: the calls it made, and the code it returned. */
    ghost predicate Chained(start: Session, log: seq<Event>, steps: seq<Call>, env: Env, ret: int)
      reads this
    {
      ret == Outcome(steps, env) && After(start, log, Prefix(steps, env), env)
    }

    /** A chain run under the lock: taken once before the first call and given back once after the last. */
    ghost predicate UnderLock(start: Session, log: seq<Event>, calls: seq<Call>, env: Env)
      reads this
    {
      View() == ApplyAll(start, calls, env) && trace == log + [Take] + Invocations(calls) + [Give]
    }

    /** A zero-initialised instance: empty buffers, lock free, pipe closed. */
    constructor (satellites: bool, ppsMode: PpsMode, ppsPulseWidth: Uint16)
      ensures Valid() && !locked && !pipeOpen && !chatAttached
      ensures requestBuf == Zeroed && matchBuf == Zeroed && enabledSystemsResponse == 0 && pmReadyAt == 0
      ensures this.satellites == satellites && this.ppsMode == ppsMode && this.ppsPulseWidth == ppsPulseWidth
      ensures trace == []
    {
      this.satellites := satellites;
      this.ppsMode := ppsMode;
      this.ppsPulseWidth := ppsPulseWidth;
      requestBuf, matchBuf := Zeroed, Zeroed;
      callback := NoCallback;
      enabledSystemsResponse := 0;
      locked, pipeOpen, chatAttached := false, false, false;
      pmReadyAt := 0;
      trace := [];
    }

    // ------------------------------------------------------------ lock and deadline

    method Lock()
      requires !locked
      modifies this`locked, this`trace
      ensures locked && trace == old(trace) + [Take]
    {
      locked := true;
      trace := trace + [Take];
    }

    method Unlock()
      requires locked
      modifies this`locked, this`trace
      ensures !locked && trace == old(trace) + [Give]
    {
      locked := false;
      trace := trace + [Give];
    }

    /** Stamps the deadline 500 ms after the given uptime. */
    method PmChanged(uptimeMs: nat)
      modifies this`pmReadyAt
      ensures pmReadyAt == ReadyAt(uptimeMs) && pmReadyAt > uptimeMs
    {
      pmReadyAt := uptimeMs + PmTimeoutMs;
    }

    /** Sleeps until the stamped deadline. */
    method AwaitPmReady()
      modifies this`trace
      ensures trace == old(trace) + [AwaitReady(pmReadyAt)]
    {
      trace := trace + [AwaitReady(pmReadyAt)];
    }

    // ------------------------------------------------------------ collaborator calls

    /** The search-mode callback, run by the chat engine on the line that matched. */
    method OnSearchModeReply(argv: seq<string>)
      modifies this`enabledSystemsResponse
      ensures enabledSystemsResponse == SearchModeReply(old(enabledSystemsResponse), argv)
    {
      if |argv| != 8 {
        return;
      }
      enabledSystemsResponse := if SearchModeEnabled(argv[1]) then GPS else 0;
      enabledSystemsResponse := enabledSystemsResponse | if SearchModeEnabled(argv[2]) then GLONASS else 0;
      enabledSystemsResponse := enabledSystemsResponse | if SearchModeEnabled(argv[3]) then GALILEO else 0;
      enabledSystemsResponse := enabledSystemsResponse | if SearchModeEnabled(argv[4]) then BEIDOU else 0;
      enabledSystemsResponse := enabledSystemsResponse | if SearchModeEnabled(argv[5]) then QZSS else 0;
    }

    /** Makes one call; its status comes from `env`, and its effect on the session is `Apply`. */
    method Perform(c: Call, env: Env) returns (ret: int)
      modifies this`requestBuf, this`matchBuf, this`callback, this`enabledSystemsResponse
      modifies this`pipeOpen, this`chatAttached, this`trace
      ensures ret == Status(c, env)
      ensures View() == Apply(old(View()), c, env)
      ensures trace == old(trace) + [Invoke(c)]
    {
      ret := Status(c, env);
      trace := trace + [Invoke(c)];
      if ret < 0 {
        return;
      }
      match c
      case Format(t, body) =>
        if t == RequestBuffer { requestBuf := Formatted(body); } else { matchBuf := Formatted(body); }
      case Copy(t, text) =>
        if t == RequestBuffer { requestBuf := Copied(text); } else { matchBuf := Copied(text); }
      case SetRequest(_) =>
      case SetMatch(_) =>
      case SetCallback(slot) =>
        callback := slot;
      case RunScript(script) =>
        if script.PmtkScript? && callback == SearchModeCallback {
          OnSearchModeReply(env.reply(script));
        }
      case PipeOpen =>
        pipeOpen := true;
      case PipeClose =>
        pipeOpen := false;
      case ChatAttach =>
        chatAttached := true;
    }

    /** `Perform` as the next call of a chain. */
    method Step(c: Call, env: Env, ghost start: Session, ghost log: seq<Event>, ghost done: seq<Call>)
      returns (ret: int)
      requires After(start, log, done, env)
      modifies this`requestBuf, this`matchBuf, this`callback, this`enabledSystemsResponse
      modifies this`pipeOpen, this`chatAttached, this`trace
      ensures ret == Status(c, env)
      ensures View() == Apply(old(View()), c, env)
      ensures After(start, log, done + [c], env)
      ensures !c.Format? && !c.Copy? ==> requestBuf == old(requestBuf) && matchBuf == old(matchBuf)
      ensures ret >= 0 && c.Format? ==> if c.target == RequestBuffer then requestBuf == Formatted(c.body) else matchBuf == Formatted(c.body)
      ensures ret >= 0 && c.Copy? ==> if c.target == RequestBuffer then requestBuf == Copied(c.text) else matchBuf == Copied(c.text)
      ensures !c.SetCallback? ==> callback == old(callback)
    {
      ApplyAllSnoc(start, done, c, env);
      InvocationsSnoc(done, c);
      ret := Perform(c, env);
    }

    // ------------------------------------------------------------ the shared pmtk_script

    /** Formats a request into the request buffer and installs it as the script's request. */
    method InstallRequest(request: string, env: Env) returns (ret: int)
      modifies this`requestBuf, this`matchBuf, this`callback, this`enabledSystemsResponse
      modifies this`pipeOpen, this`chatAttached, this`trace
      ensures Chained(old(View()), old(trace), RequestSetup(request), env, ret)
      ensures ret >= 0 ==> requestBuf == Formatted(request)
      ensures matchBuf == old(matchBuf) && callback == old(callback)
    {
      ghost var s0, t0 := View(), trace;
      ghost var steps := RequestSetup(request);
      ret := Step(Format(RequestBuffer, request), env, s0, t0, []);
      if ret < 0 {
        ChainStopsAt(steps, 0, env);
        return;
      }
      assert [] + [steps[0]] == steps[..1];
      ret := Step(SetRequest(requestBuf), env, s0, t0, steps[..1]);
      assert steps[..1] + [steps[1]] == steps == steps[..2];
      ChainStopsAt(steps, 1, env);
    }

    /** Formats an acknowledgement into the match buffer and installs it as the match. */
    method InstallMatch(ack: string, env: Env) returns (ret: int)
      modifies this`requestBuf, this`matchBuf, this`callback, this`enabledSystemsResponse
      modifies this`pipeOpen, this`chatAttached, this`trace
      ensures Chained(old(View()), old(trace), MatchSetup(ack), env, ret)
      ensures ret >= 0 ==> matchBuf == Formatted(ack)
      ensures requestBuf == old(requestBuf)
    {
      ghost var s0, t0 := View(), trace;
      ghost var steps := MatchSetup(ack);
      ret := Step(Format(MatchBuffer, ack), env, s0, t0, []);
      if ret < 0 {
        ChainStopsAt(steps, 0, env);
        return;
      }
      assert [] + [steps[0]] == steps[..1];
      ret := Step(SetMatch(matchBuf), env, s0, t0, steps[..1]);
      assert steps[..1] + [steps[1]] == steps == steps[..2];
      ChainStopsAt(steps, 1, env);
    }

    /** Formats and installs a request and its expected acknowledgement. */
    method InstallCommand(request: string, ack: string, env: Env) returns (ret: int)
      modifies this`requestBuf, this`matchBuf, this`callback, this`enabledSystemsResponse
      modifies this`pipeOpen, this`chatAttached, this`trace
      ensures Chained(old(View()), old(trace), CommandSetup(request, ack), env, ret)
      ensures ret >= 0 ==> requestBuf == Formatted(request) && matchBuf == Formatted(ack)
    {
      ghost var s0, t0 := View(), trace;
      ghost var first, second := RequestSetup(request), MatchSetup(ack);
      ret := InstallRequest(request, env);
      if ret < 0 {
        ChainConcat(first, second, env);
        return;
      }
      OutcomeNegative(first, env);
      ChainThen(s0, t0, first, second, env);
      ret := InstallMatch(ack, env);
    }

    /** Formats and installs a request and its expected acknowledgement, then runs the script. */
    method SendCommand(request: string, ack: string, env: Env) returns (ret: int)
      modifies this`requestBuf, this`matchBuf, this`callback, this`enabledSystemsResponse
      modifies this`pipeOpen, this`chatAttached, this`trace
      ensures Chained(old(View()), old(trace), CommandSteps(request, ack), env, ret)
    {
      ghost var s0, t0 := View(), trace;
      ghost var setup, run := CommandSetup(request, ack), [PmtkRun(request, ack)];
      ret := InstallCommand(request, ack, env);
      if ret < 0 {
        ChainConcat(setup, run, env);
        return;
      }
      OutcomeNegative(setup, env);
      ChainThen(s0, t0, setup, run, env);
      ret := Step(RunScript(PmtkScript(requestBuf, matchBuf)), env, s0, t0, setup);
      ChainStopsAt(run, 0, env);
      assert run[..1] == run;
    }

    /** Formats and installs the PPS configuration of the instance and runs it. */
    method ConfigurePps(env: Env) returns (ret: int)
      modifies this`requestBuf, this`matchBuf, this`callback, this`enabledSystemsResponse
      modifies this`pipeOpen, this`chatAttached, this`trace
      ensures Chained(old(View()), old(trace), CommandSteps(PpsRequest(ppsMode, ppsPulseWidth), PpsAck()), env, ret)
    {
      ret := SendCommand(PpsRequest(ppsMode, ppsPulseWidth), PpsAck(), env);
    }

    /** Runs a command between taking and giving back the lock. */
    method LockedCommand(request: string, ack: string, env: Env) returns (ret: int)
      requires Valid() && !locked
      modifies this`requestBuf, this`matchBuf, this`callback, this`enabledSystemsResponse
      modifies this`pipeOpen, this`chatAttached, this`trace, this`locked
      ensures Valid() && !locked
      ensures ret == Outcome(CommandSteps(request, ack), env)
      ensures UnderLock(old(View()), old(trace), Prefix(CommandSteps(request, ack), env), env)
    {
      Lock();
      ghost var s0 := View();
      ret := SendCommand(request, ack, env);
      CommandFrame(request, ack, s0, env);
      Unlock();
    }

    // ------------------------------------------------------------ GNSS API

    /** Rejects an interval outside 200..1000 ms before locking; otherwise sends PMTK220. */
    method SetFixRate(fixIntervalMs: Uint32, env: Env) returns (ret: int)
      requires Valid() && !locked
      modifies this`requestBuf, this`matchBuf, this`callback, this`enabledSystemsResponse
      modifies this`pipeOpen, this`chatAttached, this`trace, this`locked
      ensures Valid() && !locked
      ensures !ValidFixInterval(fixIntervalMs) ==> ret == -EINVAL && View() == old(View()) && trace == old(trace)
      ensures ValidFixInterval(fixIntervalMs) ==>
        var steps := CommandSteps(FixRateRequest(fixIntervalMs), FixRateAck(fixIntervalMs));
        ret == Outcome(steps, env) && UnderLock(old(View()), old(trace), Prefix(steps, env), env)
    {
      if fixIntervalMs < 200 || fixIntervalMs > 1000 {
        return -EINVAL;
      }
      ret := LockedCommand(FixRateRequest(fixIntervalMs), FixRateAck(fixIntervalMs), env);
    }

    /** Not supported by the module's protocol. */
    method GetFixRate() returns (ret: int, fixIntervalMs: Option<Uint32>)
      ensures ret == -ENOTSUP && fixIntervalMs == None
    {
      return -ENOTSUP, None;
    }

    /** Sends PMTK886 with the mode's code, expecting the acknowledgement as the driver spells it. */
    method SetNavigationMode(mode: NavigationMode, env: Env) returns (ret: int)
      requires Valid() && !locked
      modifies this`requestBuf, this`matchBuf, this`callback, this`enabledSystemsResponse
      modifies this`pipeOpen, this`chatAttached, this`trace, this`locked
      ensures Valid() && !locked
      ensures var steps := CommandSteps(NavModeRequest(mode), NavModeAck(mode));
        ret == Outcome(steps, env) && UnderLock(old(View()), old(trace), Prefix(steps, env), env)
    {
      ret := LockedCommand(NavModeRequest(mode), NavModeAck(mode), env);
    }

    /** Not supported by the module's protocol. */
    method GetNavigationMode() returns (ret: int, mode: Option<NavigationMode>)
      ensures ret == -ENOTSUP && mode == None
    {
      return -ENOTSUP, None;
    }

    /** Two commands in a row; the second is sent only when the first succeeded. */
    method SendCommands(request1: string, ack1: string, request2: string, ack2: string, env: Env) returns (ret: int)
      modifies this`requestBuf, this`matchBuf, this`callback, this`enabledSystemsResponse
      modifies this`pipeOpen, this`chatAttached, this`trace
      ensures Chained(old(View()), old(trace), CommandSteps(request1, ack1) + CommandSteps(request2, ack2), env, ret)
    {
      ghost var s0, t0 := View(), trace;
      ghost var first, second := CommandSteps(request1, ack1), CommandSteps(request2, ack2);
      ret := SendCommand(request1, ack1, env);
      if ret < 0 {
        assert Chained(s0, t0, first + second, env, ret) by { ChainConcat(first, second, env); }
        return;
      }
      ghost var s1, t1 := View(), trace;
      OutcomeNegative(first, env);
      ChainThen(s0, t0, first, second, env);
      ret := SendCommand(request2, ack2, env);
    }

    /**
     * Rejects any system outside GPS, GLONASS, Galileo and BeiDou before
     * locking; otherwise sends PMTK353 and, when that succeeded, PMTK313.
     */
    method SetEnabledSystems(systems: Systems, env: Env) returns (ret: int)
      requires Valid() && !locked
      modifies this`requestBuf, this`matchBuf, this`callback, this`enabledSystemsResponse
      modifies this`pipeOpen, this`chatAttached, this`trace, this`locked
      ensures Valid() && !locked
      ensures !Settable(systems) ==> ret == -EINVAL && View() == old(View()) && trace == old(trace)
      ensures Settable(systems) ==>
        var steps := EnableSystemsSteps(systems);
        ret == Outcome(steps, env) && UnderLock(old(View()), old(trace), Prefix(steps, env), env)
    {
      if (!SettableSystems) & systems != 0 {
        return -EINVAL;
      }
      ret := LockedCommands(EnableSystemsRequest(systems), EnableSystemsAck(systems), SbasRequest(systems), SbasAck(), env);
    }

    /** Runs two commands in a row between taking and giving back the lock. */
    method LockedCommands(request1: string, ack1: string, request2: string, ack2: string, env: Env) returns (ret: int)
      requires Valid() && !locked
      modifies this`requestBuf, this`matchBuf, this`callback, this`enabledSystemsResponse
      modifies this`pipeOpen, this`chatAttached, this`trace, this`locked
      ensures Valid() && !locked
      ensures ret == Outcome(CommandSteps(request1, ack1) + CommandSteps(request2, ack2), env)
      ensures UnderLock(old(View()), old(trace), Prefix(CommandSteps(request1, ack1) + CommandSteps(request2, ack2), env), env)
    {
      Lock();
      ghost var s0 := View();
      ret := SendCommands(request1, ack1, request2, ack2, env);
      CommandPairFrame(request1, ack1, request2, ack2, s0, env);
      Unlock();
    }

    /** Formats and installs PMTK355 and copies and installs its match. */
    method InstallQuery(env: Env) returns (ret: int)
      modifies this`requestBuf, this`matchBuf, this`callback, this`enabledSystemsResponse
      modifies this`pipeOpen, this`chatAttached, this`trace
      ensures Chained(old(View()), old(trace), QuerySetup, env, ret)
      ensures ret >= 0 ==> requestBuf == Formatted(QueryRequest) && matchBuf == Copied(QueryMatch)
      ensures callback == old(callback)
    {
      ghost var s0, t0 := View(), trace;
      ghost var first := RequestSetup(QueryRequest);
      ghost var second := [Copy(MatchBuffer, QueryMatch), SetMatch(Copied(QueryMatch))];
      assert QuerySetup == first + second;
      ret := InstallRequest(QueryRequest, env);
      if ret < 0 {
        ChainConcat(first, second, env);
        return;
      }
      OutcomeNegative(first, env);
      ChainThen(s0, t0, first, second, env);
      ghost var s1, t1 := View(), trace;
      var copied := Step(Copy(MatchBuffer, QueryMatch), env, s1, t1, []);
      assert [] + [second[0]] == second[..1];
      ret := Step(SetMatch(matchBuf), env, s1, t1, second[..1]);
      assert second[..1] + [second[1]] == second == second[..2];
      ChainStopsAt(second, 1, env);
    }

    /** Installs the search-mode callback and runs the installed query script. */
    method RunQueryScript(env: Env) returns (ret: int)
      requires requestBuf == Formatted(QueryRequest) && matchBuf == Copied(QueryMatch)
      modifies this`requestBuf, this`matchBuf, this`callback, this`enabledSystemsResponse
      modifies this`pipeOpen, this`chatAttached, this`trace
      ensures ret == Status(RunScript(QueryScript), env)
      ensures After(old(View()), old(trace), [SetCallback(SearchModeCallback), RunScript(QueryScript)], env)
    {
      ghost var s0, t0 := View(), trace;
      var installed := Step(SetCallback(SearchModeCallback), env, s0, t0, []);
      ret := Step(RunScript(PmtkScript(requestBuf, matchBuf)), env, s0, t0, [SetCallback(SearchModeCallback)]);
      assert [] + [SetCallback(SearchModeCallback)] + [RunScript(QueryScript)] == [SetCallback(SearchModeCallback), RunScript(QueryScript)];
    }

    /** Sends PMTK355 with the search-mode callback installed, and removes the callback after the script. */
    method Query(env: Env) returns (ret: int)
      modifies this`requestBuf, this`matchBuf, this`callback, this`enabledSystemsResponse
      modifies this`pipeOpen, this`chatAttached, this`trace
      ensures ret == Outcome(QuerySteps, env) && After(old(View()), old(trace), QueryCalls(env), env)
    {
      ghost var s0, t0 := View(), trace;
      ghost var tail := [SetCallback(SearchModeCallback), RunScript(QueryScript)];
      ret := InstallQuery(env);
      if ret < 0 {
        ChainConcat(QuerySetup, tail, env);
        return;
      }
      OutcomeNegative(QuerySetup, env);
      ChainThen(s0, t0, QuerySetup, tail, env);
      ChainStopsAt(tail, 1, env);
      assert tail[..2] == tail;
      ret := RunQueryScript(env);
      var removed := Step(SetCallback(NoCallback), env, s0, t0, QuerySteps);
    }

    /** Queries the enabled systems; the caller's value is written only when the script succeeded. */
    method GetEnabledSystems(env: Env) returns (ret: int, systems: Option<Systems>)
      requires Valid() && !locked
      modifies this`requestBuf, this`matchBuf, this`callback, this`enabledSystemsResponse
      modifies this`pipeOpen, this`chatAttached, this`trace, this`locked
      ensures Valid() && !locked
      ensures ret == Outcome(QuerySteps, env) && UnderLock(old(View()), old(trace), QueryCalls(env), env)
      ensures systems == if ret >= 0 then Some(enabledSystemsResponse) else None
    {
      Lock();
      ghost var s0 := View();
      ret := Query(env);
      QueryOutcome(s0, env);
      systems := if ret >= 0 then Some(enabledSystemsResponse) else None;
      Unlock();
    }

    /** The fixed set of systems the module can track. */
    method GetSupportedSystems() returns (ret: int, systems: Systems)
      ensures ret == 0
      ensures systems & SettableSystems == SettableSystems && systems & ReportableSystems == ReportableSystems
      ensures systems & SBAS != 0 && systems & !(ReportableSystems | SBAS) == 0
    {
      return 0, GPS | GLONASS | GALILEO | BEIDOU | QZSS | SBAS;
    }

    // ------------------------------------------------------------ power management

    /** The first three resume calls; a failed attach or script closes the pipe again. */
    method StartSession(env: Env) returns (ret: int)
      modifies this`requestBuf, this`matchBuf, this`callback, this`enabledSystemsResponse
      modifies this`pipeOpen, this`chatAttached, this`trace
      ensures ret == Outcome(ResumeHead(satellites), env)
      ensures ret >= 0 ==> After(old(View()), old(trace), ResumeHead(satellites), env)
      ensures ret < 0 ==> var done := Prefix(ResumeHead(satellites), env);
        After(old(View()), old(trace), if |done| > 1 then done + [PipeClose] else done, env)
    {
      ghost var s0, t0 := View(), trace;
      ghost var steps := ResumeHead(satellites);
      ret := Step(PipeOpen, env, s0, t0, []);
      if ret < 0 {
        ChainStopsAt(steps, 0, env);
        return;
      }
      assert [] + [steps[0]] == steps[..1];
      ret := Step(ChatAttach, env, s0, t0, steps[..1]);
      assert steps[..1] + [steps[1]] == steps[..2];
      if ret < 0 {
        ChainStopsAt(steps, 1, env);
        var closed := Step(PipeClose, env, s0, t0, steps[..2]);
        return;
      }
      ret := Step(RunScript(ResumeScript(satellites)), env, s0, t0, steps[..2]);
      assert steps[..2] + [steps[2]] == steps[..3] == steps;
      ChainStopsAt(steps, 2, env);
      if ret < 0 {
        var closed := Step(PipeClose, env, s0, t0, steps);
      }
    }

    /** The PPS configuration after a successful resume head; a failure closes the pipe again. */
    method FinishResume(env: Env, ghost start: Session, ghost log: seq<Event>) returns (ret: int)
      requires Outcome(ResumeHead(satellites), env) >= 0 && After(start, log, ResumeHead(satellites), env)
      modifies this`requestBuf, this`matchBuf, this`callback, this`enabledSystemsResponse
      modifies this`pipeOpen, this`chatAttached, this`trace
      ensures ret == Outcome(ResumeSteps(satellites, ppsMode, ppsPulseWidth), env)
      ensures After(start, log, ResumeCalls(satellites, ppsMode, ppsPulseWidth, env), env)
    {
      ghost var head := ResumeHead(satellites);
      ghost var pps := CommandSteps(PpsRequest(ppsMode, ppsPulseWidth), PpsAck());
      ghost var steps := ResumeSteps(satellites, ppsMode, ppsPulseWidth);
      ChainThen(start, log, head, pps, env);
      ret := ConfigurePps(env);
      if ret < 0 {
        var closed := Step(PipeClose, env, start, log, Prefix(steps, env));
      }
    }

    /** The resume calls from an open of the pipe to the configured PPS output. */
    method ResumeSession(env: Env) returns (ret: int)
      modifies this`requestBuf, this`matchBuf, this`callback, this`enabledSystemsResponse
      modifies this`pipeOpen, this`chatAttached, this`trace
      ensures ret == Outcome(ResumeSteps(satellites, ppsMode, ppsPulseWidth), env)
      ensures After(old(View()), old(trace), ResumeCalls(satellites, ppsMode, ppsPulseWidth, env), env)
    {
      ghost var s0, t0 := View(), trace;
      ghost var head := ResumeHead(satellites);
      ghost var pps := CommandSteps(PpsRequest(ppsMode, ppsPulseWidth), PpsAck());
      ret := StartSession(env);
      if ret < 0 {
        assert ret == Outcome(head + pps, env) && Prefix(head + pps, env) == Prefix(head, env) by {
          ChainConcat(head, pps, env);
        }
        return;
      }
      ret := FinishResume(env, s0, t0);
    }

    /**
     * The cold resume: wait for the deadline, open the pipe, attach the chat,
     * run the resume script and configure PPS; a failure after the pipe was
     * opened closes it again before the error is returned.
     */
    method Resume(env: Env) returns (ret: int)
      modifies this`requestBuf, this`matchBuf, this`callback, this`enabledSystemsResponse
      modifies this`pipeOpen, this`chatAttached, this`trace
      ensures ret == Outcome(ResumeSteps(satellites, ppsMode, ppsPulseWidth), env)
      ensures View() == ApplyAll(old(View()), ResumeCalls(satellites, ppsMode, ppsPulseWidth, env), env)
      ensures trace == old(trace) + [AwaitReady(pmReadyAt)] + Invocations(ResumeCalls(satellites, ppsMode, ppsPulseWidth, env))
    {
      AwaitPmReady();
      ret := ResumeSession(env);
    }

    /** Goes to standby once the deadline has passed. */
    method Suspend(env: Env) returns (ret: int)
      modifies this`requestBuf, this`matchBuf, this`callback, this`enabledSystemsResponse
      modifies this`pipeOpen, this`chatAttached, this`trace
      ensures ret == Status(RunScript(SuspendScript), env)
      ensures View() == Apply(old(View()), RunScript(SuspendScript), env)
      ensures trace == old(trace) + [AwaitReady(pmReadyAt), Invoke(RunScript(SuspendScript))]
      ensures pipeOpen == old(pipeOpen) && chatAttached == old(chatAttached)
    {
      AwaitPmReady();
      ret := Perform(RunScript(SuspendScript), env);
    }

    /** Closes the pipe and returns the close's code. */
    method TurnOff(env: Env) returns (ret: int)
      modifies this`requestBuf, this`matchBuf, this`callback, this`enabledSystemsResponse
      modifies this`pipeOpen, this`chatAttached, this`trace
      ensures ret == Status(PipeClose, env)
      ensures !Fails(PipeClose, env) ==> !pipeOpen
      ensures View() == Apply(old(View()), PipeClose, env)
      ensures trace == old(trace) + [Invoke(PipeClose)]
    {
      ret := Perform(PipeClose, env);
    }

    /**
     * Wakes the module from standby: open the pipe, attach the chat and send
     * any byte; only a failed attach closes the pipe again, without waiting
     * for the deadline.
     */
    method ExitStandby(env: Env) returns (ret: int)
      modifies this`requestBuf, this`matchBuf, this`callback, this`enabledSystemsResponse
      modifies this`pipeOpen, this`chatAttached, this`trace
      ensures ret == Outcome(ExitStandbySteps, env)
      ensures After(old(View()), old(trace), ExitStandbyCalls(env), env)
    {
      ghost var s0, t0 := View(), trace;
      ghost var steps := ExitStandbySteps;
      ret := Step(PipeOpen, env, s0, t0, []);
      if ret < 0 {
        ChainStopsAt(steps, 0, env);
        return;
      }
      assert [] + [steps[0]] == steps[..1];
      ret := Step(ChatAttach, env, s0, t0, steps[..1]);
      assert steps[..1] + [steps[1]] == steps[..2];
      if ret < 0 {
        ChainStopsAt(steps, 1, env);
        var closed := Step(PipeClose, env, s0, t0, steps[..2]);
        return;
      }
      ret := Step(RunScript(ExitStandbyScript), env, s0, t0, steps[..2]);
      assert steps[..2] + [steps[2]] == steps[..3] == steps;
      ChainStopsAt(steps, 2, env);
    }

    /** The action-specific part of the power-management entry point. */
    method Dispatch(action: PmAction, env: Env) returns (ret: int)
      modifies this`requestBuf, this`matchBuf, this`callback, this`enabledSystemsResponse
      modifies this`pipeOpen, this`chatAttached, this`trace
      ensures ret == PmResult(action, env)
      ensures View() == ApplyAll(old(View()), PmCalls(action, env), env)
      ensures trace == old(trace) + PmWork(action, pmReadyAt, env)
    {
      ghost var s0, t0 := View(), trace;
      match action {
        case PmSuspend =>
          ret := Suspend(env);
          ApplyAllCons(s0, RunScript(SuspendScript), [], env);
        case PmResume =>
          ret := ExitStandby(env);
        case PmTurnOn =>
          ret := 0;
        case PmTurnOff =>
          ret := TurnOff(env);
          ApplyAllCons(s0, PipeClose, [], env);
        case PmOther =>
          ret := -ENOTSUP;
      }
    }

    /** `Dispatch` keeps the instance valid: no action installs a callback or touches the response slot. */
    method DispatchValid(action: PmAction, env: Env) returns (ret: int)
      requires Valid()
      modifies this`requestBuf, this`matchBuf, this`callback, this`enabledSystemsResponse
      modifies this`pipeOpen, this`chatAttached, this`trace
      ensures Valid()
      ensures ret == PmResult(action, env)
      ensures View() == ApplyAll(old(View()), PmCalls(action, env), env)
      ensures trace == old(trace) + PmWork(action, pmReadyAt, env)
    {
      ghost var s0 := View();
      ret := Dispatch(action, env);
      PmFrame(s0, action, env);
    }

    /**
     * The power-management entry point: under the lock, dispatch on the
     * action (a resume goes through the standby exit, not the cold resume),
     * then stamp a new deadline whatever the outcome.
     */
    method HandlePmAction(action: PmAction, uptimeMs: nat, env: Env) returns (ret: int)
      requires Valid() && !locked
      modifies this`requestBuf, this`matchBuf, this`callback, this`enabledSystemsResponse
      modifies this`pipeOpen, this`chatAttached, this`trace, this`locked, this`pmReadyAt
      ensures Valid() && !locked
      ensures ret == PmResult(action, env)
      ensures View() == ApplyAll(old(View()), PmCalls(action, env), env)
      ensures trace == old(trace) + PmEvents(action, old(pmReadyAt), env)
      ensures pmReadyAt == ReadyAt(uptimeMs)
    {
      ghost var t0, r0 := trace, pmReadyAt;
      ghost var work := PmWork(action, r0, env);
      Lock();
      ret := DispatchValid(action, env);
      ghost var t1 := trace;
      PmChanged(uptimeMs);
      Unlock();
      assert t1 == t0 + [Take] + work;
      assert PmEvents(action, r0, env) == [Take] + work + [Give];
      assert trace == t0 + [Take] + work + [Give];
    }

    /**
     * The tail of device initialisation: stamp the deadline; a powered device
     * is resumed at once (waiting out that deadline) and, when that
     * succeeded, stamped again; the code is that of a failed resume, else
     * that of enabling runtime power management.
     */
    method Boot(powered: bool, bootMs: nat, resumedMs: nat, runtimeEnable: int, env: Env) returns (ret: int)
      requires Valid()
      modifies this`requestBuf, this`matchBuf, this`callback, this`enabledSystemsResponse
      modifies this`pipeOpen, this`chatAttached, this`trace, this`pmReadyAt
      ensures Valid()
      ensures powered ==>
        var out := Outcome(ResumeSteps(satellites, ppsMode, ppsPulseWidth), env);
        var calls := ResumeCalls(satellites, ppsMode, ppsPulseWidth, env);
        ret == (if out < 0 then out else runtimeEnable) &&
        View() == ApplyAll(old(View()), calls, env) &&
        trace == old(trace) + [AwaitReady(ReadyAt(bootMs))] + Invocations(calls) &&
        pmReadyAt == (if out < 0 then ReadyAt(bootMs) else ReadyAt(resumedMs))
      ensures !powered ==>
        ret == runtimeEnable && View() == old(View()) && trace == old(trace) && pmReadyAt == ReadyAt(bootMs)
    {
      ghost var s0 := View();
      PmChanged(bootMs);
      if powered {
        ret := Resume(env);
        ResumeFrame(s0, satellites, ppsMode, ppsPulseWidth, env);
        if ret < 0 {
          return;
        }
        PmChanged(resumedMs);
      }
      ret := runtimeEnable;
    }
  }
}
