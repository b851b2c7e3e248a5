/**
 * The chains of collaborator calls each driver operation makes, the
 * predefined chat scripts, and what the chains guarantee: which request is
 * sent with which expected acknowledgement, what runs only after what, and
 * when the pipe is closed again.
 */
module Transactions {
  import opened Pmtk
  import opened Chat

  /** Zephyr's errno values, returned negated. */
  const EINVAL := 22
  const ENOTSUP := 134

  /** QUECTEL_LX6_PM_TIMEOUT_MS: how long the module needs after a power-management change. */
  const PmTimeoutMs := 500

  // ------------------------------------------------------- predefined scripts

  /** Enter standby (PMTK161) and wait for its success acknowledgement. */
  const SuspendScript := FixedScript([Command("$PMTK161,0*28", Exact("$PMTK001,161,3*36"))])

  /** An unknown command: any byte wakes the module from standby, so any line is accepted. */
  const ExitStandbyScript := FixedScript([Command("$PMTK000*32", AnyMatch)])

  /** PMTK314 choosing the NMEA output sentences, framed with `$` and its checksum. */
  const OutputSentences := "$PMTK314,0,1,0,1,0,0,0,0,0,0,0,0,0,0,0,0,0,0,0*28"

  /**
   * The second PMTK314 sent when satellite reporting is configured: as
   * written, the same payload as `OutputSentences` with another checksum.
   */
  const SatelliteSentences := "$PMTK314,0,1,0,1,0,0,0,0,0,0,0,0,0,0,0,0,0,0,0*29"

  /** A framed sentence without its leading `$` and its trailing `*HH`. */
  function Payload(sentence: string): (body: string)
    requires |sentence| >= 4
    ensures |body| == |sentence| - 4
    ensures sentence == sentence[..1] + body + sentence[|sentence| - 3..]
  {
    sentence[1..|sentence| - 3]
  }

  /**
   * The second PMTK314 repeats the first one's payload and differs only in
   * its checksum, so it changes no output selection.
   */
  lemma SatelliteSentencesRepeatOutput()
    ensures Payload(SatelliteSentences) == Payload(OutputSentences)
    ensures SatelliteSentences[..|SatelliteSentences| - 2] == OutputSentences[..|OutputSentences| - 2]
    ensures SatelliteSentences != OutputSentences
  {
    assert SatelliteSentences[|SatelliteSentences| - 1] != OutputSentences[|OutputSentences| - 1];
  }

  function ResumeScript(satellites: bool): (r: Script)
    ensures r.FixedScript? && |r.commands| == if satellites then 2 else 1
    ensures r.commands[0] == Command(OutputSentences, AnyMatch)
  {
    FixedScript([Command(OutputSentences, AnyMatch)] + if satellites then [Command(SatelliteSentences, AnyMatch)] else [])
  }

  // ----------------------------------------------------- the shared pmtk_script

  /** The script run with whatever the two scratch buffers hold. */
  function PmtkRun(request: string, ack: string): (run: Call)
  {
    RunScript(PmtkScript(Formatted(request), Formatted(ack)))
  }

  /**
   * One PMTK command: format the request, point the script at it, format
   * the expected acknowledgement, point the match at it, run the script.
   */
  function CommandSteps(request: string, ack: string): (steps: seq<Call>)
  {
    CommandSetup(request, ack) + [PmtkRun(request, ack)]
  }

  /** The part of a command before its script runs. */
  function CommandSetup(request: string, ack: string): (steps: seq<Call>)
  {
    RequestSetup(request) + MatchSetup(ack)
  }

  /** Format a request into the request buffer and point the script's request at it. */
  function RequestSetup(request: string): (steps: seq<Call>)
  {
    [Format(RequestBuffer, request), SetRequest(Formatted(request))]
  }

  /** Format an acknowledgement into the match buffer and point the match at it. */
  function MatchSetup(ack: string): (steps: seq<Call>)
  {
    [Format(MatchBuffer, ack), SetMatch(Formatted(ack))]
  }

  /** The script runs only when both buffers were formatted and installed. */
  lemma CommandRunsOnlyAfterSetup(request: string, ack: string, env: Env)
    ensures var steps := CommandSteps(request, ack);
      PmtkRun(request, ack) in Prefix(steps, env) <==> forall i :: 0 <= i < 4 ==> !Fails(steps[i], env)
  {
    var steps := CommandSteps(request, ack);
    var done := Prefix(steps, env);
    if PmtkRun(request, ack) in done {
      assert done[|done| - 1] == PmtkRun(request, ack);
    }
    if forall i :: 0 <= i < 4 ==> !Fails(steps[i], env) {
      assert |done| == 5;
    }
  }

  /** No call of a command opens or closes the pipe, attaches the chat or touches the callback slot. */
  lemma CommandKeeps(request: string, ack: string)
    ensures var steps := CommandSteps(request, ack);
      KeepsPipe(steps) && KeepsAttach(steps) && KeepsCallback(steps)
  {
    var steps := CommandSteps(request, ack);
    assert forall i :: 0 <= i < |steps| ==> steps[i].Format? || steps[i].SetRequest? || steps[i].SetMatch? || steps[i].RunScript?;
  }

  /** A command touches nothing but the two buffers, and the response slot only through an installed callback. */
  lemma CommandFrame(request: string, ack: string, s: Session, env: Env)
    ensures var after := ApplyAll(s, Prefix(CommandSteps(request, ack), env), env);
      after.callback == s.callback && after.pipeOpen == s.pipeOpen && after.attached == s.attached &&
      (s.callback == NoCallback ==> after.response == s.response)
  {
    var steps := CommandSteps(request, ack);
    CommandKeeps(request, ack);
    PrefixKeeps(steps, env);
    Frame(s, Prefix(steps, env), env);
  }

  /** A command that succeeds leaves its request and its acknowledgement in the two buffers. */
  lemma CommandSucceeds(request: string, ack: string, s: Session, env: Env)
    requires Outcome(CommandSteps(request, ack), env) >= 0
    ensures Prefix(CommandSteps(request, ack), env) == CommandSteps(request, ack)
    ensures var after := ApplyAll(s, CommandSteps(request, ack), env);
      after.requestBuf == Formatted(request) && after.matchBuf == Formatted(ack)
  {
    var steps := CommandSteps(request, ack);
    OutcomeNegative(steps, env);
    var s1 := Apply(s, steps[0], env);
    var s2 := Apply(s1, steps[1], env);
    var s3 := Apply(s2, steps[2], env);
    var s4 := Apply(s3, steps[3], env);
    assert steps == [steps[0]] + ([steps[1]] + ([steps[2]] + ([steps[3]] + [steps[4]])));
    ApplyAllCons(s, steps[0], [steps[1]] + ([steps[2]] + ([steps[3]] + [steps[4]])), env);
    ApplyAllCons(s1, steps[1], [steps[2]] + ([steps[3]] + [steps[4]]), env);
    ApplyAllCons(s2, steps[2], [steps[3]] + [steps[4]], env);
    ApplyAllCons(s3, steps[3], [steps[4]], env);
    ApplyAllCons(s4, steps[4], [], env);
  }

  // ------------------------------------------------------- enabled systems

  /** PMTK353 with the four constellation flags, then PMTK313 with the SBAS flag. */
  function EnableSystemsSteps(s: Systems): (steps: seq<Call>)
  {
    CommandSteps(EnableSystemsRequest(s), EnableSystemsAck(s)) + CommandSteps(SbasRequest(s), SbasAck())
  }

  /** Two commands in a row touch nothing but the two buffers, like a single command. */
  lemma CommandPairFrame(request1: string, ack1: string, request2: string, ack2: string, s: Session, env: Env)
    ensures var after := ApplyAll(s, Prefix(CommandSteps(request1, ack1) + CommandSteps(request2, ack2), env), env);
      after.callback == s.callback && after.pipeOpen == s.pipeOpen && after.attached == s.attached &&
      (s.callback == NoCallback ==> after.response == s.response)
  {
    var first, second := CommandSteps(request1, ack1), CommandSteps(request2, ack2);
    CommandKeeps(request1, ack1);
    CommandKeeps(request2, ack2);
    KeepsConcat(first, second);
    PrefixKeeps(first + second, env);
    Frame(s, Prefix(first + second, env), env);
  }

  /**
   * The PMTK313 step starts only when the whole PMTK353 command succeeded,
   * and its request then switches SBAS off; the operation fails exactly when
   * one of the two commands fails.
   */
  lemma EnableSystemsOrder(s: Systems, env: Env)
    requires Settable(s)
    ensures var first := CommandSteps(EnableSystemsRequest(s), EnableSystemsAck(s));
      var done := Prefix(EnableSystemsSteps(s), env);
      (|done| > 5 <==> Outcome(first, env) >= 0) &&
      (|done| > 5 ==> done[..5] == first && done[5] == Format(RequestBuffer, "PMTK313,0")) &&
      (|done| <= 5 ==> Outcome(EnableSystemsSteps(s), env) == Outcome(first, env))
    ensures var second := CommandSteps(SbasRequest(s), SbasAck());
      Outcome(CommandSteps(EnableSystemsRequest(s), EnableSystemsAck(s)), env) >= 0 ==>
        Outcome(EnableSystemsSteps(s), env) == Outcome(second, env)
  {
    var first := CommandSteps(EnableSystemsRequest(s), EnableSystemsAck(s));
    var second := CommandSteps(SbasRequest(s), SbasAck());
    ChainConcat(first, second, env);
    SbasRequestAlwaysOff(s);
  }

  // ------------------------------------------------------- enabled-systems query

  /** The query script: request PMTK355, match the copied `$PMTK001,355,3`. */
  const QueryScript := PmtkScript(Formatted(QueryRequest), Copied(QueryMatch))

  /** Format and install PMTK355, copy and install its match. */
  const QuerySetup := [Format(RequestBuffer, QueryRequest), SetRequest(Formatted(QueryRequest)),
                       Copy(MatchBuffer, QueryMatch), SetMatch(Copied(QueryMatch))]

  /** The setup, then install the callback and run the script. */
  const QuerySteps := QuerySetup + [SetCallback(SearchModeCallback), RunScript(QueryScript)]

  /** The setup of the query touches nothing but the two buffers. */
  lemma QuerySetupKeeps()
    ensures KeepsPipe(QuerySetup) && KeepsAttach(QuerySetup) && KeepsCallback(QuerySetup)
  {
    assert forall i :: 0 <= i < |QuerySetup| ==> QuerySetup[i].Format? || QuerySetup[i].SetRequest? || QuerySetup[i].Copy? || QuerySetup[i].SetMatch?;
  }

  /** The query's calls: once the script has run, the callback is removed again whatever it returned. */
  function QueryCalls(env: Env): (calls: seq<Call>)
    ensures |calls| <= 4 ==> Outcome(QuerySteps, env) < 0 && KeepsCallback(calls)
    ensures |calls| > 4 ==> calls == QuerySteps + [SetCallback(NoCallback)]
  {
    QueryUnfold(env);
    var done := Prefix(QuerySteps, env);
    if |done| == |QuerySteps| then done + [SetCallback(NoCallback)] else done
  }

  /**
   * A query leaves no callback installed. Only a script that succeeds passes
   * its reply to the callback, and a reply without exactly eight arguments
   * leaves the previous value in the response slot.
   */
  lemma QueryOutcome(s: Session, env: Env)
    requires s.callback == NoCallback
    ensures var after := ApplyAll(s, QueryCalls(env), env);
      after.callback == NoCallback && after.pipeOpen == s.pipeOpen && after.attached == s.attached
    ensures var after := ApplyAll(s, QueryCalls(env), env);
      Outcome(QuerySteps, env) >= 0 ==>
        after.response == SearchModeReply(s.response, env.reply(QueryScript)) &&
        after.requestBuf == Formatted(QueryRequest) && after.matchBuf == Copied(QueryMatch)
    ensures var after := ApplyAll(s, QueryCalls(env), env);
      Outcome(QuerySteps, env) < 0 ==> after.response == s.response
    ensures var after := ApplyAll(s, QueryCalls(env), env);
      Outcome(QuerySteps, env) >= 0 && |env.reply(QueryScript)| != 8 ==> after.response == s.response
  {
    QueryUnfold(env);
    if |Prefix(QuerySteps, env)| < |QuerySteps| {
      Frame(s, Prefix(QuerySteps, env), env);
    } else {
      QueryRuns(s, env);
    }
  }

  /** The query chain, call by call: the setup can fail before the callback is installed; the rest cannot. */
  lemma QueryUnfold(env: Env)
    ensures var done := Prefix(QuerySteps, env);
      |done| <= 4 || done == QuerySteps
    ensures var done := Prefix(QuerySteps, env);
      |done| <= 4 ==> Outcome(QuerySteps, env) < 0 && KeepsPipe(done) && KeepsAttach(done) && KeepsCallback(done)
    ensures Prefix(QuerySteps, env) == QuerySteps ==> Outcome(QuerySteps, env) == Status(RunScript(QueryScript), env)
  {
    var tail := [SetCallback(SearchModeCallback), RunScript(QueryScript)];
    ChainConcat(QuerySetup, tail, env);
    if Outcome(QuerySetup, env) < 0 {
      QuerySetupKeeps();
      PrefixKeeps(QuerySetup, env);
    } else {
      ChainStopsAt(tail, 1, env);
      assert tail[..2] == tail;
    }
  }

  /** A setup in which every call succeeds leaves the request and the match in the two buffers and nothing else changed. */
  lemma QuerySetupEffect(s: Session, env: Env)
    requires forall i :: 0 <= i < |QuerySetup| ==> !Fails(QuerySetup[i], env)
    ensures ApplyAll(s, QuerySetup, env) == s.(requestBuf := Formatted(QueryRequest), matchBuf := Copied(QueryMatch))
  {
    var q := QuerySetup;
    var s1 := Apply(s, q[0], env);
    var s2 := Apply(s1, q[1], env);
    var s3 := Apply(s2, q[2], env);
    assert s3 == s.(requestBuf := Formatted(QueryRequest), matchBuf := Copied(QueryMatch));
    assert q == [q[0]] + ([q[1]] + ([q[2]] + [q[3]]));
    ApplyAllCons(s, q[0], [q[1]] + ([q[2]] + [q[3]]), env);
    ApplyAllCons(s1, q[1], [q[2]] + [q[3]], env);
    ApplyAllCons(s2, q[2], [q[3]], env);
    ApplyAllCons(s3, q[3], [], env);
  }

  /** Installing the callback, running the script and removing the callback again touch only the response slot. */
  lemma QueryTailEffect(s: Session, env: Env)
    ensures ApplyAll(s, [SetCallback(SearchModeCallback), RunScript(QueryScript), SetCallback(NoCallback)], env) ==
      s.(callback := NoCallback,
         response := if Fails(RunScript(QueryScript), env) then s.response
                     else SearchModeReply(s.response, env.reply(QueryScript)))
  {
    var install, run, reset := SetCallback(SearchModeCallback), RunScript(QueryScript), SetCallback(NoCallback);
    var s1 := Apply(s, install, env);
    var s2 := Apply(s1, run, env);
    assert [install, run, reset] == [install] + ([run] + [reset]);
    ApplyAllCons(s, install, [run] + [reset], env);
    ApplyAllCons(s1, run, [reset], env);
    ApplyAllCons(s2, reset, [], env);
  }

  /** Once the query script is reached, the callback sees its reply only if it succeeds, and is removed afterwards. */
  lemma QueryRuns(s: Session, env: Env)
    requires Prefix(QuerySteps, env) == QuerySteps
    ensures var after := ApplyAll(s, QueryCalls(env), env);
      after.callback == NoCallback && after.pipeOpen == s.pipeOpen && after.attached == s.attached &&
      after.response == (if Fails(RunScript(QueryScript), env) then s.response
                         else SearchModeReply(s.response, env.reply(QueryScript))) &&
      after.requestBuf == Formatted(QueryRequest) && after.matchBuf == Copied(QueryMatch)
  {
    var tail := [SetCallback(SearchModeCallback), RunScript(QueryScript), SetCallback(NoCallback)];
    assert QueryCalls(env) == QuerySetup + tail;
    assert forall i :: 0 <= i < |QuerySetup| ==> QuerySetup[i] == QuerySteps[i];
    QuerySetupEffect(s, env);
    ApplyAllConcat(s, QuerySetup, tail, env);
    QueryTailEffect(ApplyAll(s, QuerySetup, env), env);
  }

  // ------------------------------------------------------- cold resume

  /** Open the pipe, attach the chat, run the resume script. */
  function ResumeHead(satellites: bool): (steps: seq<Call>)
  {
    [PipeOpen, ChatAttach, RunScript(ResumeScript(satellites))]
  }

  /** The resume head, then the PPS configuration. */
  function ResumeSteps(satellites: bool, mode: PpsMode, width: Uint16): (steps: seq<Call>)
  {
    ResumeHead(satellites) + CommandSteps(PpsRequest(mode, width), PpsAck())
  }

  /** Any failure after the pipe was opened closes it again before the error is returned. */
  function ResumeCalls(satellites: bool, mode: PpsMode, width: Uint16, env: Env): (calls: seq<Call>)
    ensures 1 <= |calls| && calls[0] == PipeOpen
    ensures Fails(PipeOpen, env) ==> calls == [PipeOpen]
    ensures Outcome(ResumeSteps(satellites, mode, width), env) >= 0 ==> calls == ResumeSteps(satellites, mode, width)
  {
    var steps := ResumeSteps(satellites, mode, width);
    OutcomeRunsAll(steps, env);
    var done := Prefix(steps, env);
    if Outcome(steps, env) < 0 && |done| > 1 then done + [PipeClose] else done
  }

  /** A failed open returns its code at once, with nothing to clean up. */
  lemma ResumeOpenFails(satellites: bool, mode: PpsMode, width: Uint16, env: Env)
    requires Fails(PipeOpen, env)
    ensures ResumeCalls(satellites, mode, width, env) == [PipeOpen]
    ensures Outcome(ResumeSteps(satellites, mode, width), env) == Status(PipeOpen, env)
  {
    var rest := [ChatAttach, RunScript(ResumeScript(satellites))] + CommandSteps(PpsRequest(mode, width), PpsAck());
    assert ResumeSteps(satellites, mode, width) == [PipeOpen] + rest;
    ChainCons(PipeOpen, rest, env);
  }

  /**
   * Any failure after a successful open (attach, resume script or any PPS
   * step) issues exactly one close, as the last call, which when it succeeds
   * leaves the pipe closed.
   */
  lemma ResumeFailureCloses(s: Session, satellites: bool, mode: PpsMode, width: Uint16, env: Env)
    requires !Fails(PipeOpen, env) && Outcome(ResumeSteps(satellites, mode, width), env) < 0
    ensures var calls := ResumeCalls(satellites, mode, width, env);
      2 <= |calls| && calls[0] == PipeOpen && calls[|calls| - 1] == PipeClose &&
      (forall i :: 0 <= i < |calls| - 1 ==> !calls[i].PipeClose?) &&
      (!Fails(PipeClose, env) ==> !ApplyAll(s, calls, env).pipeOpen)
  {
    var done := ResumeFailedShape(satellites, mode, width, env);
    ApplyAllConcat(s, done, [PipeClose], env);
    ApplyAllCons(ApplyAll(s, done, env), PipeClose, [], env);
  }

  /** A failed resume after a good open is the calls run so far, none of them a close, and one close. */
  lemma ResumeFailedShape(satellites: bool, mode: PpsMode, width: Uint16, env: Env) returns (done: seq<Call>)
    requires !Fails(PipeOpen, env) && Outcome(ResumeSteps(satellites, mode, width), env) < 0
    ensures ResumeCalls(satellites, mode, width, env) == done + [PipeClose]
    ensures 1 < |done| && done[0] == PipeOpen
    ensures forall i :: 0 <= i < |done| ==> !done[i].PipeClose?
  {
    var steps := ResumeSteps(satellites, mode, width);
    done := Prefix(steps, env);
    OutcomeNegative(steps, env);
    ResumeStepsNeverClose(satellites, mode, width);
  }

  lemma ResumeStepsNeverClose(satellites: bool, mode: PpsMode, width: Uint16)
    ensures forall i :: 0 <= i < |ResumeSteps(satellites, mode, width)| ==> !ResumeSteps(satellites, mode, width)[i].PipeClose?
  {
  }

  /** A resume head in which every call succeeds opens the pipe and attaches the chat, and changes nothing else. */
  lemma ResumeHeadEffect(s: Session, satellites: bool, env: Env)
    requires !Fails(PipeOpen, env) && !Fails(ChatAttach, env)
    ensures ApplyAll(s, ResumeHead(satellites), env) == s.(pipeOpen := true, attached := true)
  {
    var run := RunScript(ResumeScript(satellites));
    var s1 := Apply(s, PipeOpen, env);
    var s2 := Apply(s1, ChatAttach, env);
    assert ResumeHead(satellites) == [PipeOpen] + ([ChatAttach] + [run]);
    ApplyAllCons(s, PipeOpen, [ChatAttach] + [run], env);
    ApplyAllCons(s1, ChatAttach, [run], env);
    ApplyAllCons(s2, run, [], env);
  }

  /** A successful resume leaves the pipe open, the chat attached and the PPS command in the buffers. */
  lemma ResumeSucceeds(s: Session, satellites: bool, mode: PpsMode, width: Uint16, env: Env)
    requires Outcome(ResumeSteps(satellites, mode, width), env) >= 0
    ensures ResumeCalls(satellites, mode, width, env) == ResumeSteps(satellites, mode, width)
    ensures var after := ApplyAll(s, ResumeSteps(satellites, mode, width), env);
      after.pipeOpen && after.attached &&
      after.requestBuf == Formatted(PpsRequest(mode, width)) && after.matchBuf == Formatted(PpsAck())
  {
    var head := ResumeHead(satellites);
    var pps := CommandSteps(PpsRequest(mode, width), PpsAck());
    var steps := ResumeSteps(satellites, mode, width);
    OutcomeNegative(steps, env);
    assert !Fails(steps[0], env) && !Fails(steps[1], env);
    ResumeHeadEffect(s, satellites, env);
    ApplyAllConcat(s, head, pps, env);
    var s3 := ApplyAll(s, head, env);
    ChainConcat(head, pps, env);
    CommandSucceeds(PpsRequest(mode, width), PpsAck(), s3, env);
    CommandKeeps(PpsRequest(mode, width), PpsAck());
    Frame(s3, pps, env);
  }

  /** A resume installs no callback, so it leaves the callback slot and an idle response slot alone. */
  lemma ResumeFrame(s: Session, satellites: bool, mode: PpsMode, width: Uint16, env: Env)
    ensures var after := ApplyAll(s, ResumeCalls(satellites, mode, width, env), env);
      after.callback == s.callback && (s.callback == NoCallback ==> after.response == s.response)
  {
    var head, pps := ResumeHead(satellites), CommandSteps(PpsRequest(mode, width), PpsAck());
    CommandKeeps(PpsRequest(mode, width), PpsAck());
    assert KeepsCallback(head) && KeepsCallback([PipeClose]);
    KeepsConcat(head, pps);
    PrefixKeeps(head + pps, env);
    KeepsConcat(Prefix(head + pps, env), [PipeClose]);
    Frame(s, ResumeCalls(satellites, mode, width, env), env);
  }

  // ------------------------------------------------------- power management

  /** Open the pipe, attach the chat, and send any byte to wake the module. */
  const ExitStandbySteps := [PipeOpen, ChatAttach, RunScript(ExitStandbyScript)]

  /** As written, only a failed attach closes the pipe again. */
  function ExitStandbyCalls(env: Env): (calls: seq<Call>)
    ensures 1 <= |calls| && calls[0] == PipeOpen
    ensures PipeClose in calls <==> !Fails(PipeOpen, env) && Fails(ChatAttach, env)
  {
    assert forall i :: 0 <= i < |ExitStandbySteps| ==> ExitStandbySteps[i] != PipeClose;
    var done := Prefix(ExitStandbySteps, env);
    if !Fails(PipeOpen, env) && Fails(ChatAttach, env) then done + [PipeClose] else done
  }

  /** A failed attach closes the pipe; a failed wake-up script returns its error with the pipe still open. */
  lemma ExitStandbyCleanup(s: Session, env: Env)
    ensures !Fails(PipeOpen, env) && Fails(ChatAttach, env) ==>
      ExitStandbyCalls(env) == [PipeOpen, ChatAttach, PipeClose] && Outcome(ExitStandbySteps, env) == Status(ChatAttach, env)
    ensures !Fails(PipeOpen, env) && !Fails(ChatAttach, env) ==>
      ExitStandbyCalls(env) == ExitStandbySteps &&
      Outcome(ExitStandbySteps, env) == Status(RunScript(ExitStandbyScript), env) &&
      ApplyAll(s, ExitStandbySteps, env).pipeOpen
  {
    var run := RunScript(ExitStandbyScript);
    assert ExitStandbySteps == [PipeOpen] + ([ChatAttach] + [run]);
    ChainCons(run, [], env);
    ChainCons(ChatAttach, [run], env);
    ChainCons(PipeOpen, [ChatAttach] + [run], env);
    if !Fails(PipeOpen, env) && !Fails(ChatAttach, env) {
      var s1 := Apply(s, PipeOpen, env);
      var s2 := Apply(s1, ChatAttach, env);
      ApplyAllCons(s, PipeOpen, [ChatAttach] + [run], env);
      ApplyAllCons(s1, ChatAttach, [run], env);
      ApplyAllCons(s2, run, [], env);
    }
  }

  /**
   * When both the resume script and the wake-up script fail, the two resume
   * paths end differently: the cold resume closes the pipe again, the
   * power-management resume returns the error with the pipe still open.
   */
  lemma ColdVsWarmResume(s: Session, satellites: bool, mode: PpsMode, width: Uint16, env: Env)
    requires !Fails(PipeOpen, env) && !Fails(ChatAttach, env) && !Fails(PipeClose, env)
    requires Fails(RunScript(ResumeScript(satellites)), env) && Fails(RunScript(ExitStandbyScript), env)
    ensures Outcome(ResumeSteps(satellites, mode, width), env) < 0 && Outcome(ExitStandbySteps, env) < 0
    ensures !ApplyAll(s, ResumeCalls(satellites, mode, width, env), env).pipeOpen
    ensures ApplyAll(s, ExitStandbyCalls(env), env).pipeOpen
  {
    var steps := ResumeSteps(satellites, mode, width);
    ChainStopsAt(steps, 2, env);
    ResumeFailureCloses(s, satellites, mode, width, env);
    ExitStandbyCleanup(s, env);
  }

  /** The power-management actions the driver dispatches on; any other action is not supported. */
  datatype PmAction = PmSuspend | PmResume | PmTurnOn | PmTurnOff | PmOther

  /** The collaborator calls of each action. */
  function PmCalls(action: PmAction, env: Env): (calls: seq<Call>)
    ensures KeepsCallback(calls)
    ensures action == PmTurnOn || action == PmOther ==> calls == []
  {
    assert KeepsCallback(ExitStandbySteps) && KeepsCallback([PipeClose]);
    PrefixKeeps(ExitStandbySteps, env);
    KeepsConcat(Prefix(ExitStandbySteps, env), [PipeClose]);
    match action
    case PmSuspend => [RunScript(SuspendScript)]
    case PmResume => ExitStandbyCalls(env)
    case PmTurnOn => []
    case PmTurnOff => [PipeClose]
    case PmOther => []
  }

  /** The standby exit fails exactly when one of the calls it makes fails, its clean-up close included. */
  lemma ExitStandbyFailsIff(env: Env)
    ensures Outcome(ExitStandbySteps, env) < 0 <==>
      exists i :: 0 <= i < |ExitStandbyCalls(env)| && Fails(ExitStandbyCalls(env)[i], env)
  {
    var steps, done, calls := ExitStandbySteps, Prefix(ExitStandbySteps, env), ExitStandbyCalls(env);
    OutcomeNegative(steps, env);
    OutcomeFailsIff(done, env);
    if Outcome(steps, env) < 0 {
      assert calls[|done| - 1] == done[|done| - 1];
    }
    if exists i :: 0 <= i < |calls| && Fails(calls[i], env) {
      var i :| 0 <= i < |calls| && Fails(calls[i], env);
      if i < |done| {
        assert done[i] == steps[i];
      } else {
        ExitStandbyCleanup(Session(Zeroed, Zeroed, NoCallback, 0, false, false), env);
      }
    }
  }

  /**
   * The code each action returns: negative exactly when the action is not
   * supported or one of the calls it makes fails; an action that makes no
   * call returns -ENOTSUP when unsupported and 0 otherwise.
   */
  function PmResult(action: PmAction, env: Env): (code: int)
    ensures code < 0 <==>
      action == PmOther || exists i :: 0 <= i < |PmCalls(action, env)| && Fails(PmCalls(action, env)[i], env)
    ensures PmCalls(action, env) == [] ==> code == (if action == PmOther then -ENOTSUP else 0)
  {
    ExitStandbyFailsIff(env);
    assert PmCalls(PmSuspend, env)[0] == RunScript(SuspendScript);
    assert PmCalls(PmResume, env) == ExitStandbyCalls(env);
    assert PmCalls(PmTurnOff, env)[0] == PipeClose;
    match action
    case PmSuspend => Status(RunScript(SuspendScript), env)
    case PmResume => Outcome(ExitStandbySteps, env)
    case PmTurnOn => 0
    case PmTurnOff => Status(PipeClose, env)
    case PmOther => -ENOTSUP
  }

  /** Only a resume opens the pipe. */
  lemma PmOpensOnlyOnResume(action: PmAction, env: Env)
    ensures (exists i :: 0 <= i < |PmCalls(action, env)| && PmCalls(action, env)[i].PipeOpen?) ==> action == PmResume
  {
    assert PmCalls(PmSuspend, env) == [RunScript(SuspendScript)];
    assert PmCalls(PmTurnOff, env) == [PipeClose];
  }

  /** Under the lock: only suspend waits for the previous deadline, then the action's calls. */
  function PmEvents(action: PmAction, readyAt: nat, env: Env): (events: seq<Event>)
  {
    [Take] + PmWork(action, readyAt, env) + [Give]
  }

  /** What the action does between taking and giving back the lock. */
  function PmWork(action: PmAction, readyAt: nat, env: Env): (events: seq<Event>)
  {
    (if action == PmSuspend then [AwaitReady(readyAt)] else []) + Invocations(PmCalls(action, env))
  }

  /**
   * Every action holds the lock exactly once; an unsupported action makes no
   * call and returns -ENOTSUP; the deadline is awaited by suspend and by no
   * other action, a power-management resume included.
   */
  lemma PmDispatch(action: PmAction, readyAt: nat, env: Env)
    ensures LockedOnce(PmEvents(action, readyAt, env))
    ensures action == PmOther ==> PmResult(action, env) == -ENOTSUP && PmEvents(action, readyAt, env) == [Take, Give]
    ensures (exists i :: 0 <= i < |PmEvents(action, readyAt, env)| && PmEvents(action, readyAt, env)[i].AwaitReady?) <==>
      action == PmSuspend
  {
    var middle := PmWork(action, readyAt, env);
    var es := PmEvents(action, readyAt, env);
    assert es == [Take] + middle + [Give];
    InvocationsAt(PmCalls(action, env));
    forall i | 0 <= i < |middle| ensures middle[i].Invoke? || middle[i].AwaitReady? {
    }
    Bracketed(middle);
    if action == PmSuspend {
      assert es[1].AwaitReady?;
    } else {
      forall i | 0 <= i < |es| ensures !es[i].AwaitReady? {
        if 0 < i < |es| - 1 { assert es[i] == middle[i - 1]; }
      }
    }
  }

  /** No action installs a callback, so the callback slot and an idle response slot are left alone. */
  lemma PmFrame(s: Session, action: PmAction, env: Env)
    ensures var after := ApplyAll(s, PmCalls(action, env), env);
      after.callback == s.callback && (s.callback == NoCallback ==> after.response == s.response)
  {
    assert KeepsCallback(ExitStandbySteps) && KeepsCallback([PipeClose]);
    PrefixKeeps(ExitStandbySteps, env);
    KeepsConcat(Prefix(ExitStandbySteps, env), [PipeClose]);
    assert KeepsCallback(PmCalls(action, env));
    Frame(s, PmCalls(action, env), env);
  }

  /** The deadline `pm_changed` stamps: 500 ms after the current uptime. */
  function ReadyAt(uptimeMs: nat): (deadline: nat)
  {
    uptimeMs + PmTimeoutMs
  }

  /** As written, the deadline passes through a `uint32_t` and wraps. */
  function ReadyAtAsWritten(uptimeMs: nat): (deadline: Uint32)
    ensures deadline <= ReadyAt(uptimeMs)
    ensures (ReadyAt(uptimeMs) - deadline) % 0x1_0000_0000 == 0
  {
    (uptimeMs + PmTimeoutMs) % 0x1_0000_0000
  }

  /** The stamped deadline always lies 500 ms ahead, and the two agree until the 32-bit wrap. */
  lemma ReadyAtAhead(uptimeMs: nat)
    ensures ReadyAt(uptimeMs) > uptimeMs
    ensures uptimeMs + PmTimeoutMs < 0x1_0000_0000 ==> ReadyAtAsWritten(uptimeMs) == ReadyAt(uptimeMs)
  {
  }

  /** After 2^32 - 500 ms of uptime (about 49.7 days) the truncated deadline lies in the past. */
  lemma ReadyAtAsWrittenWraps()
    ensures ReadyAtAsWritten(0xFFFF_FFFF) == 499
    ensures ReadyAtAsWritten(0xFFFF_FFFF) < 0xFFFF_FFFF
  {
  }
}
