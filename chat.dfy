/**
 * The driver's view of its collaborators: the formatter, the modem chat
 * engine and the UART pipe. Their outcomes come from an oracle `Env`; what
 * the driver can observe of them is the state `Session` (the two scratch
 * buffers, the match callback slot, the response slot, the pipe and the
 * chat attachment). An operation is a chain of calls that stops at the first
 * failure, as the driver's `if (ret < 0) goto unlock_return` chains do.
 */
module Chat {
  import opened Pmtk

  /** The two 32-byte scratch buffers, `pmtk_request_buf` and `pmtk_match_buf`. */
  datatype Target = RequestBuffer | MatchBuffer

  /** Contents of a scratch buffer: never written, a body framed by the formatter, or text copied verbatim. */
  datatype Buf = Zeroed | Formatted(body: string) | Copied(text: string)

  /** The callback slot of `pmtk_match`. */
  datatype Slot = NoCallback | SearchModeCallback

  /** What a command of a predefined script waits for. */
  datatype Response = Exact(text: string) | AnyMatch

  datatype Command = Command(request: string, response: Response)

  /**
   * A chat script: the shared `pmtk_script`, whose one request and one match
   * point at the scratch buffers, or one of the predefined scripts.
   */
  datatype Script = PmtkScript(requestBuf: Buf, matchBuf: Buf) | FixedScript(commands: seq<Command>)

  /** A call the driver makes into its collaborators. */
  datatype Call =
    | Format(target: Target, body: string)   // gnss_nmea0183_snprintk
    | Copy(target: Target, text: string)     // strncpy, which cannot fail
    | SetRequest(buf: Buf)                   // modem_chat_script_chat_set_request
    | SetMatch(buf: Buf)                     // modem_chat_match_set_match
    | SetCallback(slot: Slot)                // modem_chat_match_set_callback, which cannot fail
    | RunScript(script: Script)              // modem_chat_run_script
    | PipeOpen                               // modem_pipe_open
    | PipeClose                              // modem_pipe_close
    | ChatAttach                             // modem_chat_attach

  /**
   * The collaborators' behaviour: the status code each call returns, and the
   * arguments of the reply line that a matching script hands to the callback.
   */
  datatype Env = Env(status: Call -> int, reply: Script -> seq<string>)

  /** The status the driver sees; the two calls whose result it never checks count as succeeding. */
  function Status(c: Call, env: Env): (r: int)
    ensures c.Copy? || c.SetCallback? ==> r == 0
    ensures !(c.Copy? || c.SetCallback?) ==> r == env.status(c)
  {
    if c.Copy? || c.SetCallback? then 0 else env.status(c)
  }

  predicate Fails(c: Call, env: Env) { Status(c, env) < 0 }

  /** Whatever code the collaborator would give, a copy or a callback change never stops a chain. */
  lemma UncheckedCallsNeverStop(c: Call, rest: seq<Call>, env: Env)
    requires c.Copy? || c.SetCallback?
    ensures !Fails(c, env)
    ensures Prefix([c] + rest, env) == [c] + Prefix(rest, env)
    ensures rest != [] ==> Outcome([c] + rest, env) == Outcome(rest, env)
  {
    ChainCons(c, rest, env);
  }

  /** The calls of an early-exit chain that are made: all of them up to and including the first that fails. */
  function Prefix(calls: seq<Call>, env: Env): (done: seq<Call>)
    ensures |done| <= |calls| && done == calls[..|done|]
    ensures forall i :: 0 <= i < |done| - 1 ==> !Fails(done[i], env)
    ensures |done| < |calls| ==> 0 < |done| && Fails(done[|done| - 1], env)
    ensures calls != [] ==> done != []
  {
    if calls == [] then []
    else if Fails(calls[0], env) then [calls[0]]
    else [calls[0]] + Prefix(calls[1..], env)
  }

  /** The code such a chain returns: that of the first call that fails, else that of the last call. */
  function Outcome(calls: seq<Call>, env: Env): (r: int)
    ensures calls != [] ==> r == Status(Prefix(calls, env)[|Prefix(calls, env)| - 1], env)
  {
    if calls == [] then 0
    else if Fails(calls[0], env) || |calls| == 1 then Status(calls[0], env)
    else Outcome(calls[1..], env)
  }

  /** A chain fails exactly when one of its calls fails. */
  lemma {:induction false} OutcomeFailsIff(calls: seq<Call>, env: Env)
    ensures Outcome(calls, env) < 0 <==> exists i :: 0 <= i < |calls| && Fails(calls[i], env)
    decreases |calls|
  {
    if calls != [] && Fails(calls[0], env) {
      assert Fails(calls[0], env);
    } else if |calls| > 1 {
      var rest := calls[1..];
      OutcomeFailsIff(rest, env);
      if exists i :: 0 <= i < |calls| && Fails(calls[i], env) {
        var i :| 0 <= i < |calls| && Fails(calls[i], env);
        assert rest[i - 1] == calls[i];
      }
      if exists j :: 0 <= j < |rest| && Fails(rest[j], env) {
        var j :| 0 <= j < |rest| && Fails(rest[j], env);
        assert calls[j + 1] == rest[j];
      }
    }
  }

  /** A chain that does not fail makes every call. */
  lemma {:induction false} OutcomeRunsAll(calls: seq<Call>, env: Env)
    ensures Outcome(calls, env) >= 0 ==> Prefix(calls, env) == calls
    decreases |calls|
  {
    if calls != [] && !Fails(calls[0], env) {
      if |calls| == 1 {
        assert [calls[0]] + [] == calls;
      } else {
        OutcomeRunsAll(calls[1..], env);
        assert calls == [calls[0]] + calls[1..];
      }
    }
  }

  /** A chain that fails stops right after the call that failed. */
  lemma {:induction false} OutcomeStopsAtFailure(calls: seq<Call>, env: Env)
    ensures Outcome(calls, env) < 0 ==> Fails(Prefix(calls, env)[|Prefix(calls, env)| - 1], env)
    decreases |calls|
  {
    if calls != [] && !Fails(calls[0], env) && |calls| > 1 {
      var rest := Prefix(calls[1..], env);
      OutcomeStopsAtFailure(calls[1..], env);
      assert Prefix(calls, env) == [calls[0]] + rest;
    }
  }

  /** A chain fails exactly when one of its calls fails, and then it stops right after that call. */
  lemma OutcomeNegative(calls: seq<Call>, env: Env)
    ensures Outcome(calls, env) < 0 <==> exists i :: 0 <= i < |calls| && Fails(calls[i], env)
    ensures Outcome(calls, env) >= 0 ==> Prefix(calls, env) == calls
    ensures Outcome(calls, env) < 0 ==> Fails(Prefix(calls, env)[|Prefix(calls, env)| - 1], env)
  {
    OutcomeFailsIff(calls, env);
    OutcomeRunsAll(calls, env);
    OutcomeStopsAtFailure(calls, env);
  }

  /** The first call of a chain: a failure ends it, a success hands over to the rest. */
  lemma ChainCons(c: Call, rest: seq<Call>, env: Env)
    ensures Prefix([c] + rest, env) == if Fails(c, env) then [c] else [c] + Prefix(rest, env)
    ensures Outcome([c] + rest, env) == if Fails(c, env) || rest == [] then Status(c, env) else Outcome(rest, env)
  {
    assert ([c] + rest)[1..] == rest;
  }

  /** A chain whose calls before `k` succeed ends at `k` when that call fails or is the last. */
  lemma {:induction false} ChainStopsAt(calls: seq<Call>, k: nat, env: Env)
    requires k < |calls|
    requires forall i :: 0 <= i < k ==> !Fails(calls[i], env)
    requires Fails(calls[k], env) || k == |calls| - 1
    ensures Prefix(calls, env) == calls[..k + 1]
    ensures Outcome(calls, env) == Status(calls[k], env)
    decreases k
  {
    if k > 0 {
      ChainStopsAt(calls[1..], k - 1, env);
      assert calls[..k + 1] == [calls[0]] + calls[1..][..k];
    } else if !Fails(calls[0], env) {
      assert calls == [calls[0]];
    }
  }

  /** A chain of two parts: the second part runs only when the first succeeds, and then decides the result. */
  lemma {:induction false} ChainConcat(a: seq<Call>, b: seq<Call>, env: Env)
    requires a != [] && b != []
    ensures Outcome(a, env) < 0 ==> Prefix(a + b, env) == Prefix(a, env) && Outcome(a + b, env) == Outcome(a, env)
    ensures Outcome(a, env) >= 0 ==> Prefix(a + b, env) == a + Prefix(b, env) && Outcome(a + b, env) == Outcome(b, env)
    decreases |a|
  {
    assert (a + b)[0] == a[0];
    if |a| == 1 {
      assert (a + b)[1..] == b;
    } else {
      assert (a + b)[1..] == a[1..] + b;
      ChainConcat(a[1..], b, env);
    }
  }

  /** What the driver can observe of its collaborators and its own scratch state. */
  datatype Session = Session(
    requestBuf: Buf,
    matchBuf: Buf,
    callback: Slot,
    response: Systems,
    pipeOpen: bool,
    attached: bool)

  /**
   * The search-mode callback: an 8-argument reply sets the response slot to
   * the systems it reports; any other reply leaves the slot as it was.
   */
  function SearchModeReply(slot: Systems, argv: seq<string>): (r: Systems)
    ensures |argv| != 8 ==> r == slot
    ensures |argv| == 8 ==> r & !ReportableSystems == 0 && r & SBAS == 0
  {
    if |argv| != 8 then slot else SearchModeSystems(argv)
  }

  /** The effect of one call on the session; a call that fails changes nothing. */
  function Apply(s: Session, c: Call, env: Env): (r: Session)
    ensures Fails(c, env) ==> r == s
    ensures !c.Format? && !c.Copy? ==> r.requestBuf == s.requestBuf && r.matchBuf == s.matchBuf
    ensures !c.SetCallback? ==> r.callback == s.callback
    ensures !(c.RunScript? && s.callback == SearchModeCallback) ==> r.response == s.response
    ensures !c.PipeOpen? && !c.PipeClose? ==> r.pipeOpen == s.pipeOpen
    ensures !c.ChatAttach? ==> r.attached == s.attached
  {
    if Fails(c, env) then s
    else
      match c
      case Format(t, body) => if t == RequestBuffer then s.(requestBuf := Formatted(body)) else s.(matchBuf := Formatted(body))
      case Copy(t, text) => if t == RequestBuffer then s.(requestBuf := Copied(text)) else s.(matchBuf := Copied(text))
      case SetRequest(_) => s
      case SetMatch(_) => s
      case SetCallback(slot) => s.(callback := slot)
      case RunScript(script) =>
        if script.PmtkScript? && s.callback == SearchModeCallback
        then s.(response := SearchModeReply(s.response, env.reply(script)))
        else s
      case PipeOpen => s.(pipeOpen := true)
      case PipeClose => s.(pipeOpen := false)
      case ChatAttach => s.(attached := true)
  }

  /** The session after the calls, in order. */
  function ApplyAll(s: Session, calls: seq<Call>, env: Env): (r: Session)
    decreases |calls|
  {
    if calls == [] then s else ApplyAll(Apply(s, calls[0], env), calls[1..], env)
  }

  lemma ApplyAllCons(s: Session, c: Call, rest: seq<Call>, env: Env)
    ensures ApplyAll(s, [c] + rest, env) == ApplyAll(Apply(s, c, env), rest, env)
  {
    assert ([c] + rest)[1..] == rest;
  }

  lemma ApplyAllSnoc(s: Session, calls: seq<Call>, c: Call, env: Env)
    ensures ApplyAll(s, calls + [c], env) == Apply(ApplyAll(s, calls, env), c, env)
  {
    ApplyAllConcat(s, calls, [c], env);
    ApplyAllCons(ApplyAll(s, calls, env), c, [], env);
  }

  lemma {:induction false} ApplyAllConcat(s: Session, a: seq<Call>, b: seq<Call>, env: Env)
    ensures ApplyAll(s, a + b, env) == ApplyAll(ApplyAll(s, a, env), b, env)
    decreases |a|
  {
    if a != [] {
      assert (a + b)[0] == a[0];
      assert (a + b)[1..] == a[1..] + b;
      ApplyAllConcat(Apply(s, a[0], env), a[1..], b, env);
    } else {
      assert a + b == b;
    }
  }

  /** None of the calls opens or closes the pipe. */
  predicate KeepsPipe(calls: seq<Call>) { forall i :: 0 <= i < |calls| ==> !calls[i].PipeOpen? && !calls[i].PipeClose? }

  /** None of the calls attaches the chat. */
  predicate KeepsAttach(calls: seq<Call>) { forall i :: 0 <= i < |calls| ==> !calls[i].ChatAttach? }

  /** None of the calls installs or removes a callback. */
  predicate KeepsCallback(calls: seq<Call>) { forall i :: 0 <= i < |calls| ==> !calls[i].SetCallback? }

  /** What a sequence of calls leaves alone: each part of the session changes only through its own calls. */
  lemma {:induction false} Frame(s: Session, calls: seq<Call>, env: Env)
    ensures var after := ApplyAll(s, calls, env);
      (KeepsPipe(calls) ==> after.pipeOpen == s.pipeOpen) &&
      (KeepsAttach(calls) ==> after.attached == s.attached) &&
      (KeepsCallback(calls) ==> after.callback == s.callback) &&
      (KeepsCallback(calls) && s.callback == NoCallback ==> after.response == s.response)
    decreases |calls|
  {
    if calls != [] {
      Frame(Apply(s, calls[0], env), calls[1..], env);
      assert forall i :: 1 <= i < |calls| ==> calls[1..][i - 1] == calls[i];
    }
  }

  /** The calls an early-exit chain makes keep whatever all of its calls keep. */
  lemma PrefixKeeps(calls: seq<Call>, env: Env)
    ensures KeepsPipe(calls) ==> KeepsPipe(Prefix(calls, env))
    ensures KeepsAttach(calls) ==> KeepsAttach(Prefix(calls, env))
    ensures KeepsCallback(calls) ==> KeepsCallback(Prefix(calls, env))
  {
    var done := Prefix(calls, env);
    assert forall i :: 0 <= i < |done| ==> done[i] == calls[i];
  }

  /** Two runs of calls together keep what both keep. */
  lemma KeepsConcat(a: seq<Call>, b: seq<Call>)
    ensures KeepsPipe(a) && KeepsPipe(b) ==> KeepsPipe(a + b)
    ensures KeepsAttach(a) && KeepsAttach(b) ==> KeepsAttach(a + b)
    ensures KeepsCallback(a) && KeepsCallback(b) ==> KeepsCallback(a + b)
  {
    assert forall i :: 0 <= i < |a + b| ==> (a + b)[i] == if i < |a| then a[i] else b[i - |a|];
  }

  /** Something the device does, as the ghost trace records it. */
  datatype Event =
    | Take                      // k_sem_take on the device lock
    | Give                      // k_sem_give on the device lock
    | AwaitReady(deadline: nat) // k_sleep until the power-management deadline
    | Invoke(call: Call)

  function Invocations(calls: seq<Call>): (es: seq<Event>)
    ensures |es| == |calls|
  {
    if calls == [] then [] else [Invoke(calls[0])] + Invocations(calls[1..])
  }

  lemma {:induction false} InvocationsAt(calls: seq<Call>)
    ensures forall i :: 0 <= i < |calls| ==> Invocations(calls)[i] == Invoke(calls[i])
    decreases |calls|
  {
    if calls != [] {
      InvocationsAt(calls[1..]);
    }
  }

  lemma {:induction false} InvocationsConcat(a: seq<Call>, b: seq<Call>)
    ensures Invocations(a + b) == Invocations(a) + Invocations(b)
  {
    var l, r := Invocations(a + b), Invocations(a) + Invocations(b);
    InvocationsAt(a + b);
    InvocationsAt(a);
    InvocationsAt(b);
    assert |l| == |r|;
    forall i | 0 <= i < |l| ensures l[i] == r[i] {
      if i < |a| { assert (a + b)[i] == a[i]; } else { assert (a + b)[i] == b[i - |a|]; }
    }
  }

  lemma InvocationsSnoc(calls: seq<Call>, c: Call)
    ensures Invocations(calls + [c]) == Invocations(calls) + [Invoke(c)]
  {
    InvocationsConcat(calls, [c]);
  }

  /** The lock is taken once at the start and given back once at the end, with no lock event between. */
  predicate LockedOnce(events: seq<Event>)
  {
    2 <= |events| && events[0] == Take && events[|events| - 1] == Give &&
    forall i :: 0 < i < |events| - 1 ==> events[i] != Take && events[i] != Give
  }

  /** Bracketing calls and sleeps between one take and one give holds the lock exactly once. */
  lemma Bracketed(middle: seq<Event>)
    requires forall i :: 0 <= i < |middle| ==> middle[i].Invoke? || middle[i].AwaitReady?
    ensures LockedOnce([Take] + middle + [Give])
  {
    var es := [Take] + middle + [Give];
    forall i | 0 < i < |es| - 1 ensures es[i] != Take && es[i] != Give {
      assert es[i] == middle[i - 1];
    }
  }

  /** Every chain run under the lock holds it exactly once. */
  lemma InvocationsLockedOnce(calls: seq<Call>)
    ensures LockedOnce([Take] + Invocations(calls) + [Give])
  {
    InvocationsAt(calls);
    Bracketed(Invocations(calls));
  }

  /**
   * A chain whose first part succeeds: the second part's calls follow the
   * first part's, in the session and in the trace.
   */
  lemma ChainThen(s: Session, log: seq<Event>, a: seq<Call>, b: seq<Call>, env: Env)
    requires a != [] && b != [] && Outcome(a, env) >= 0
    ensures Prefix(a + b, env) == a + Prefix(b, env) && Outcome(a + b, env) == Outcome(b, env)
    ensures ApplyAll(s, Prefix(a + b, env), env) == ApplyAll(ApplyAll(s, a, env), Prefix(b, env), env)
    ensures log + Invocations(Prefix(a + b, env)) == log + Invocations(a) + Invocations(Prefix(b, env))
  {
    ChainConcat(a, b, env);
    ApplyAllConcat(s, a, Prefix(b, env), env);
    InvocationsConcat(a, Prefix(b, env));
  }
}
