/** The command channel: how execute wraps a command, how it decides from the
    captured output whether the command succeeded, and what a run of several
    commands leaves in the log when the first failure aborts it. */
module Remote {
  import opened Wrappers
  import opened Text
  import opened Commands

  /** What ssh2_exec gives back: a stream whose text is read to the end, or
      no stream at all. */
  datatype Reply = Captured(text: string) | NoStream

  /** An entry of the task's log of remote effects. */
  datatype Event = Sent(command: string) | Ran(command: string)

  /** The remote host: its reply to the command sent as the n-th log entry. */
  type Responder = (nat, string) -> Reply

  /** The log after a run, and whether the run ended normally or by an
      exception carrying a message. */
  datatype Trace = Trace(log: seq<Event>, outcome: Outcome)

  const Sentinel: string := "__COMPLETE"
  /** The messages of the exceptions execute throws. */
  const NoStreamError := "Could not execute command!"
  const FailurePrefix := "Failed executing command : "

  /** The command line execute sends for `cmd`. */
  function Wire(cmd: string): string {
    "(" + cmd + "  2>&1) && echo " + Sentinel
  }

  /** execute's success rule: the call returns iff there was a stream and its
      text contains the sentinel or an override is set, and then returns the
      text with the sentinel deleted; otherwise it throws. */
  function Judge(reply: Reply, ignoreErrors: bool, failOkay: bool): (r: Result<string>)
    ensures r.Ok? <==> reply.Captured? && (Contains(reply.text, Sentinel) || ignoreErrors || failOkay)
    ensures r.Ok? ==> r.value == DeleteAll(reply.text, Sentinel)
    ensures reply.Captured? && r.Err? ==> r.error == FailurePrefix + reply.text
    ensures reply.NoStream? ==> r == Err(NoStreamError)
  {
    match reply
    case NoStream => Err(NoStreamError)
    case Captured(data) =>
      if Find(data, Sentinel).Some? || ignoreErrors || failOkay then Ok(DeleteAll(data, Sentinel))
      else Err(FailurePrefix + data)
  }

  /** Output without the sentinel, accepted through an override, comes back
      unchanged. */
  lemma UnmarkedOutputUnchanged(text: string, ignoreErrors: bool, failOkay: bool)
    requires !Contains(text, Sentinel) && (ignoreErrors || failOkay)
    ensures Judge(Captured(text), ignoreErrors, failOkay) == Ok(text)
  {
    DeleteAllIdentity(text, Sentinel);
  }

  /** The returned text is the captured text cut at the sentinels and run
      together: inserting the sentinel at the cuts gives the captured text. */
  lemma StrippedOutputPieces(text: string, ignoreErrors: bool, failOkay: bool)
    requires Judge(Captured(text), ignoreErrors, failOkay).Ok?
    ensures Judge(Captured(text), ignoreErrors, failOkay).value == Join(Pieces(text, Sentinel), [])
    ensures Join(Pieces(text, Sentinel), Sentinel) == text
  {
    DeleteAllJoinsPieces(text, Sentinel);
    JoinPieces(text, Sentinel);
  }

  /** The one-pass deletion can leave a sentinel behind: when the sentinel
      is split as `x + y` and no occurrence starts inside `x`, the output
      `x + __COMPLETE + y` is accepted, and deleting its inner occurrence
      joins the two halves into a new one. */
  lemma StrippedOutputMayKeepSentinel(x: string, y: string, ignoreErrors: bool, failOkay: bool)
    requires x != [] && x + y == Sentinel
    requires forall k: nat :: k < |x| ==> !OccursAt(x + Sentinel + y, Sentinel, k)
    ensures Judge(Captured(x + Sentinel + y), ignoreErrors, failOkay) == Ok(Sentinel)
  {
    var s := x + Sentinel + y;
    assert s[|x|..|x| + |Sentinel|] == Sentinel;
    assert OccursAt(s, Sentinel, |x|);
    DeleteAllAfterPrefix(x, Sentinel, y);
  }

  /** For instance "__COMP__COMPLETELETE". */
  lemma SentinelRejoinExample()
    ensures Judge(Captured("__COMP__COMPLETELETE"), false, false) == Ok(Sentinel)
  {
    var x, y := "__COMP", "LETE";
    var s := x + Sentinel + y;
    assert s == "__COMP__COMPLETELETE";
    assert forall k: nat :: k < |x| ==> !OccursAt(s, Sentinel, k) by {
      forall k: nat | k < |x| ensures !OccursAt(s, Sentinel, k) {
        if k == 0 {
          assert s[6] != Sentinel[6];
        } else if k == 1 {
          assert s[2] != Sentinel[1];
        } else {
          assert s[k] != Sentinel[0];
        }
      }
    }
    StrippedOutputMayKeepSentinel(x, y, false, false);
  }

  function EventOf(a: Action): Event {
    match a
    case Exec(cmd, _) => Sent(Wire(cmd))
    case Local(cmd) => Ran(cmd)
  }

  /** The log entries of actions that all ran. */
  function Events(acts: seq<Action>): (r: seq<Event>)
    ensures |r| == |acts|
  {
    if acts == [] then [] else [EventOf(acts[0])] + Events(acts[1..])
  }

  /** Whether action `a`, logged after `log`, lets the run go on. */
  function StepOutcome(remote: Responder, ignoreErrors: bool, log: seq<Event>, a: Action): Outcome {
    match a
    case Local(_) => Pass
    case Exec(cmd, failOkay) =>
      match Judge(remote(|log|, Wire(cmd)), ignoreErrors, failOkay)
      case Ok(_) => Pass
      case Err(msg) => Fail(msg)
  }

  /** Issue `acts` after `log`, one by one, until one fails. */
  function Perform(remote: Responder, ignoreErrors: bool, log: seq<Event>, acts: seq<Action>): Trace
    decreases |acts|
  {
    if acts == [] then Trace(log, Pass)
    else
      var next := log + [EventOf(acts[0])];
      match StepOutcome(remote, ignoreErrors, log, acts[0])
      case Fail(msg) => Trace(next, Fail(msg))
      case Pass => Perform(remote, ignoreErrors, next, acts[1..])
  }

  /** Running two lists one after the other is running their concatenation:
      the second starts where the first ended, unless the first failed. */
  lemma {:induction false} PerformAppend(remote: Responder, ignoreErrors: bool, log: seq<Event>,
                                         a: seq<Action>, b: seq<Action>)
    ensures Perform(remote, ignoreErrors, log, a + b) ==
            var t := Perform(remote, ignoreErrors, log, a);
            if t.outcome.Fail? then t else Perform(remote, ignoreErrors, t.log, b)
    decreases |a|
  {
    if a == [] {
      assert a + b == b;
    } else {
      assert (a + b)[0] == a[0];
      assert (a + b)[1..] == a[1..] + b;
      var next := log + [EventOf(a[0])];
      if StepOutcome(remote, ignoreErrors, log, a[0]).Pass? {
        PerformAppend(remote, ignoreErrors, next, a[1..], b);
      }
    }
  }

  /** A run of one action logs it and ends as that action does. */
  lemma PerformSingle(remote: Responder, ignoreErrors: bool, log: seq<Event>, a: Action)
    ensures Perform(remote, ignoreErrors, log, [a]) ==
            Trace(log + [EventOf(a)], StepOutcome(remote, ignoreErrors, log, a))
  {
    assert [a][1..] == [];
  }

  /** A run of `a` followed by `rest`: `a` is logged, and the run stops
      there if `a` failed. */
  lemma PerformFirst(remote: Responder, ignoreErrors: bool, log: seq<Event>, a: Action, rest: seq<Action>)
    ensures StepOutcome(remote, ignoreErrors, log, a).Fail? ==>
              Perform(remote, ignoreErrors, log, [a] + rest) ==
              Trace(log + [EventOf(a)], StepOutcome(remote, ignoreErrors, log, a))
    ensures StepOutcome(remote, ignoreErrors, log, a).Pass? ==>
              Perform(remote, ignoreErrors, log, [a] + rest) == Perform(remote, ignoreErrors, log + [EventOf(a)], rest)
  {
    assert ([a] + rest)[0] == a && ([a] + rest)[1..] == rest;
  }

  /** Continue a run that ended as `t` with `acts`, unless it failed. */
  function Then(remote: Responder, ignoreErrors: bool, t: Trace, acts: seq<Action>): Trace {
    if t.outcome.Fail? then t else Perform(remote, ignoreErrors, t.log, acts)
  }

  /** Continuing a normal run with one action. */
  lemma ThenSingle(remote: Responder, ignoreErrors: bool, t: Trace, a: Action)
    requires t.outcome.Pass?
    ensures Then(remote, ignoreErrors, t, [a]) ==
            Trace(t.log + [EventOf(a)], StepOutcome(remote, ignoreErrors, t.log, a))
  {
    PerformSingle(remote, ignoreErrors, t.log, a);
  }

  /** Continuing with `a + b` is continuing with `a`, then with `b`. */
  lemma ThenAppend(remote: Responder, ignoreErrors: bool, t: Trace, a: seq<Action>, b: seq<Action>)
    ensures Then(remote, ignoreErrors, t, a + b) ==
            Then(remote, ignoreErrors, Then(remote, ignoreErrors, t, a), b)
  {
    if t.outcome.Pass? {
      PerformAppend(remote, ignoreErrors, t.log, a, b);
    }
  }

  /** A run that failed ignores whatever was to follow. */
  lemma FailedRunStops(remote: Responder, ignoreErrors: bool, log: seq<Event>, a: seq<Action>, b: seq<Action>)
    requires Perform(remote, ignoreErrors, log, a).outcome.Fail?
    ensures Perform(remote, ignoreErrors, log, a + b) == Perform(remote, ignoreErrors, log, a)
  {
    PerformAppend(remote, ignoreErrors, log, a, b);
  }

  /** A run of `a` that ended normally with log `mid`, followed by a run of
      `b` from there, is a run of `a + b`. */
  lemma Extend(remote: Responder, ignoreErrors: bool, log: seq<Event>, a: seq<Action>, mid: seq<Event>,
               b: seq<Action>, t: Trace)
    requires Perform(remote, ignoreErrors, log, a) == Trace(mid, Pass)
    requires Perform(remote, ignoreErrors, mid, b) == t
    ensures Perform(remote, ignoreErrors, log, a + b) == t
  {
    PerformAppend(remote, ignoreErrors, log, a, b);
  }

  /** Steps issued one after the other, each continuing the run the
      previous one left, are one run of their concatenation. */
  lemma Steps2(remote: Responder, ignoreErrors: bool, log: seq<Event>,
               a: seq<Action>, b: seq<Action>, t1: Trace, t2: Trace)
    requires Perform(remote, ignoreErrors, log, a) == t1
    requires Then(remote, ignoreErrors, t1, b) == t2
    ensures Perform(remote, ignoreErrors, log, a + b) == t2
  {
    PerformAppend(remote, ignoreErrors, log, a, b);
  }

  lemma Steps3(remote: Responder, ignoreErrors: bool, log: seq<Event>,
               a: seq<Action>, b: seq<Action>, c: seq<Action>, t1: Trace, t2: Trace, t3: Trace)
    requires Perform(remote, ignoreErrors, log, a) == t1
    requires Then(remote, ignoreErrors, t1, b) == t2
    requires Then(remote, ignoreErrors, t2, c) == t3
    ensures Perform(remote, ignoreErrors, log, a + b + c) == t3
  {
    Steps2(remote, ignoreErrors, log, a, b, t1, t2);
    Steps2(remote, ignoreErrors, log, a + b, c, t2, t3);
  }

  /** A run that ends normally has logged every one of its actions. */
  lemma {:induction false} PerformPassLogsAll(remote: Responder, ignoreErrors: bool, log: seq<Event>,
                                              acts: seq<Action>)
    requires Perform(remote, ignoreErrors, log, acts).outcome.Pass?
    ensures Perform(remote, ignoreErrors, log, acts).log == log + Events(acts)
    decreases |acts|
  {
    if acts == [] {
      assert log + Events(acts) == log;
    } else {
      var next := log + [EventOf(acts[0])];
      assert StepOutcome(remote, ignoreErrors, log, acts[0]) == Pass;
      assert Perform(remote, ignoreErrors, log, acts) == Perform(remote, ignoreErrors, next, acts[1..]);
      PerformPassLogsAll(remote, ignoreErrors, next, acts[1..]);
      assert Events(acts) == [EventOf(acts[0])] + Events(acts[1..]);
      assert next + Events(acts[1..]) == log + Events(acts);
    }
  }

  /** With every reply captured, a run ends normally and logs every action
      when errors are ignored or every command is failOkay (the permission
      commands). */
  lemma {:induction false} PerformCompletes(remote: Responder, ignoreErrors: bool, log: seq<Event>,
                                            acts: seq<Action>)
    requires forall k: nat, w: string :: remote(k, w).Captured?
    requires ignoreErrors || forall i :: 0 <= i < |acts| ==> acts[i].Local? || acts[i].failOkay
    ensures Perform(remote, ignoreErrors, log, acts) == Trace(log + Events(acts), Pass)
    decreases |acts|
  {
    if acts != [] {
      var next := log + [EventOf(acts[0])];
      assert StepOutcome(remote, ignoreErrors, log, acts[0]) == Pass;
      PerformCompletes(remote, ignoreErrors, next, acts[1..]);
      assert next + Events(acts[1..]) == log + Events(acts);
    } else {
      assert log + Events(acts) == log;
    }
  }

  /** A failed run ends with the command that failed, and the exception
      carries its raw output (or says that no stream was opened). */
  lemma {:induction false} FailureCarriesOutput(remote: Responder, ignoreErrors: bool, log: seq<Event>,
                                                acts: seq<Action>)
    requires Perform(remote, ignoreErrors, log, acts).outcome.Fail?
    ensures var t := Perform(remote, ignoreErrors, log, acts);
            |t.log| > |log| && t.log[|t.log| - 1].Sent? &&
            var reply := remote(|t.log| - 1, t.log[|t.log| - 1].command);
            || (reply.NoStream? && t.outcome.error == NoStreamError)
            || (reply.Captured? && !ignoreErrors && !Contains(reply.text, Sentinel)
                && t.outcome.error == FailurePrefix + reply.text)
    decreases |acts|
  {
    var next := log + [EventOf(acts[0])];
    if StepOutcome(remote, ignoreErrors, log, acts[0]).Pass? {
      FailureCarriesOutput(remote, ignoreErrors, next, acts[1..]);
    } else {
      assert acts[0].Exec?;
    }
  }
}
