/** Running an ordered list of steps against the statuses the remote side reports. Every
    operation that talks to the server is such a list; the first step that does not
    succeed ends the run, and nothing after it is attempted. */
module Steps {
  import opened Wrappers
  import opened Remote

  /** What surrounds a remote action in the source: nothing (the RuntimeError of `exec!`
      propagates), or a `rescue RuntimeError` that exits with a code. */
  datatype Rescue = Propagate | ExitWith(code: int)

  /** How a run ends early. */
  datatype Stop =
    | Raised(message: string)        // an uncaught `raise` of the tool's own
    | ExecFailed(status: Option<int>, script: string)  // the RuntimeError of `exec!`
    | TransferFailed(remotePath: string)
    | Exited(code: int)              // `exit code`
    | Aborted(message: string)       // `abort message`
    | CredentialsUnavailable         // decryption or YAML loading of the credentials failed

  datatype Step =
    | Do(action: Action, rescue: Rescue)
      /** A local command run with `system`, followed by `abort message` unless it
          exited with status 0. */
    | Check(command: string, abortMessage: string)
      /** A point where the source stops unconditionally. */
    | Halt(stop: Stop)

  /** The status observed for the action at each position of a run: `Some(n)` when the
      channel reported exit status `n` (for a transfer or a local command, `Some(0)` is
      success), `None` when no status was ever reported. */
  type Observations = nat -> Option<int>

  datatype RunResult = RunResult(ran: nat, stop: Option<Stop>)

  predicate Succeeds(step: Step, status: Option<int>) {
    !step.Halt? && status == Some(0)
  }

  /** The way a step that did not succeed ends the run. */
  function StopOf(step: Step, status: Option<int>): Stop
    requires !Succeeds(step, status)
  {
    match step
    case Halt(s) => s
    case Check(_, message) => Aborted(message)
    case Do(_, ExitWith(code)) => Exited(code)
    case Do(Exec(_, script), Propagate) => ExecFailed(status, script)
    case Do(Upload(_, _, remotePath), Propagate) => TransferFailed(remotePath)
  }

  /** The first `n` steps, observed from position `base` on, all succeed. */
  predicate Completed(steps: seq<Step>, obs: Observations, base: nat, n: nat)
    requires n <= |steps|
  {
    forall i | 0 <= i < n :: Succeeds(steps[i], obs(base + i))
  }

  /** Position of the first step, from `from` on, that does not succeed; `|steps|` when
      they all do. */
  function FirstFailure(steps: seq<Step>, obs: Observations, base: nat, from: nat): (k: nat)
    requires from <= |steps|
    ensures from <= k <= |steps|
    ensures k < |steps| ==> !Succeeds(steps[k], obs(base + k))
    decreases |steps| - from
  {
    if from == |steps| || !Succeeds(steps[from], obs(base + from)) then from
    else FirstFailure(steps, obs, base, from + 1)
  }

  /** Every step the search passes over succeeds. */
  lemma {:induction false} FirstFailureMeans(steps: seq<Step>, obs: Observations, base: nat, from: nat)
    requires from <= |steps|
    ensures forall i | from <= i < FirstFailure(steps, obs, base, from) :: Succeeds(steps[i], obs(base + i))
    decreases |steps| - from
  {
    if from < |steps| && Succeeds(steps[from], obs(base + from)) {
      FirstFailureMeans(steps, obs, base, from + 1);
    }
  }

  /** Any position before which every step succeeds and at which one fails (or the list
      ends) is the first failure. */
  lemma FirstFailureUnique(steps: seq<Step>, obs: Observations, base: nat, k: nat)
    requires k <= |steps| && Completed(steps, obs, base, k)
    requires k < |steps| ==> !Succeeds(steps[k], obs(base + k))
    ensures FirstFailure(steps, obs, base, 0) == k
  {
    var j := FirstFailure(steps, obs, base, 0);
    FirstFailureMeans(steps, obs, base, 0);
    assert !(j < k);
    assert !(k < j);
  }

  /** Runs `steps`, the first of which is observed at position `base`: the run ends just
      after the first step that does not succeed, which decides how it stops, or after the
      last step when every step succeeds. */
  function Run(steps: seq<Step>, obs: Observations, base: nat): RunResult
  {
    var k := FirstFailure(steps, obs, base, 0);
    if k == |steps| then RunResult(k, None)
    else RunResult(k + 1, Some(StopOf(steps[k], obs(base + k))))
  }

  /** Either every step succeeds and all of them ran, or the steps before the last one
      that ran succeeded and that last one failed and decides how the run stops. */
  lemma RunMeans(steps: seq<Step>, obs: Observations, base: nat)
    ensures Run(steps, obs, base).ran <= |steps|
    ensures Run(steps, obs, base).stop.None? <==> Completed(steps, obs, base, |steps|)
    ensures Run(steps, obs, base).stop.None? ==> Run(steps, obs, base).ran == |steps|
    ensures Run(steps, obs, base).stop.Some? ==>
      var n := Run(steps, obs, base).ran;
      && 0 < n
      && Completed(steps, obs, base, n - 1)
      && !Succeeds(steps[n - 1], obs(base + n - 1))
      && Run(steps, obs, base).stop.value == StopOf(steps[n - 1], obs(base + n - 1))
  {
    var k := FirstFailure(steps, obs, base, 0);
    FirstFailureMeans(steps, obs, base, 0);
    if k < |steps| {
      assert !Completed(steps, obs, base, |steps|);
    }
  }

  /** The first failing step is where the run stops, whatever the later steps are. */
  lemma StopsAtFirstFailure(steps: seq<Step>, obs: Observations, base: nat, k: nat)
    requires k < |steps|
    requires Completed(steps, obs, base, k)
    requires !Succeeds(steps[k], obs(base + k))
    ensures Run(steps, obs, base) == RunResult(k + 1, Some(StopOf(steps[k], obs(base + k))))
  {
    FirstFailureUnique(steps, obs, base, k);
  }

  /** A list that stops early stops the same way with anything appended to it. */
  lemma RunAppendStopped(a: seq<Step>, b: seq<Step>, obs: Observations, base: nat)
    requires Run(a, obs, base).stop.Some?
    ensures Run(a + b, obs, base) == Run(a, obs, base)
  {
    var ka := FirstFailure(a, obs, base, 0);
    FirstFailureMeans(a, obs, base, 0);
    var ab := a + b;
    assert ab[ka] == a[ka];
    assert forall i | 0 <= i < ka :: ab[i] == a[i];
    FirstFailureUnique(ab, obs, base, ka);
    var st := StopOf(a[ka], obs(base + ka));
    assert Run(a, obs, base) == RunResult(ka + 1, Some(st));
    assert Run(ab, obs, base) == RunResult(ka + 1, Some(st));
  }

  /** The search for a failure in `a + b`, once past `a`, is the search in `b`. */
  lemma {:induction false} FirstFailureShift(a: seq<Step>, b: seq<Step>, obs: Observations, base: nat, j: nat)
    requires j <= |b|
    ensures FirstFailure(a + b, obs, base, |a| + j) == |a| + FirstFailure(b, obs, base + |a|, j)
    decreases |b| - j
  {
    if j < |b| {
      assert (a + b)[|a| + j] == b[j];
      assert base + (|a| + j) == (base + |a|) + j;
      if Succeeds(b[j], obs(base + |a| + j)) {
        FirstFailureShift(a, b, obs, base, j + 1);
      }
    }
  }

  /** Steps that succeed are passed over by the search. */
  lemma {:induction false} FirstFailureSkip(a: seq<Step>, b: seq<Step>, obs: Observations, base: nat, j: nat)
    requires j <= |a| && Completed(a, obs, base, |a|)
    ensures FirstFailure(a + b, obs, base, j) == FirstFailure(a + b, obs, base, |a|)
    decreases |a| - j
  {
    if j < |a| {
      assert (a + b)[j] == a[j];
      assert Succeeds(a[j], obs(base + j));
      FirstFailureSkip(a, b, obs, base, j + 1);
    }
  }

  /** After a list that completes, the appended list runs from where it ended. */
  lemma RunAppendCompleted(a: seq<Step>, b: seq<Step>, obs: Observations, base: nat)
    requires Run(a, obs, base).stop.None?
    ensures Run(a + b, obs, base) ==
      RunResult(|a| + Run(b, obs, base + |a|).ran, Run(b, obs, base + |a|).stop)
  {
    var kb := FirstFailure(b, obs, base + |a|, 0);
    FirstFailureAppend(a, b, obs, base);
    if kb < |b| {
      assert (a + b)[|a| + kb] == b[kb];
      assert base + (|a| + kb) == (base + |a|) + kb;
    }
  }

  /** When `a` has no failure, the first failure of `a + b` is that of `b`, shifted. */
  lemma FirstFailureAppend(a: seq<Step>, b: seq<Step>, obs: Observations, base: nat)
    requires FirstFailure(a, obs, base, 0) == |a|
    ensures FirstFailure(a + b, obs, base, 0) == |a| + FirstFailure(b, obs, base + |a|, 0)
  {
    FirstFailureMeans(a, obs, base, 0);
    FirstFailureSkip(a, b, obs, base, 0);
    FirstFailureShift(a, b, obs, base, 0);
  }

  /** Running two lists one after the other is running their concatenation: the second
      list starts only if the first one completed, and is observed from where the first
      one ended. */
  lemma RunAppend(a: seq<Step>, b: seq<Step>, obs: Observations, base: nat)
    ensures Run(a, obs, base).stop.Some? ==> Run(a + b, obs, base) == Run(a, obs, base)
    ensures Run(a, obs, base).stop.None? ==>
      Run(a + b, obs, base) == RunResult(|a| + Run(b, obs, base + |a|).ran, Run(b, obs, base + |a|).stop)
  {
    if Run(a, obs, base).stop.Some? {
      RunAppendStopped(a, b, obs, base);
    } else {
      RunAppendCompleted(a, b, obs, base);
    }
  }

  /** Some step among the first `n` acts on the server. */
  predicate ReachesServer(steps: seq<Step>, n: nat)
    requires n <= |steps|
  {
    exists j | 0 <= j < n :: steps[j].Do?
  }

  /** Actions run one after the other with nothing around them to rescue a failure. */
  function Propagated(actions: seq<Action>): seq<Step> {
    seq(|actions|, i requires 0 <= i < |actions| => Do(actions[i], Propagate))
  }

  /** How an action that did not report status 0 ends a run that does not rescue it:
      `exec!` raises with the status and the script, a transfer with its remote path. */
  function Failure(a: Action, status: Option<int>): Stop {
    match a
    case Exec(_, script) => ExecFailed(status, script)
    case Upload(_, _, remotePath) => TransferFailed(remotePath)
  }

  /** Actions whose failures propagate: the run completes exactly when every action
      reports status 0, and otherwise stops right after the first one that does not,
      with that action's own failure. */
  lemma PropagatedRun(acts: seq<Action>, obs: Observations, base: nat)
    ensures Run(Propagated(acts), obs, base).stop.None? <==>
      forall j | base <= j < base + |acts| :: obs(j) == Some(0)
    ensures Run(Propagated(acts), obs, base).stop.Some? ==>
      var k := Run(Propagated(acts), obs, base).ran - 1;
      && 0 <= k < |acts|
      && (forall j | base <= j < base + k :: obs(j) == Some(0))
      && obs(base + k) != Some(0)
      && Run(Propagated(acts), obs, base).stop == Some(Failure(acts[k], obs(base + k)))
  {
    var steps := Propagated(acts);
    RunMeans(steps, obs, base);
    var r := Run(steps, obs, base);
    if r.stop.None? {
      forall j | base <= j < base + |acts|
        ensures obs(j) == Some(0)
      {
        assert Succeeds(steps[j - base], obs(base + (j - base)));
      }
    } else {
      var k := r.ran - 1;
      forall j | base <= j < base + k
        ensures obs(j) == Some(0)
      {
        assert Succeeds(steps[j - base], obs(base + (j - base)));
      }
      assert !(obs(base + k) == Some(0)) by {
        assert steps[k] == Do(acts[k], Propagate);
      }
      assert !(forall j | base <= j < base + |acts| :: obs(j) == Some(0)) by {
        assert base <= base + k < base + |acts|;
      }
    }
  }

  /** A way of stopping that only a `Halt` produces: an action or a local check never
      stops a run with it. */
  predicate HaltOnly(st: Stop) {
    st.Raised? || st.CredentialsUnavailable?
  }

  /** A run stops with a halt-only reason only at a `Halt` carrying that reason. */
  lemma StopFromHalt(steps: seq<Step>, obs: Observations, base: nat, st: Stop)
    requires HaltOnly(st)
    requires Halt(st) !in steps
    ensures Run(steps, obs, base).stop != Some(st)
  {
    var k := FirstFailure(steps, obs, base, 0);
    if k < |steps| {
      assert steps[k] != Halt(st);
    }
  }

  /** A list that starts with a `Halt` stops there, before anything is done. */
  lemma HaltFirst(steps: seq<Step>, obs: Observations, base: nat)
    requires |steps| > 0 && steps[0].Halt?
    ensures Run(steps, obs, base) == RunResult(1, Some(steps[0].stop))
  {
    StopsAtFirstFailure(steps, obs, base, 0);
  }

  /** A gate between two lists that may halt the run with `st`: the run stops with `st`
      exactly when the first list completes and the gate is closed, provided neither list
      halts with `st` itself. */
  lemma GateStops(first: seq<Step>, gate: seq<Step>, rest: seq<Step>, obs: Observations, base: nat, st: Stop)
    requires HaltOnly(st)
    requires Halt(st) !in first && Halt(st) !in rest
    requires gate == [] || gate == [Halt(st)]
    ensures Run(first + (gate + rest), obs, base).stop == Some(st)
      <==> Run(first, obs, base).stop.None? && gate == [Halt(st)]
  {
    RunAppend(first, gate + rest, obs, base);
    if Run(first, obs, base).stop.Some? {
      StopFromHalt(first, obs, base, st);
    } else if gate == [] {
      assert gate + rest == rest;
      StopFromHalt(rest, obs, base + |first|, st);
    } else {
      HaltFirst(gate + rest, obs, base + |first|);
    }
  }

  /** The steps of a list of tasks, one task after the other, where `f` gives the steps of
      each task. */
  function Expand<T>(tasks: seq<T>, f: T -> seq<Step>): seq<Step>
    decreases |tasks|
  {
    if tasks == [] then [] else f(tasks[0]) + Expand(tasks[1..], f)
  }

  lemma {:induction false} ExpandAppend<T>(a: seq<T>, b: seq<T>, f: T -> seq<Step>)
    ensures Expand(a + b, f) == Expand(a, f) + Expand(b, f)
    decreases |a|
  {
    if a == [] {
      assert a + b == b;
    } else {
      assert (a + b)[1..] == a[1..] + b;
      ExpandAppend(a[1..], b, f);
    }
  }

  /** Tasks none of whose steps is `Halt(st)` expand to steps none of which is. */
  lemma {:induction false} ExpandAvoids<T>(tasks: seq<T>, f: T -> seq<Step>, st: Stop)
    requires forall x | x in tasks :: Halt(st) !in f(x)
    ensures Halt(st) !in Expand(tasks, f)
    decreases |tasks|
  {
    if tasks != [] {
      assert tasks[0] in tasks;
      assert forall x | x in tasks[1..] :: x in tasks;
      ExpandAvoids(tasks[1..], f, st);
    }
  }

  /** A task that may halt the run with `st`, between tasks that never do: the run stops
      with `st` exactly when the tasks before it complete and it halts. */
  lemma ExpandGate<T>(first: seq<T>, gate: T, rest: seq<T>, f: T -> seq<Step>, obs: Observations, base: nat, st: Stop)
    requires HaltOnly(st)
    requires forall x | x in first :: Halt(st) !in f(x)
    requires forall x | x in rest :: Halt(st) !in f(x)
    requires f(gate) == [] || f(gate) == [Halt(st)]
    ensures Run(Expand(first + [gate] + rest, f), obs, base).stop == Some(st)
      <==> Run(Expand(first, f), obs, base).stop.None? && f(gate) == [Halt(st)]
  {
    ExpandAppend(first + [gate], rest, f);
    ExpandAppend(first, [gate], f);
    assert Expand([gate], f) == f(gate) by {
      assert [gate][1..] == [];
    }
    ExpandAvoids(first, f, st);
    ExpandAvoids(rest, f, st);
    assert Expand(first, f) + f(gate) + Expand(rest, f) == Expand(first, f) + (f(gate) + Expand(rest, f));
    GateStops(Expand(first, f), f(gate), Expand(rest, f), obs, base, st);
  }

  /** A list of steps completes exactly when both its parts do. */
  lemma RunCompletes(a: seq<Step>, b: seq<Step>, obs: Observations, base: nat)
    ensures Run(a + b, obs, base).stop.None?
      <==> Run(a, obs, base).stop.None? && Run(b, obs, base + |a|).stop.None?
  {
    RunAppend(a, b, obs, base);
  }
}
