/** The command executor. A forked command's exit status comes from the
    outside world and is an input: `ok(n)` says whether the command issued
    as step `n` of this invocation exits with status 0. What an invocation
    does is recorded as its steps (commands forked and files written, in
    order) and the state the process is left in. */
module Executor {
  import opened Commands

  /** `ok(n)`: the command issued as step `n` succeeds. */
  type Outcomes = nat -> bool

  /** The state of the process. `Running` when the handler has not stopped
      it (a handler that returns leaves the process to end with status 0);
      `Exited(code)` after `exit`; `Replaced(command)` after
      `execute_command`, whose `exec` hands the process over to `command`. */
  datatype Status = Running | Exited(code: int) | Replaced(command: string)

  /** A side effect the CLI requests: a command it forks and waits for, or
      a file it writes itself (`File.write`). */
  datatype Step = Run(command: string) | Write(path: string, content: string)

  datatype Trace = Trace(steps: seq<Step>, status: Status)

  /** What `run_command` does after the forked command has finished. */
  datatype Decision = ReturnStatus(success: bool) | YieldToBlock | ExitOne

  /** The failure policy of `run_command`: a success is returned; a failure
      runs the caller's block if there is one, otherwise exits with status 1
      when `exit_on_failure` is set and is returned when it is not. */
  function Decide(success: bool, hasBlock: bool, exitOnFailure: bool): (d: Decision)
    ensures success ==> d == ReturnStatus(true)
    ensures d == YieldToBlock <==> !success && hasBlock
    ensures d == ExitOne <==> !success && !hasBlock && exitOnFailure
    ensures d == ReturnStatus(false) <==> !success && !hasBlock && !exitOnFailure
  {
    if success then ReturnStatus(true)
    else if hasBlock then YieldToBlock
    else if exitOnFailure then ExitOne
    else ReturnStatus(false)
  }

  /** `op`, issued as step `i`, is a command that fails. Writes never do. */
  predicate Fails(op: Step, i: nat, ok: Outcomes) {
    op.Run? && !ok(i)
  }

  /** The position of the first failing command of `ops` (issued from step
      `from` on), or `|ops|` when every command succeeds. */
  function FirstFailure(ops: seq<Step>, from: nat, ok: Outcomes): (k: nat)
    ensures k <= |ops|
    ensures forall i | 0 <= i < k :: !Fails(ops[i], from + i, ok)
    ensures k < |ops| ==> Fails(ops[k], from + k, ok)
    decreases |ops|
  {
    if ops == [] || Fails(ops[0], from, ok) then 0
    else
      var k := FirstFailure(ops[1..], from + 1, ok);
      assert forall i | 1 <= i < k + 1 :: ops[i] == ops[1..][i - 1] && from + i == (from + 1) + (i - 1);
      k + 1
  }

  /** The first failure is the one position before which nothing fails and
      at which a command fails (or the end). */
  lemma FirstFailureIs(ops: seq<Step>, from: nat, ok: Outcomes, k: nat)
    requires k <= |ops|
    requires forall i | 0 <= i < k :: !Fails(ops[i], from + i, ok)
    requires k < |ops| ==> Fails(ops[k], from + k, ok)
    ensures FirstFailure(ops, from, ok) == k
  {
  }

  /** Steps issued one after another, each command through `run_command`
      with its defaults (`exit_on_failure: true`, no block): everything up
      to the first failing command is issued, that command is the last step,
      and the process exits with status 1. Writes always go through. */
  function Perform(ops: seq<Step>, from: nat, ok: Outcomes): (t: Trace)
    ensures t.status == Running || t.status == Exited(1)
    ensures t.steps <= ops
    ensures t.status == Running <==> t.steps == ops && FirstFailure(ops, from, ok) == |ops|
  {
    var k := FirstFailure(ops, from, ok);
    if k == |ops| then Trace(ops, Running) else Trace(ops[..k + 1], Exited(1))
  }

  /** Running `a` and then `b` is running `a + b`: `b` starts only if `a`
      left the process running, at the step after the last of `a`. */
  lemma PerformAppend(a: seq<Step>, b: seq<Step>, from: nat, ok: Outcomes)
    ensures Perform(a + b, from, ok) ==
      var ta := Perform(a, from, ok);
      if ta.status != Running then ta
      else
        var tb := Perform(b, from + |a|, ok);
        Trace(ta.steps + tb.steps, tb.status)
  {
    var ab := a + b;
    var ka := FirstFailure(a, from, ok);
    assert forall i | 0 <= i < |a| :: ab[i] == a[i];
    if ka < |a| {
      FirstFailureIs(ab, from, ok, ka);
      assert ab[..ka + 1] == a[..ka + 1];
    } else {
      var kb := FirstFailure(b, from + |a|, ok);
      forall i | |a| <= i < |a| + kb ensures !Fails(ab[i], from + i, ok) {
        assert ab[i] == b[i - |a|] && from + i == (from + |a|) + (i - |a|);
      }
      if kb < |b| {
        assert ab[|a| + kb] == b[kb];
      }
      FirstFailureIs(ab, from, ok, |a| + kb);
      if kb < |b| {
        assert ab[..|a| + kb + 1] == a + b[..kb + 1];
      }
    }
  }

  /** The process exits exactly when some command fails, and the first
      failing command is the last step issued; every command before it
      succeeded. */
  lemma PerformStopsAtFirstFailure(ops: seq<Step>, from: nat, ok: Outcomes)
    ensures var t := Perform(ops, from, ok);
      t.status == Running <==> forall i | 0 <= i < |ops| :: !Fails(ops[i], from + i, ok)
    ensures var t := Perform(ops, from, ok);
      t.status == Exited(1) ==>
        var k := |t.steps| - 1;
        k >= 0 && Fails(ops[k], from + k, ok) &&
        forall i | 0 <= i < k :: !Fails(ops[i], from + i, ok)
  {
    var k := FirstFailure(ops, from, ok);
    if k < |ops| {
      assert !Fails(ops[k], from + k, ok) ==> false;
    }
  }

  /** Once the process has stopped, later steps are never issued. */
  lemma PerformStopped(a: seq<Step>, b: seq<Step>, from: nat, ok: Outcomes)
    requires Perform(a, from, ok).status != Running
    ensures Perform(a + b, from, ok) == Perform(a, from, ok)
  {
    PerformAppend(a, b, from, ok);
  }

  /** One more step: issued only while the process runs, and it stops the
      process exactly when it is a failing command. */
  lemma PerformSnoc(ops: seq<Step>, op: Step, from: nat, ok: Outcomes)
    ensures Perform(ops + [op], from, ok) ==
      var t := Perform(ops, from, ok);
      if t.status != Running then t
      else Trace(t.steps + [op], if Fails(op, from + |ops|, ok) then Exited(1) else Running)
  {
    PerformAppend(ops, [op], from, ok);
    if Fails(op, from + |ops|, ok) {
      FirstFailureIs([op], from + |ops|, ok, 0);
      assert [op][..1] == [op];
    } else {
      FirstFailureIs([op], from + |ops|, ok, 1);
    }
  }

  /** Commands alone, issued from the start of an invocation: the process
      keeps running exactly when all of them succeed, and otherwise stops
      right after the first failing one. */
  lemma PerformCommands(ops: seq<Step>, ok: Outcomes)
    requires forall i | 0 <= i < |ops| :: ops[i].Run?
    ensures var t := Perform(ops, 0, ok);
      t.steps == ops[..|t.steps|] &&
      (t.status == Running <==> forall i | 0 <= i < |ops| :: ok(i)) &&
      (t.status != Running ==>
        t.status == Exited(1) && 0 < |t.steps| <= |ops| && !ok(|t.steps| - 1) &&
        forall i | 0 <= i < |t.steps| - 1 :: ok(i))
  {
    var k := FirstFailure(ops, 0, ok);
    assert forall i | 0 <= i < k :: ok(i) by {
      forall i | 0 <= i < k ensures ok(i) {
        assert !Fails(ops[i], 0 + i, ok);
      }
    }
    if k < |ops| {
      assert Fails(ops[k], 0 + k, ok);
    }
  }

  /** A process that stopped within the first `k` steps of `ops` never
      issues the rest. */
  lemma PerformStoppedWithin(ops: seq<Step>, k: nat, from: nat, ok: Outcomes)
    requires k <= |ops| && Perform(ops[..k], from, ok).status != Running
    ensures Perform(ops, from, ok) == Perform(ops[..k], from, ok)
  {
    assert ops == ops[..k] + ops[k..];
    PerformStopped(ops[..k], ops[k..], from, ok);
  }

  /** The same, after steps `start` that are issued in full. */
  lemma PerformStoppedWithinAfter(start: seq<Step>, ops: seq<Step>, k: nat, from: nat, ok: Outcomes)
    requires k <= |ops| && Perform(start + ops[..k], from, ok).status != Running
    ensures Perform(start + ops, from, ok) == Perform(start + ops[..k], from, ok)
  {
    assert start + ops == (start + ops[..k]) + ops[k..];
    PerformStopped(start + ops[..k], ops[k..], from, ok);
  }
}
