/** `CpsExecutor::processLoop`: an explicit stack of runs, and the recursive evaluation it stands for. */
module CpsLoop {
  import opened Options
  import opened Arithmetic
  import opened AccountStore

  /** The variant in `CpsExecuteResult`: what the last run says about the gas left. */
  datatype Payload = EvmResult(remainingGas: nat) | ScillaResult(gasRemained: nat)

  datatype RunResult = RunResult(success: bool, payload: Payload)

  /** What `Run` does: a new world, its own new state, a result, and the runs it pushed. */
  datatype Outcome<W, J> = Outcome(world: W, after: J, result: RunResult, pushed: seq<J>)

  /** The kinds of runs, as three arbitrary functions. */
  datatype Machine<!W, !J> = Machine(
    run: (J, W) -> Outcome<W, J>,
    resumable: J -> bool,
    feedback: (J, J, RunResult) -> J)

  /** The queue of runs, which is only used at its back. */
  datatype Stack<+J> = Bottom | On(top: J, rest: Stack<J>)

  function PushAll<J>(s: Stack<J>, pushed: seq<J>): Stack<J> {
    if pushed == [] then s else On(pushed[|pushed| - 1], PushAll(s, pushed[..|pushed| - 1]))
  }

  /** `upper` on top of `lower`. */
  function Over<J>(upper: Stack<J>, lower: Stack<J>): Stack<J> {
    match upper
    case Bottom => lower
    case On(j, rest) => On(j, Over(rest, lower))
  }

  lemma {:induction false} PushOver<J>(upper: Stack<J>, lower: Stack<J>, pushed: seq<J>)
    ensures PushAll(Over(upper, lower), pushed) == Over(PushAll(upper, pushed), lower)
  {
    if pushed != [] {
      PushOver(upper, lower, pushed[..|pushed| - 1]);
    }
  }

  /** How the loop ends: the stack left over, the world, the last run with its result, and the number of runs. */
  datatype End<W, J> = End(stack: Stack<J>, world: W, last: J, result: RunResult, runs: nat)

  /** The run now on top receives the result of the one just finished, if it can be resumed. */
  function Feed<W, J>(m: Machine<W, J>, s: Stack<J>, prev: J, result: RunResult): (r: Stack<J>)
    ensures r.Bottom? <==> s.Bottom?
  {
    if s.On? && m.resumable(s.top) then On(m.feedback(s.top, prev, result), s.rest) else s
  }

  /** The loop, for up to `n` runs; `None` if it has not ended by then. */
  function Exec<W, J>(m: Machine<W, J>, s: Stack<J>, world: W, n: nat): (end: Option<End<W, J>>)
    requires s.On?
    ensures end.Some? ==> 1 <= end.value.runs <= n
    ensures end.Some? && end.value.result.success ==> end.value.stack.Bottom?
    decreases n
  {
    if n == 0 then None
    else
      var o := m.run(s.top, world);
      var left := PushAll(s.rest, o.pushed);
      if !o.result.success || left.Bottom? then Some(End(left, o.world, o.after, o.result, 1))
      else Later(Exec(m, Feed(m, left, o.after, o.result), o.world, n - 1), 1)
  }

  function Later<W, J>(end: Option<End<W, J>>, runs: nat): Option<End<W, J>> {
    if end.None? then None else Some(end.value.(runs := end.value.runs + runs))
  }

  /** One turn of the loop, `runs` runs after its start. */
  lemma ExecTurn<W, J>(m: Machine<W, J>, s: Stack<J>, world: W, n: nat, runs: nat, end: Option<End<W, J>>)
    requires s.On? && end.Some? && Later(Exec(m, s, world, n), runs) == end
    ensures n > 0
    ensures var o := m.run(s.top, world);
      var left := PushAll(s.rest, o.pushed);
      if !o.result.success || left.Bottom? then end.value == End(left, o.world, o.after, o.result, runs + 1)
      else Later(Exec(m, Feed(m, left, o.after, o.result), o.world, n - 1), runs + 1) == end
  {}

  /** What the loop does after the upper part of the stack has come to `end`. */
  function Resume<W, J>(m: Machine<W, J>, lower: Stack<J>, end: End<W, J>, n: nat): Option<End<W, J>>
    requires end.runs <= n
  {
    if !end.result.success then Some(end.(stack := Over(end.stack, lower)))
    else if lower.Bottom? then Some(end)
    else Later(Exec(m, Feed(m, lower, end.last, end.result), end.world, n - end.runs), end.runs)
  }

  function ResumeAt<W, J>(m: Machine<W, J>, lower: Stack<J>, end: Option<End<W, J>>, n: nat): Option<End<W, J>>
    requires end.Some? ==> end.value.runs <= n
  {
    if end.None? then None else Resume(m, lower, end.value, n)
  }

  lemma ResumeLater<W, J>(m: Machine<W, J>, lower: Stack<J>, end: Option<End<W, J>>, n: nat)
    requires end.Some? ==> end.value.runs <= n
    ensures ResumeAt(m, lower, Later(end, 1), n + 1) == Later(ResumeAt(m, lower, end, n), 1)
  {}

  /**
    Splitting the stack anywhere: the loop first does exactly what the upper part alone does. If that fails, the
    lower part is left untouched. If it succeeds, the top of the lower part gets the result of the run finished
    last, and then the lower part goes on.
  */
  lemma {:induction false} StackSplits<W, J>(m: Machine<W, J>, lower: Stack<J>, upper: Stack<J>, world: W, n: nat)
    requires upper.On?
    ensures Exec(m, Over(upper, lower), world, n) == ResumeAt(m, lower, Exec(m, upper, world, n), n)
    decreases n
  {
    if n > 0 {
      var o := m.run(upper.top, world);
      var left := PushAll(upper.rest, o.pushed);
      PushOver(upper.rest, lower, o.pushed);
      if o.result.success && left.On? {
        var fed := Feed(m, left, o.after, o.result);
        assert Feed(m, Over(left, lower), o.after, o.result) == Over(fed, lower);
        StackSplits(m, lower, fed, o.world, n - 1);
        ResumeLater(m, lower, Exec(m, fed, o.world, n - 1), n - 1);
      }
    }
  }

  /**
    Recursive evaluation: run the top; evaluate what it pushed as a call of its own; hand the result to the caller
    below and evaluate that.
  */
  function Eval<W, J>(m: Machine<W, J>, s: Stack<J>, world: W, n: nat): (end: Option<End<W, J>>)
    requires s.On?
    ensures end.Some? ==> 1 <= end.value.runs <= n
    decreases n, 0
  {
    if n == 0 then None
    else
      var o := m.run(s.top, world);
      var callee := PushAll(Bottom, o.pushed);
      if !o.result.success || callee.Bottom? then Return(m, s.rest, End(callee, o.world, o.after, o.result, 1), n)
      else
        var call := Later(Eval(m, Feed(m, callee, o.after, o.result), o.world, n - 1), 1);
        if call.None? then None else Return(m, s.rest, call.value, n)
  }

  /** A call has ended above `lower`. */
  function Return<W, J>(m: Machine<W, J>, lower: Stack<J>, call: End<W, J>, n: nat): (end: Option<End<W, J>>)
    requires 1 <= call.runs <= n
    ensures end.Some? ==> 1 <= end.value.runs <= n
    decreases n - call.runs, 1
  {
    if !call.result.success then Some(call.(stack := Over(call.stack, lower)))
    else if lower.Bottom? then Some(call)
    else Later(Eval(m, Feed(m, lower, call.last, call.result), call.world, n - call.runs), call.runs)
  }

  lemma {:induction false} ReturnIsResume<W, J>(m: Machine<W, J>, lower: Stack<J>, call: End<W, J>, n: nat)
    requires 1 <= call.runs <= n
    ensures Return(m, lower, call, n) == Resume(m, lower, call, n)
    decreases n - call.runs, 1
  {
    if call.result.success && lower.On? {
      LoopIsRecursion(m, Feed(m, lower, call.last, call.result), call.world, n - call.runs);
    }
  }

  /** The loop over the explicit stack is this recursion: same end, same leftover stack, same number of runs. */
  lemma {:induction false} LoopIsRecursion<W, J>(m: Machine<W, J>, s: Stack<J>, world: W, n: nat)
    requires s.On?
    ensures Exec(m, s, world, n) == Eval(m, s, world, n)
    decreases n, 0
  {
    if n > 0 {
      var one := On(s.top, Bottom);
      assert s == Over(one, s.rest);
      StackSplits(m, s.rest, one, world, n);
      var o := m.run(s.top, world);
      var callee := PushAll(Bottom, o.pushed);
      if !o.result.success || callee.Bottom? {
        ReturnIsResume(m, s.rest, End(callee, o.world, o.after, o.result, 1), n);
      } else {
        var fed := Feed(m, callee, o.after, o.result);
        LoopIsRecursion(m, fed, o.world, n - 1);
        var call := Later(Exec(m, fed, o.world, n - 1), 1);
        if call.Some? {
          ReturnIsResume(m, s.rest, call.value, n);
        }
      }
    }
  }

  /** A longer wait does not change how the loop ends. */
  lemma {:induction false} ExecStable<W, J>(m: Machine<W, J>, s: Stack<J>, world: W, n: nat, n': nat)
    requires s.On? && n <= n' && Exec(m, s, world, n).Some?
    ensures Exec(m, s, world, n') == Exec(m, s, world, n)
    decreases n
  {
    var o := m.run(s.top, world);
    var left := PushAll(s.rest, o.pushed);
    if o.result.success && left.On? {
      ExecStable(m, Feed(m, left, o.after, o.result), o.world, n - 1, n' - 1);
    }
  }

  // ---------- what a run hands over, and to which ----------

  /** The run `i` places below the top. */
  function Below<J>(s: Stack<J>, i: nat): Option<J> {
    match s
    case Bottom => None
    case On(j, rest) => if i == 0 then Some(j) else Below(rest, i - 1)
  }

  /** Of the runs pushed in one go the last lies on top, the first just above what was there. */
  lemma {:induction false} PushedOrder<J>(s: Stack<J>, pushed: seq<J>, i: nat)
    ensures Below(PushAll(s, pushed), i) ==
      if i < |pushed| then Some(pushed[|pushed| - 1 - i]) else Below(s, i - |pushed|)
    decreases |pushed|
  {
    if pushed != [] && i > 0 {
      PushedOrder(s, pushed[..|pushed| - 1], i - 1);
    }
  }

  /**
    A run that succeeds and pushes nothing hands its result to the one below, which takes it in if it can be resumed and
    goes on as it was if not.
  */
  lemma ResultGoesDown<W, J>(m: Machine<W, J>, j: J, c: J, rest: Stack<J>, world: W, n: nat)
    requires n > 0 && m.run(j, world).result.success && m.run(j, world).pushed == []
    ensures var o := m.run(j, world);
      Exec(m, On(j, On(c, rest)), world, n) ==
        Later(Exec(m, On(if m.resumable(c) then m.feedback(c, o.after, o.result) else c, rest), o.world, n - 1), 1)
  {}

  /** A run that pushes others is followed by the last of them, above the rest of them, and that one gets its result. */
  lemma LastPushedRunsFirst<W, J>(m: Machine<W, J>, j: J, rest: Stack<J>, world: W, n: nat)
    requires n > 0 && m.run(j, world).result.success && m.run(j, world).pushed != []
    ensures var o := m.run(j, world);
      var k, p := |o.pushed| - 1, o.pushed[|o.pushed| - 1];
      Exec(m, On(j, rest), world, n) ==
        Later(Exec(m, On(if m.resumable(p) then m.feedback(p, o.after, o.result) else p, PushAll(rest, o.pushed[..k])),
                   o.world, n - 1), 1)
  {}

  /**
    A whole call: whatever a callee runs on top of the run that waits for it,
      that one gets the callee's last run with its
    result, in the world the callee leaves. A callee that fails leaves it where it is and ends the loop.
  */
  lemma CallReturns<W, J>(m: Machine<W, J>, callee: J, c: J, rest: Stack<J>, world: W, n: nat)
    requires Exec(m, On(callee, Bottom), world, n).Some?
    ensures var call := Exec(m, On(callee, Bottom), world, n).value;
      Exec(m, On(callee, On(c, rest)), world, n) ==
        if call.result.success
          then Later(Exec(m, On(if m.resumable(c) then m.feedback(c, call.last, call.result) else c, rest),
                          call.world, n - call.runs), call.runs)
          else Some(call.(stack := Over(call.stack, On(c, rest))))
  {
    assert Over(On(callee, Bottom), On(c, rest)) == On(callee, On(c, rest));
    StackSplits(m, On(c, rest), On(callee, Bottom), world, n);
  }

  // ---------- value transfers ----------

  /** `CpsRunTransfer`: moves a balance in the atomic layer, pushes nothing, cannot be resumed. */
  datatype TransferRun = TransferRun(from: Address, to: Address, qa: nat, previous: Payload)

  function RunTransfer(job: TransferRun, st: Store): Outcome<Store, TransferRun> {
    var (st', ok) := Transfer(st, job.from, job.to, job.qa);
    Outcome(st', job, RunResult(ok, if ok then job.previous else EvmResult(0)), [])
  }

  /**
    A transfer succeeds exactly when there is nothing to move or the sender can pay, and then hands on what it was
    given.
  */
  lemma TransferReports(job: TransferRun, st: Store)
    ensures var o := RunTransfer(job, st);
      && (o.result.success <==> job.qa == 0 || CanPay(Visible(st), job.from, job.qa))
      && (o.result.success ==> o.result.payload == job.previous)
      && o.pushed == [] && o.world.base == st.base
  {
    TransferShows(st, job.from, job.to, job.qa);
  }

  function Transfers(): Machine<Store, TransferRun> {
    Machine((job, st) => RunTransfer(job, st), job => false, (job, prev, result) => job)
  }

  /** Any stack of transfers, completed or cut short, keeps the total of what the overlay shows and commits nothing. */
  lemma {:induction false} TransfersConserve(s: Stack<TransferRun>, st: Store, n: nat)
    requires s.On? && Exec(Transfers(), s, st, n).Some? && Total(Visible(st)) < U128
    ensures var st' := Exec(Transfers(), s, st, n).value.world;
      Total(Visible(st')) == Total(Visible(st)) && st'.base == st.base
    decreases n
  {
    var job := s.top;
    var o := Transfers().run(job, st);
    assert o == RunTransfer(job, st);
    TransferShows(st, job.from, job.to, job.qa);
    if o.result.success {
      SupplyPreventsCarry(Visible(st), job.from, job.to, job.qa);
    }
    assert PushAll(s.rest, o.pushed) == s.rest;
    if o.result.success && s.rest.On? {
      assert Feed(Transfers(), s.rest, o.after, o.result) == s.rest;
      TransfersConserve(s.rest, o.world, n - 1);
    }
  }
}
