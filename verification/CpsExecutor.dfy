/** The executor object, proved against the functions of `CpsTransactions`. */
module ExecutorObject {
  import opened Options
  import opened Arithmetic
  import opened Amounts
  import opened AccountStore
  import opened CpsLoop
  import opened CpsTransactions

  /** The queue as a stack with its back on top. */
  function ToStack(queue: seq<Job>): (s: Stack<Job>)
    ensures s.Bottom? <==> queue == []
  {
    if queue == [] then Bottom else On(queue[|queue| - 1], ToStack(queue[..|queue| - 1]))
  }

  lemma {:induction false} ToStackPush(queue: seq<Job>, pushed: seq<Job>)
    ensures ToStack(queue + pushed) == PushAll(ToStack(queue), pushed)
  {
    if pushed == [] {
      assert queue + pushed == queue;
    } else {
      ToStackPush(queue, pushed[..|pushed| - 1]);
      assert (queue + pushed)[..|queue + pushed| - 1] == queue + pushed[..|pushed| - 1];
    }
  }

  lemma ToStackTop(queue: seq<Job>, job: Job)
    requires queue != []
    ensures ToStack(queue[|queue| - 1 := job]) == On(job, ToStack(queue).rest)
  {
    assert queue[|queue| - 1 := job][..|queue| - 1] == queue[..|queue| - 1];
  }

  class CpsExecutor {
    const k: Scales
    const normalGas: nat
    var base: Accounts
    var atomic: Accounts
    var storage: Storage
    var saved: Storage
    var receipt: Receipt
    var queue: seq<Job>

    function View(): Chain
      reads this
    {
      Chain(Store(base, atomic), storage, saved, receipt)
    }

    constructor (k: Scales, normalGas: nat, accounts: Accounts, storage: Storage)
      ensures this.k == k && this.normalGas == normalGas && queue == []
      ensures View().store == Store(accounts, map[]) && this.storage == storage
    {
      this.k, this.normalGas, this.storage, this.saved := k, normalGas, storage, storage;
      base, atomic, receipt, queue := accounts, map[], Receipt(0, false), [];
    }

    method DecreaseBalanceAtomic(a: Address, delta: nat) returns (ok: bool)
      modifies this`atomic
      ensures (View().store, ok) == DecreaseBalance(old(View().store), a, delta)
    {
      if a !in atomic && a in base {
        atomic := atomic[a := base[a]];
      }
      if a !in atomic || atomic[a].balance < delta {
        return false;
      }
      atomic := atomic[a := atomic[a].(balance := atomic[a].balance - delta)];
      ok := true;
    }

    method IncreaseBalanceAtomic(a: Address, delta: nat) returns (ok: bool)
      modifies this`atomic
      ensures (View().store, ok) == IncreaseBalance(old(View().store), a, delta)
    {
      if a !in atomic && a in base {
        atomic := atomic[a := base[a]];
      }
      if a !in atomic {
        return false;
      }
      atomic := atomic[a := Credit(atomic[a], delta)];
      ok := true;
    }

    method TransferBalanceAtomic(from: Address, to: Address, delta: nat) returns (ok: bool)
      modifies this`atomic
      ensures (View().store, ok) == Transfer(old(View().store), from, to, delta)
    {
      if delta == 0 {
        return true;
      }
      ok := DecreaseBalanceAtomic(from, delta);
      if !ok {
        return;
      }
      if to !in atomic && to in base {
        atomic := atomic[to := base[to]];
      }
      if to in atomic {
        atomic := atomic[to := Credit(atomic[to], delta)];
      } else {
        atomic := atomic[to := Account(delta, 0)];
      }
    }

    /** Pops the back of the queue and runs it. */
    method RunBack(m: Machine<World, Job>, gas: Gas) returns (o: Outcome<World, Job>)
      requires queue != []
      modifies this`queue, this`atomic, this`storage
      ensures o == m.run(ToStack(old(queue)).top, World(old(atomic), old(storage), gas))
      ensures atomic == o.world.atomic && storage == o.world.storage
      ensures ToStack(queue) == PushAll(ToStack(old(queue)).rest, o.pushed)
    {
      var current := queue[|queue| - 1];
      queue := queue[..|queue| - 1];
      o := m.run(current, World(atomic, storage, gas));
      atomic, storage := o.world.atomic, o.world.storage;
      ToStackPush(queue, o.pushed);
      queue := queue + o.pushed;
    }

    /** Hands a result to the run now at the back, if that one can be resumed. */
    method ProvideFeedback(m: Machine<World, Job>, prev: Job, result: RunResult)
      modifies this`queue
      ensures ToStack(queue) == Feed(m, ToStack(old(queue)), prev, result)
    {
      if queue != [] {
        var next := queue[|queue| - 1];
        if m.resumable(next) {
          ToStackTop(queue, m.feedback(next, prev, result));
          queue := queue[|queue| - 1 := m.feedback(next, prev, result)];
        }
      }
    }

    /** Runs the back of the queue until the queue is empty or a run fails; `n` bounds the runs. */
    method ProcessLoop(m: Machine<World, Job>, gas: Gas, ghost n: nat) returns (result: RunResult, gas': Gas)
      requires queue != [] && Exec(m, ToStack(queue), World(atomic, storage, gas), n).Some?
      modifies this`queue, this`atomic, this`storage, this`saved
      ensures var end := Exec(m, ToStack(old(queue)), World(old(atomic), old(storage), gas), n).value;
        && saved == old(storage)
        && ToStack(queue) == end.stack
        && World(atomic, storage, gas') == end.world
        && result == end.result
    {
      saved := storage;
      gas', result := gas, RunResult(false, EvmResult(0));
      ghost var end := Exec(m, ToStack(queue), World(atomic, storage, gas), n);
      ghost var runs := 0;
      while queue != []
        invariant runs <= n && end.Some? && saved == old(storage)
        invariant queue != [] ==> Later(Exec(m, ToStack(queue), World(atomic, storage, gas'), n - runs), runs) == end
        invariant queue == [] ==>
          end.value.stack.Bottom? && World(atomic, storage, gas') == end.value.world && result == end.value.result
        decreases n - runs
      {
        ExecTurn(m, ToStack(queue), World(atomic, storage, gas'), n - runs, runs, end);
        var o := RunBack(m, gas');
        gas', result := o.world.gas, o.result;
        if !result.success {
          break;
        }
        ProvideFeedback(m, o.after, result);
        runs := runs + 1;
      }
    }

    /** Settles a transaction that pre-validation has stopped. */
    method TurnAway(origin: Address)
      modifies this`base, this`receipt
      requires atomic == map[]
      ensures View() == Turned(old(View()), origin)
    {
      receipt := Receipt(0, false);
      base := Stamped(base, origin);
    }

    method RunFromScilla(tx: ScillaTx, m: Machine<World, Job>, job: Job, ghost n: nat) returns (ok: bool)
      requires ValidScales(k) && ValidScillaTx(tx) && queue == []
      requires PreValidateScilla(k, View(), tx).Passes? && !tx.kind.NonContract? ==>
        var end := Exec(m, On(job, Bottom), ScillaLoopStart(k, View(), tx), n);
        end.Some? && RemainedCore(k, end.value.result.payload) < U64
      modifies this
      ensures !old(PreValidateScilla(k, View(), tx)).Passes? ==> (View(), ok) == (Turned(old(View()), tx.origin), false)
      ensures old(PreValidateScilla(k, View(), tx)).Passes? ==>
        if tx.kind.NonContract? then (View(), ok) == PlainTransfer(k, normalGas, old(View()), tx)
        else
          var end := Exec(m, On(job, Bottom), ScillaLoopStart(k, old(View()), tx), n).value;
          (View(), ok) == RunScilla(k, normalGas, old(View()), tx, end)
    {
      atomic := map[];
      if tx.origin !in base || !CheckScilla(k, tx, base[tx.origin].balance).Passes? {
        TurnAway(tx.origin);
        return false;
      }
      TakeGasScilla(tx);
      if tx.kind.NonContract? {
        ok := TransferOnly(tx);
        return;
      }
      queue := [job];
      assert ToStack(queue) == On(job, Bottom);
      var result, gas := ProcessLoop(m, Gas(tx.gasLimit, 0), n);
      ok := SettleScillaRun(tx, RemainedCore(k, result.payload), queue != [] || !result.success);
    }

    method TakeGasScilla(tx: ScillaTx)
      requires ValidScales(k)
      modifies this`atomic
      ensures View().store == DepositScilla(k, old(View().store), tx)
    {
      if MulFits(tx.gasLimit, tx.gasPrice, U128) {
        var taken := DecreaseBalanceAtomic(tx.origin, ToQa(k, FromQa(k, Times(tx.gasLimit, tx.gasPrice))));
      }
    }

    method RefundGasScilla(tx: ScillaTx, core: nat)
      requires ValidScales(k)
      modifies this`atomic
      ensures View().store == CpsTransactions.RefundScilla(k, old(View().store), tx, core)
    {
      if MulFits(core, tx.gasPrice, U128) {
        var paid := IncreaseBalanceAtomic(tx.origin, ToQa(k, FromQa(k, Times(core, tx.gasPrice))));
      }
    }

    /** The branch without a contract, after the deposit. */
    method TransferOnly(tx: ScillaTx) returns (ok: bool)
      requires ValidScales(k)
      modifies this`base, this`atomic, this`receipt
      ensures (View(), ok) == AfterDeposit(k, normalGas, old(View()), tx)
    {
      ok := TransferBalanceAtomic(tx.origin, tx.recipient, ToQa(k, FromQa(k, tx.amount)));
      if ok {
        receipt := Receipt(normalGas, true);
        var gas := Apply(k.gas, Gas(tx.gasLimit, 0), DecreaseByCore(normalGas));
        RefundGasScilla(tx, gas.core);
        base := base + atomic;
      }
      base := Stamped(base, tx.origin);
    }

    method SettleScillaRun(tx: ScillaTx, remained: nat, failed: bool) returns (ok: bool)
      requires ValidScales(k) && ValidScillaTx(tx) && remained < U64
      modifies this`base, this`atomic, this`storage, this`receipt
      ensures (View(), ok) == SettleScilla(k, old(View()), tx, remained, failed)
    {
      var used := Minus64(tx.gasLimit, remained);
      if failed {
        storage, atomic := saved, map[];
      } else {
        RefundGasScilla(tx, remained);
        base := base + atomic;
      }
      receipt := Receipt(used, !failed);
      base := Stamped(base, tx.origin);
      if failed && MulFits(used, tx.gasPrice, U128) {
        ChargeCommitted(tx.origin, ToQa(k, FromQa(k, Times(used, tx.gasPrice))));
      }
      ok := !failed;
    }

    /** `DecreaseBalance` on the committed accounts. */
    method ChargeCommitted(a: Address, delta: nat)
      modifies this`base
      ensures View().store == ChargeBase(old(View().store), a, delta)
    {
      if a in base && base[a].balance >= delta {
        base := base[a := base[a].(balance := base[a].balance - delta)];
      }
    }

    method RunFromEvm(tx: EvmTx, m: Machine<World, Job>, job: Job, ghost n: nat) returns (ok: bool)
      requires ValidScales(k) && ValidEvmTx(tx) && queue == []
      requires PreValidateEvm(k, View(), tx).Passes? ==>
        var end := Exec(m, On(job, Bottom), EvmLoopStart(k, View(), tx), n);
        end.Some? && end.value.world.gas.core < U64
      modifies this
      ensures !old(PreValidateEvm(k, View(), tx)).Passes? ==> (View(), ok) == (Turned(old(View()), tx.origin), false)
      ensures old(PreValidateEvm(k, View(), tx)).Passes? ==>
        var end := Exec(m, On(job, Bottom), EvmLoopStart(k, old(View()), tx), n).value;
        (View(), ok) == RunEvm(k, old(View()), tx, end)
    {
      atomic := map[];
      if !PreValidateEvm(k, View(), tx).Passes? {
        TurnAway(tx.origin);
        return false;
      }
      TakeGasEvm(tx);
      queue := [job];
      assert ToStack(queue) == On(job, Bottom);
      var result, gas := ProcessLoop(m, FromAbsolute(k.gas, tx.argsLimit), n);
      ok := SettleEvmRun(tx, gas.core, queue != [] || !result.success);
      ok := ok || !tx.commit;
    }

    method TakeGasEvm(tx: EvmTx)
      requires ValidScales(k)
      modifies this`atomic
      ensures View().store == DepositEvm(k, old(View().store), tx)
    {
      if MulFits(RoundedLimit(k, tx), PriceOf(tx), U256) {
        var taken := DecreaseBalanceAtomic(tx.origin, ToQa(k, FromWei(DepositWei(k, tx))));
      }
    }

    method RefundGasEvm(tx: EvmTx, core: nat)
      requires ValidScales(k)
      modifies this`atomic
      ensures View().store == RefundEvm(k, old(View().store), tx, core)
    {
      var eth := EthGas(k.gas, Gas(core, 0));
      if MulFits(eth, PriceOf(tx), U128) {
        var paid := IncreaseBalanceAtomic(tx.origin, ToQa(k, FromWei(Times(eth, PriceOf(tx)))));
      }
    }

    method SettleEvmRun(tx: EvmTx, remained: nat, failed: bool) returns (ok: bool)
      requires ValidScales(k) && ValidEvmTx(tx) && remained < U64
      modifies this`base, this`atomic, this`storage, this`receipt
      ensures (View(), ok) == SettleEvm(k, old(View()), tx, remained, failed)
    {
      var used := Minus64(CoreLimit(k, tx), remained);
      var dry := !tx.commit || tx.isStatic;
      receipt := Receipt(used, !failed);
      if failed || dry {
        storage, atomic := saved, map[];
      } else {
        RefundGasEvm(tx, remained);
        base := base + atomic;
      }
      if !dry {
        base := Stamped(base, tx.origin);
        if failed {
          var eth := Rem(Times(used, k.gas), U64);
          if MulFits(eth, PriceOf(tx), U256) {
            ChargeCommitted(tx.origin, ToQa(k, FromWei(Times(eth, PriceOf(tx)))));
          }
        }
      }
      ok := !failed;
    }
  }
}
