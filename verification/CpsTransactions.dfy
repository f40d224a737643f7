/** `CpsExecutor::RunFromScilla` and `RunFromEvm`: deposit, stack of runs, commit or revert, settlement. */
module CpsTransactions {
  import opened Options
  import opened Arithmetic
  import opened Amounts
  import opened AccountStore
  import opened CpsLoop

  /** Contract storage and kinds of runs are left open. */
  type Storage(==, !new, 0)
  type Job(!new, 0)

  /** What a run can touch: the atomic layer, the revertible storage, the gas tracker. */
  datatype World = World(atomic: Accounts, storage: Storage, gas: Gas)

  datatype Receipt = Receipt(cumGas: nat, ok: bool)

  /** `saved` is the storage buffered when the loop starts. */
  datatype Chain = Chain(store: Store, storage: Storage, saved: Storage, receipt: Receipt)

  datatype Status = Passes | InvalidFromAccount | MathError | InsufficientBalance | InsufficientGasLimit

  ghost predicate ValidChain(c: Chain) {
    (forall a :: a in c.store.base ==> c.store.base[a].balance < U128)
  }

  function BalanceOf(m: Accounts, a: Address): nat {
    if a in m then m[a].balance else 0
  }

  /** 64-bit subtraction. */
  function Minus64(a: nat, b: nat): nat
    requires a < U64 && b < U64
  {
    if b <= a then a - b else a + U64 - b
  }

  /** A transaction stopped by pre-validation still uses up the nonce. */
  function Turned(c: Chain, origin: Address): Chain {
    c.(receipt := Receipt(0, false), store := BumpNonce(Discard(c.store), origin))
  }

  // ---------- transactions in Qa ----------

  datatype Kind = NonContract | ContractCall | ContractCreation

  datatype ScillaTx = ScillaTx(origin: Address, recipient: Address, amount: nat, gasPrice: nat, gasLimit: nat,
                               kind: Kind)

  predicate ValidScillaTx(tx: ScillaTx) {
    tx.amount < U128 && tx.gasPrice < U128 && tx.gasLimit < U64
  }

  /** `CheckAmount`; the sum of deposit and amount is a 128-bit addition. */
  function CheckScilla(k: Scales, tx: ScillaTx, balance: nat): Status
    requires ValidScales(k)
  {
    if !MulFits(tx.gasLimit, tx.gasPrice, U128) then MathError
    else if !AtMost(k, FromQa(k, Rem(Times(tx.gasLimit, tx.gasPrice) + tx.amount, U128)), FromQa(k, balance)) then
      InsufficientBalance
    else Passes
  }

  function PreValidateScilla(k: Scales, c: Chain, tx: ScillaTx): Status
    requires ValidScales(k)
  {
    if tx.origin !in c.store.base then InvalidFromAccount
    else CheckScilla(k, tx, c.store.base[tx.origin].balance)
  }

  /** `TakeGasFromAccount`; a deposit that cannot be taken is not reported. */
  function DepositScilla(k: Scales, st: Store, tx: ScillaTx): Store
    requires ValidScales(k)
  {
    if !MulFits(tx.gasLimit, tx.gasPrice, U128) then st
    else DecreaseBalance(st, tx.origin, ToQa(k, FromQa(k, Times(tx.gasLimit, tx.gasPrice)))).0
  }

  /** `RefundGas`. */
  function RefundScilla(k: Scales, st: Store, tx: ScillaTx, core: nat): Store
    requires ValidScales(k)
  {
    if !MulFits(core, tx.gasPrice, U128) then st
    else IncreaseBalance(st, tx.origin, ToQa(k, FromQa(k, Times(core, tx.gasPrice)))).0
  }

  /** The branch for plain transfers. */
  function PlainTransfer(k: Scales, normalGas: nat, c: Chain, tx: ScillaTx): (Chain, bool)
    requires ValidScales(k)
  {
    AfterDeposit(k, normalGas, c.(store := DepositScilla(k, Discard(c.store), tx)), tx)
  }

  function AfterDeposit(k: Scales, normalGas: nat, c: Chain, tx: ScillaTx): (Chain, bool)
    requires ValidScales(k)
  {
    var (st, ok) := Transfer(c.store, tx.origin, tx.recipient, ToQa(k, FromQa(k, tx.amount)));
    if !ok then (c.(store := BumpNonce(st, tx.origin)), false)
    else
      var left := Apply(k.gas, Gas(tx.gasLimit, 0), DecreaseByCore(normalGas)).core;
      (c.(store := BumpNonce(Commit(RefundScilla(k, st, tx, left)), tx.origin), receipt := Receipt(normalGas, true)),
        true)
  }

  /** `GetRemainedGasCore`. */
  function RemainedCore(k: Scales, payload: Payload): nat
    requires ValidScales(k)
  {
    match payload
    case EvmResult(g) => Floor(g, k.gas)
    case ScillaResult(g) => g
  }

  /** The chain as the loop left it. */
  function AfterLoop(c: Chain, st: Store, end: End<World, Job>): Chain {
    c.(store := Store(st.base, end.world.atomic), storage := end.world.storage, saved := c.storage)
  }

  predicate Failed(end: End<World, Job>) {
    end.stack.On? || !end.result.success
  }

  /** Settlement of a contract transaction. */
  function SettleScilla(k: Scales, c: Chain, tx: ScillaTx, remained: nat, failed: bool): (Chain, bool)
    requires ValidScales(k) && ValidScillaTx(tx) && remained < U64
  {
    var used := Minus64(tx.gasLimit, remained);
    if !failed then
      (c.(store := BumpNonce(Commit(RefundScilla(k, c.store, tx, remained)), tx.origin),
        receipt := Receipt(used, true)), true)
    else
      var st := BumpNonce(Discard(c.store), tx.origin);
      var c' := c.(store := st, storage := c.saved, receipt := Receipt(used, false));
      if !MulFits(used, tx.gasPrice, U128) then (c', false)
      else (c'.(store := ChargeBase(st, tx.origin, ToQa(k, FromQa(k, Times(used, tx.gasPrice))))), false)
  }

  function ScillaLoopStart(k: Scales, c: Chain, tx: ScillaTx): World
    requires ValidScales(k)
  {
    World(DepositScilla(k, Discard(c.store), tx).atomic, c.storage, Gas(tx.gasLimit, 0))
  }

  /** `RunFromScilla`, with the loop's end given. */
  function RunScilla(k: Scales, normalGas: nat, c: Chain, tx: ScillaTx, end: End<World, Job>): (Chain, bool)
    requires ValidScales(k) && ValidScillaTx(tx) && RemainedCore(k, end.result.payload) < U64
  {
    if !PreValidateScilla(k, c, tx).Passes? then (Turned(c, tx.origin), false)
    else if tx.kind.NonContract? then PlainTransfer(k, normalGas, c, tx)
    else
      var after := AfterLoop(c, Discard(c.store), end);
      SettleScilla(k, after, tx, RemainedCore(k, end.result.payload), Failed(end))
  }

  // ---------- transactions in Wei ----------

  /**
    `estimateOnly` zeroes the gas price, `commit` off makes the run an estimate, `isStatic` an eth_call.
    `floor` is the least gas limit for this kind of transaction.
  */
  datatype EvmTx = EvmTx(origin: Address, txLimit: nat, argsLimit: nat, gasPrice: nat, amount: nat, floor: nat,
                         estimateOnly: bool, commit: bool, isStatic: bool)

  predicate ValidEvmTx(tx: EvmTx) {
    tx.txLimit < U64 && tx.argsLimit < U64 && tx.gasPrice < U128 && tx.amount < U128
  }

  function PriceOf(tx: EvmTx): nat {
    if tx.estimateOnly then 0 else tx.gasPrice
  }

  /** The arguments' gas limit in core units. */
  function CoreLimit(k: Scales, tx: EvmTx): (limit: nat)
    requires ValidScales(k) && ValidEvmTx(tx)
    ensures limit < U64
  {
    FloorBelow(tx.argsLimit, k.gas);
    Floor(tx.argsLimit, k.gas)
  }

  /** The gas limit rounded down to whole core units. */
  function RoundedLimit(k: Scales, tx: EvmTx): nat
    requires ValidScales(k)
  {
    Times(Floor(tx.txLimit, k.gas), k.gas)
  }

  function DepositWei(k: Scales, tx: EvmTx): nat
    requires ValidScales(k)
  {
    Times(RoundedLimit(k, tx), PriceOf(tx))
  }

  function PreValidateEvm(k: Scales, c: Chain, tx: EvmTx): Status
    requires ValidScales(k)
  {
    if !MulFits(RoundedLimit(k, tx), PriceOf(tx), U256) then MathError
    else if !AtMost(k, FromWei(Rem(DepositWei(k, tx) + tx.amount, U256)),
                    FromQa(k, BalanceOf(c.store.base, tx.origin))) then InsufficientBalance
    else if tx.argsLimit < tx.floor then InsufficientGasLimit
    else Passes
  }

  function DepositEvm(k: Scales, st: Store, tx: EvmTx): Store
    requires ValidScales(k)
  {
    if !MulFits(RoundedLimit(k, tx), PriceOf(tx), U256) then st
    else DecreaseBalance(st, tx.origin, ToQa(k, FromWei(DepositWei(k, tx)))).0
  }

  /** The refund is a 128-bit product. */
  function RefundEvm(k: Scales, st: Store, tx: EvmTx, core: nat): Store
    requires ValidScales(k)
  {
    var eth := EthGas(k.gas, Gas(core, 0));
    if !MulFits(eth, PriceOf(tx), U128) then st
    else IncreaseBalance(st, tx.origin, ToQa(k, FromWei(Times(eth, PriceOf(tx))))).0
  }

  function EvmLoopStart(k: Scales, c: Chain, tx: EvmTx): World
    requires ValidScales(k)
  {
    World(DepositEvm(k, Discard(c.store), tx).atomic, c.storage, FromAbsolute(k.gas, tx.argsLimit))
  }

  /** Settlement; estimates and eth_calls are undone like failures but neither charged nor counted. */
  function SettleEvm(k: Scales, c: Chain, tx: EvmTx, remained: nat, failed: bool): (Chain, bool)
    requires ValidScales(k) && ValidEvmTx(tx) && remained < U64
  {
    var used := Minus64(CoreLimit(k, tx), remained);
    if failed || !tx.commit || tx.isStatic then
      var c' := c.(store := Discard(c.store), storage := c.saved, receipt := Receipt(used, !failed));
      if !tx.commit || tx.isStatic then (c', !failed)
      else
        var st := BumpNonce(c'.store, tx.origin);
        var eth := Rem(Times(used, k.gas), U64);
        if !MulFits(eth, PriceOf(tx), U256) then (c'.(store := st), false)
        else (c'.(store := ChargeBase(st, tx.origin, ToQa(k, FromWei(Times(eth, PriceOf(tx)))))), false)
    else
      (c.(store := BumpNonce(Commit(RefundEvm(k, c.store, tx, remained)), tx.origin), receipt := Receipt(used, true)),
        true)
  }

  /** `RunFromEvm`, with the loop's end given; estimates report success. */
  function RunEvm(k: Scales, c: Chain, tx: EvmTx, end: End<World, Job>): (Chain, bool)
    requires ValidScales(k) && ValidEvmTx(tx) && end.world.gas.core < U64
  {
    if !PreValidateEvm(k, c, tx).Passes? then (Turned(c, tx.origin), false)
    else
      var (c', ok) := SettleEvm(k, AfterLoop(c, Discard(c.store), end), tx, end.world.gas.core, Failed(end));
      (c', ok || !tx.commit)
  }

  // ---------- what pre-validation guarantees ----------

  /** The check compares what the 128-bit sum of deposit and amount has kept. */
  lemma ScillaCheckMeans(k: Scales, tx: ScillaTx, balance: nat)
    requires ValidScales(k) && ValidScillaTx(tx) && balance < U128
    ensures CheckScilla(k, tx, balance).Passes? <==>
              Times(tx.gasLimit, tx.gasPrice) < U128 &&
                Rem(Times(tx.gasLimit, tx.gasPrice) + tx.amount, U128) <= balance
  {
    QaRoundTrip(k, balance);
    DivMod(Times(tx.gasLimit, tx.gasPrice) + tx.amount, U128);
    QaRoundTrip(k, Rem(Times(tx.gasLimit, tx.gasPrice) + tx.amount, U128));
  }

  lemma Wrapped(deposit: nat, amount: nat, balance: nat)
    requires deposit < U128 && amount < U128 && balance < U128
    ensures Rem(deposit + amount, U128) <= balance < deposit + amount <==> U128 <= deposit + amount <= U128 + balance
  {}

  /** It lets through a sender who cannot pay exactly when that sum has carried to within the balance. */
  lemma ScillaCheckGap(k: Scales, tx: ScillaTx, balance: nat)
    requires ValidScales(k) && ValidScillaTx(tx) && balance < U128
    ensures (CheckScilla(k, tx, balance).Passes? && Times(tx.gasLimit, tx.gasPrice) + tx.amount > balance) <==>
              Times(tx.gasLimit, tx.gasPrice) < U128
              && U128 <= Times(tx.gasLimit, tx.gasPrice) + tx.amount <= U128 + balance
  {
    ScillaCheckMeans(k, tx, balance);
    if Times(tx.gasLimit, tx.gasPrice) < U128 {
      Wrapped(Times(tx.gasLimit, tx.gasPrice), tx.amount, balance);
    }
  }

  /** One unit of gas at the highest price and an amount of one, from an empty account. */
  lemma ScillaCheckExample(k: Scales) returns (tx: ScillaTx)
    requires ValidScales(k)
    ensures ValidScillaTx(tx) && CheckScilla(k, tx, 0).Passes? && Times(tx.gasLimit, tx.gasPrice) + tx.amount > 0
  {
    tx := ScillaTx(0, 0, 1, U128 - 1, 1, NonContract);
    TimesIs(1, U128 - 1);
    ScillaCheckGap(k, tx, 0);
  }

  /** A transaction that gets past pre-validation. */
  ghost predicate ScillaPasses(k: Scales, c: Chain, tx: ScillaTx) {
    ValidScales(k) && ValidChain(c) && ValidScillaTx(tx) && PreValidateScilla(k, c, tx).Passes?
  }

  function Deposit(tx: ScillaTx): nat {
    Times(tx.gasLimit, tx.gasPrice)
  }

  /** The accounts shown after the deposit, which is skipped where it cannot be paid. */
  function Deposited(m: Accounts, tx: ScillaTx): Accounts {
    if CanPay(m, tx.origin, Deposit(tx)) then Debited(m, tx.origin, Deposit(tx)) else m
  }

  lemma DepositTakes(k: Scales, c: Chain, tx: ScillaTx)
    requires ScillaPasses(k, c, tx)
    ensures Deposit(tx) < U128
    ensures DepositScilla(k, Discard(c.store), tx).base == c.store.base
    ensures Visible(DepositScilla(k, Discard(c.store), tx)) == Deposited(c.store.base, tx)
  {
    var st := Discard(c.store);
    assert Visible(st) == c.store.base;
    QaRoundTrip(k, Deposit(tx));
    DecreaseShows(st, tx.origin, Deposit(tx));
  }

  /**
    Past the check, the sender can pay both deposit and amount, one after the other, exactly when their sum does not
    carry.
  */
  lemma BothPaidIff(k: Scales, c: Chain, tx: ScillaTx)
    requires ScillaPasses(k, c, tx)
    ensures (CanPay(c.store.base, tx.origin, Deposit(tx)) &&
             CanPay(Deposited(c.store.base, tx), tx.origin, tx.amount)) <==>
              Deposit(tx) + tx.amount < U128
  {
    ScillaCheckMeans(k, tx, c.store.base[tx.origin].balance);
  }

  /** So the deposit is taken in full and the transfer after it goes through exactly then. */
  lemma ScillaDepositAndTransferSucceed(k: Scales, c: Chain, tx: ScillaTx)
    requires ScillaPasses(k, c, tx)
    ensures var st := DepositScilla(k, Discard(c.store), tx);
      CanPay(c.store.base, tx.origin, Deposit(tx)) && Transfer(st, tx.origin, tx.recipient, tx.amount).1 <==>
        Deposit(tx) + tx.amount < U128
  {
    DepositTakes(k, c, tx);
    BothPaidIff(k, c, tx);
    TransferShows(DepositScilla(k, Discard(c.store), tx), tx.origin, tx.recipient, tx.amount);
  }

  // ---------- transactions turned away ----------

  /** A transaction that pre-validation stops costs the sender a nonce and nothing else. */
  ghost predicate OnlyNonce(before: Chain, after: Chain, origin: Address) {
    && after.storage == before.storage && after.receipt == Receipt(0, false) && after.store.atomic == map[]
    && after.store.base.Keys == before.store.base.Keys
    && (forall a :: a in before.store.base ==>
          && after.store.base[a].balance == before.store.base[a].balance
          && after.store.base[a].nonce ==
             if a == origin then Rem(before.store.base[a].nonce + 1, U64) else before.store.base[a].nonce)
  }

  lemma TurnedAway(k: Scales, normalGas: nat, c: Chain, tx: ScillaTx, etx: EvmTx, end: End<World, Job>)
    requires ValidScales(k) && ValidScillaTx(tx) && ValidEvmTx(etx)
    requires RemainedCore(k, end.result.payload) < U64 && end.world.gas.core < U64
    ensures !PreValidateScilla(k, c, tx).Passes? ==>
      OnlyNonce(c, RunScilla(k, normalGas, c, tx, end).0, tx.origin) && !RunScilla(k, normalGas, c, tx, end).1
    ensures !PreValidateEvm(k, c, etx).Passes? ==>
      OnlyNonce(c, RunEvm(k, c, etx, end).0, etx.origin) && !RunEvm(k, c, etx, end).1
  {}

  /**
    The runs start with the whole gas limit: in Ethereum gas for an EVM transaction, in core units for a Scilla one.
  */
  lemma RunsStartWithTheLimit(k: Scales, c: Chain, tx: ScillaTx, etx: EvmTx)
    requires ValidScales(k) && ValidScillaTx(tx) && ValidEvmTx(etx)
    ensures Units(k.gas, ScillaLoopStart(k, c, tx).gas) == Times(tx.gasLimit, k.gas)
    ensures Units(k.gas, EvmLoopStart(k, c, etx).gas) == etx.argsLimit && Normal(k.gas, EvmLoopStart(k, c, etx).gas)
    ensures EvmLoopStart(k, c, etx).gas.core == CoreLimit(k, etx)
  {
    FromAbsoluteUnits(k.gas, etx.argsLimit);
  }

  // ---------- plain transfers ----------

  lemma RefundShows(k: Scales, st: Store, tx: ScillaTx, core: nat)
    requires ValidScales(k) && Times(core, tx.gasPrice) < U128 && tx.origin in Visible(st)
    ensures RefundScilla(k, st, tx, core).base == st.base
    ensures Visible(RefundScilla(k, st, tx, core)) == Credited(Visible(st), tx.origin, Times(core, tx.gasPrice))
  {
    QaRoundTrip(k, Times(core, tx.gasPrice));
    IncreaseShows(st, tx.origin, Times(core, tx.gasPrice));
  }

  function Least(a: nat, b: nat): nat {
    if a < b then a else b
  }

  lemma Products(limit: nat, used: nat, price: nat)
    requires used <= limit
    ensures Times(limit - used, price) == Times(limit, price) - Times(used, price)
    ensures Times(used, price) <= Times(limit, price)
  {
    TimesAdd(limit - used, used, price);
  }

  lemma DifferentCosts(limit: nat, normal: nat, price: nat)
    ensures Times(Least(limit, normal), price) == Times(normal, price) <==> limit >= normal || price == 0
  {
    if limit < normal {
      Products(normal, limit, price);
      if price > 0 {
        TimesAbove(normal - limit, price);
      } else {
        TimesIs(limit, 0);
        TimesIs(normal, 0);
      }
    }
  }

  /** The accounts after a refund of `delta`, the commit and the nonce. */
  function Settled(shown: Accounts, a: Address, delta: nat): Accounts {
    Stamped(Credited(shown, a, delta), a)
  }

  lemma SettledTotal(shown: Accounts, a: Address, delta: nat)
    requires Total(shown) + delta < U128
    ensures Total(Settled(shown, a, delta)) == Total(shown) + delta
  {
    TotalAfterCredit(shown, a, delta);
    TotalAfterStamp(Credited(shown, a, delta), a);
  }

  lemma RefundCommits(k: Scales, st: Store, tx: ScillaTx, core: nat)
    requires ValidScales(k) && Times(core, tx.gasPrice) < U128 && tx.origin in Visible(st)
    ensures BumpNonce(Commit(RefundScilla(k, st, tx, core)), tx.origin).base
              == Settled(Visible(st), tx.origin, Times(core, tx.gasPrice))
  {
    RefundShows(k, st, tx, core);
  }

  /** A refund that may carry out of 128 bits. */
  lemma SettledTotalCarries(shown: Accounts, a: Address, delta: nat)
    requires a in shown && Total(shown) < U128 && delta < U128
    ensures Total(Settled(shown, a, delta)) == Total(shown) + delta ||
      Total(Settled(shown, a, delta)) == Total(shown) + delta - U128
  {
    BalanceWithinTotal(shown, a);
    RemOnce(shown[a].balance + delta, U128);
    TotalUpdate(shown, a, Credit(shown[a], delta));
    TotalAfterStamp(Credited(shown, a, delta), a);
  }

  lemma PlainTransferSteps(k: Scales, normalGas: nat, c: Chain, tx: ScillaTx, st: Store)
    requires ValidScales(k) && ValidScillaTx(tx) && st == DepositScilla(k, Discard(c.store), tx)
    ensures var (c', ok) := PlainTransfer(k, normalGas, c, tx);
      var (st', moved) := Transfer(st, tx.origin, tx.recipient, tx.amount);
      && ok == moved
      && c'.receipt == (if ok then Receipt(normalGas, true) else c.receipt)
      && c'.storage == c.storage
      && c'.store == if ok
           then BumpNonce(Commit(RefundScilla(k, st', tx, tx.gasLimit - Least(tx.gasLimit, normalGas))), tx.origin)
           else BumpNonce(st', tx.origin)
  {
    QaRoundTrip(k, tx.amount);
  }

  lemma TransferAndRefundCommit(k: Scales, st: Store, tx: ScillaTx, core: nat)
    requires ValidScales(k) && Times(core, tx.gasPrice) < U128 && tx.origin in Visible(st)
    requires tx.amount == 0 || CanPay(Visible(st), tx.origin, tx.amount)
    ensures BumpNonce(Commit(RefundScilla(k, Transfer(st, tx.origin, tx.recipient, tx.amount).0, tx, core)),
                      tx.origin).base
              == Settled(Moved(Visible(st), tx.origin, tx.recipient, tx.amount), tx.origin, Times(core, tx.gasPrice))
  {
    TransferShows(st, tx.origin, tx.recipient, tx.amount);
    RefundCommits(k, Transfer(st, tx.origin, tx.recipient, tx.amount).0, tx, core);
  }

  /**
    The accounts a plain transfer leaves: with the amount moved and the unused gas paid back, or with a new nonce
    only.
  */
  function PlainResult(m: Accounts, tx: ScillaTx, refund: nat): Accounts {
    if tx.amount == 0 || CanPay(Deposited(m, tx), tx.origin, tx.amount)
    then Settled(Moved(Deposited(m, tx), tx.origin, tx.recipient, tx.amount), tx.origin, refund)
    else Stamped(m, tx.origin)
  }

  function PlainRefund(normalGas: nat, tx: ScillaTx): nat {
    Times(tx.gasLimit - Least(tx.gasLimit, normalGas), tx.gasPrice)
  }

  /** A plain transfer past the check commits exactly that. */
  lemma PlainTransferCommits(k: Scales, normalGas: nat, c: Chain, tx: ScillaTx)
    requires ScillaPasses(k, c, tx)
    ensures var (c', ok) := PlainTransfer(k, normalGas, c, tx);
      && ok == (tx.amount == 0 || CanPay(Deposited(c.store.base, tx), tx.origin, tx.amount))
      && c'.receipt == (if ok then Receipt(normalGas, true) else c.receipt)
      && c'.storage == c.storage
      && c'.store.base == PlainResult(c.store.base, tx, PlainRefund(normalGas, tx))
  {
    DepositTakes(k, c, tx);
    var st, used := DepositScilla(k, Discard(c.store), tx), Least(tx.gasLimit, normalGas);
    TransferShows(st, tx.origin, tx.recipient, tx.amount);
    PlainTransferSteps(k, normalGas, c, tx, st);
    Products(tx.gasLimit, used, tx.gasPrice);
    if tx.amount == 0 || CanPay(Visible(st), tx.origin, tx.amount) {
      TransferAndRefundCommit(k, st, tx, tx.gasLimit - used);
    }
  }

  /** Deposit and amount both paid: the total falls by what of the deposit does not come back. */
  lemma PlainTotal(m: Accounts, tx: ScillaTx, refund: nat)
    requires CanPay(m, tx.origin, Deposit(tx)) && CanPay(Deposited(m, tx), tx.origin, tx.amount)
    requires refund <= Deposit(tx) && Total(m) < U128
    ensures Total(PlainResult(m, tx, refund)) == Total(m) - Deposit(tx) + refund
  {
    var d := Debited(m, tx.origin, Deposit(tx));
    TotalAfterDebit(m, tx.origin, Deposit(tx));
    SupplyPreventsCarry(d, tx.origin, tx.recipient, tx.amount);
    SettledTotal(Moved(d, tx.origin, tx.recipient, tx.amount), tx.origin, refund);
  }

  /** Not both: it stays, or the refund comes on top of it. */
  lemma UnpaidTotal(m: Accounts, tx: ScillaTx, refund: nat)
    requires tx.origin in m && !(CanPay(m, tx.origin, Deposit(tx)) && CanPay(Deposited(m, tx), tx.origin, tx.amount))
    requires refund < U128 && Total(m) < U128 && tx.amount > 0
    ensures var total := Total(PlainResult(m, tx, refund));
      if CanPay(Deposited(m, tx), tx.origin, tx.amount)
        then total == Total(m) + refund || total == Total(m) + refund - U128
      else total == Total(m)
  {
    if CanPay(Deposited(m, tx), tx.origin, tx.amount) {
      SupplyPreventsCarry(m, tx.origin, tx.recipient, tx.amount);
      SettledTotalCarries(Moved(m, tx.origin, tx.recipient, tx.amount), tx.origin, refund);
    } else {
      TotalAfterStamp(m, tx.origin);
    }
  }

  lemma GasPrices(normalGas: nat, tx: ScillaTx)
    ensures PlainRefund(normalGas, tx) == Deposit(tx) - Times(Least(tx.gasLimit, normalGas), tx.gasPrice)
    ensures Deposit(tx) > 0 && normalGas > 0 ==> Times(Least(tx.gasLimit, normalGas), tx.gasPrice) > 0
    ensures Deposit(tx) > 0 && normalGas >= tx.gasLimit ==> Times(normalGas, tx.gasPrice) > 0
  {
    Products(tx.gasLimit, Least(tx.gasLimit, normalGas), tx.gasPrice);
    if Deposit(tx) > 0 {
      if tx.gasPrice == 0 {
        TimesIs(tx.gasLimit, 0);
      } else {
        TimesAbove(Least(tx.gasLimit, normalGas), tx.gasPrice);
        TimesAbove(normalGas, tx.gasPrice);
      }
    }
  }

  /**
    The committed total falls by the price of the gas used, self-transfers included, exactly when deposit and amount do
    not carry. Where they do, the deposit is skipped or the transfer refused.
  */
  lemma PlainTransferCosts(k: Scales, normalGas: nat, c: Chain, tx: ScillaTx)
    requires ScillaPasses(k, c, tx) && Total(c.store.base) < U128 && normalGas > 0
    ensures var c' := PlainTransfer(k, normalGas, c, tx).0;
      Total(c.store.base) - Total(c'.store.base) == Times(Least(tx.gasLimit, normalGas), tx.gasPrice) <==>
        Deposit(tx) + tx.amount < U128
  {
    var m, refund := c.store.base, PlainRefund(normalGas, tx);
    PlainTransferCommits(k, normalGas, c, tx);
    DepositTakes(k, c, tx);
    BothPaidIff(k, c, tx);
    GasPrices(normalGas, tx);
    if Deposit(tx) + tx.amount < U128 {
      PlainTotal(m, tx, refund);
    } else {
      UnpaidTotal(m, tx, refund);
    }
  }

  /**
    A transfer that goes through costs what its receipt says exactly when, besides, the limit covers the normal gas or
    gas is free.
  */
  lemma PlainReceiptIsExact(k: Scales, normalGas: nat, c: Chain, tx: ScillaTx)
    requires ScillaPasses(k, c, tx) && Total(c.store.base) < U128 && PlainTransfer(k, normalGas, c, tx).1
    ensures var c' := PlainTransfer(k, normalGas, c, tx).0;
      Total(c.store.base) - Total(c'.store.base) == Times(c'.receipt.cumGas, tx.gasPrice) <==>
        Deposit(tx) + tx.amount < U128 && (tx.gasLimit >= normalGas || tx.gasPrice == 0)
  {
    var m, refund := c.store.base, PlainRefund(normalGas, tx);
    PlainTransferCommits(k, normalGas, c, tx);
    DepositTakes(k, c, tx);
    BothPaidIff(k, c, tx);
    GasPrices(normalGas, tx);
    DifferentCosts(tx.gasLimit, normalGas, tx.gasPrice);
    if Deposit(tx) + tx.amount < U128 {
      PlainTotal(m, tx, refund);
    } else {
      UnpaidTotal(m, tx, refund);
    }
  }

  /** One account with a balance. */
  function Holding(storage: Storage, a: Address, balance: nat): Chain {
    Chain(Store(map[a := Account(balance, 0)], map[]), storage, storage, Receipt(0, false))
  }

  lemma HoldingTotal(storage: Storage, a: Address, balance: nat)
    ensures Total(Holding(storage, a, balance).store.base) == balance
  {
    var none: Accounts := map[];
    TotalUpdate(none, a, Account(balance, 0));
    assert none[a := Account(balance, 0)] == map[a := Account(balance, 0)];
  }

  /**
    A balance and an amount of one, and 51 units of gas that cost 2^128 - 1: the deposit is skipped, the amount moved,
    one unit refunded.
  */
  lemma MintExample(k: Scales, storage: Storage) returns (c: Chain, tx: ScillaTx)
    requires ValidScales(k)
    ensures c == Holding(storage, 7, 1) && tx == ScillaTx(7, 8, 1, (U128 - 1) / 51, 51, NonContract)
    ensures ScillaPasses(k, c, tx) && PlainTransfer(k, 50, c, tx).1
    ensures var m := PlainTransfer(k, 50, c, tx).0.store.base;
      7 in m && m[7].balance == (U128 - 1) / 51
  {
    c, tx := Holding(storage, 7, 1), ScillaTx(7, 8, 1, (U128 - 1) / 51, 51, NonContract);
    TimesIs(51, tx.gasPrice);
    TimesIs(1, tx.gasPrice);
    ScillaCheckGap(k, tx, 1);
    PlainTransferCommits(k, 50, c, tx);
  }

  /** One unit of gas at a price of one, where a transfer normally uses fifty: one is paid, the receipt says fifty. */
  lemma ReceiptExample(k: Scales, storage: Storage) returns (c: Chain, tx: ScillaTx)
    requires ValidScales(k)
    ensures ScillaPasses(k, c, tx) && PlainTransfer(k, 50, c, tx).1
    ensures var c' := PlainTransfer(k, 50, c, tx).0;
      Total(c.store.base) - Total(c'.store.base) == 1 && c'.receipt.cumGas == 50
  {
    c, tx := Holding(storage, 7, 1), ScillaTx(7, 8, 0, 1, 1, NonContract);
    TimesIs(1, 1);
    HoldingTotal(storage, 7, 1);
    ScillaCheckMeans(k, tx, 1);
    PlainTransferCommits(k, 50, c, tx);
    PlainTransferCosts(k, 50, c, tx);
  }

  // ---------- contract transactions ----------

  /** No coins made or lost in what the overlay shows, and no gas won. */
  ghost predicate Sound(base: Accounts, total: int, limit: nat, w: World) {
    Total(base + w.atomic) == total && w.gas.core <= limit
  }

  /** Every run of every kind keeps that, and reports no more gas than the limit. */
  ghost predicate SoundRuns(k: Scales, m: Machine<World, Job>, base: Accounts, total: int, limit: nat)
    requires ValidScales(k)
  {
    forall j: Job, w: World {:trigger m.run(j, w)} :: Sound(base, total, limit, w) ==>
      Sound(base, total, limit, m.run(j, w).world) && RemainedCore(k, m.run(j, w).result.payload) <= limit
  }

  lemma {:induction false} SoundLoop(k: Scales, m: Machine<World, Job>, s: Stack<Job>, w: World, n: nat,
                                     base: Accounts, total: int, limit: nat)
    requires ValidScales(k) && SoundRuns(k, m, base, total, limit) && Sound(base, total, limit, w)
    requires s.On? && Exec(m, s, w, n).Some?
    ensures var end := Exec(m, s, w, n).value;
      Sound(base, total, limit, end.world) && RemainedCore(k, end.result.payload) <= limit
    decreases n
  {
    var o := m.run(s.top, w);
    var left := PushAll(s.rest, o.pushed);
    if o.result.success && left.On? {
      SoundLoop(k, m, Feed(m, left, o.after, o.result), o.world, n - 1, base, total, limit);
    }
  }

  /** A failed contract transaction: only the sender's nonce and the fee, if the sender can pay it, are left of it. */
  lemma ScillaFailureCharges(k: Scales, normalGas: nat, c: Chain, tx: ScillaTx, end: End<World, Job>)
    requires ScillaPasses(k, c, tx) && !tx.kind.NonContract?
    requires RemainedCore(k, end.result.payload) <= tx.gasLimit && Failed(end)
    ensures var (c', ok) := RunScilla(k, normalGas, c, tx, end);
      var was := c.store.base[tx.origin];
      var used := tx.gasLimit - RemainedCore(k, end.result.payload);
      var fee := Times(used, tx.gasPrice);
      && !ok
      && c'.receipt == Receipt(used, false)
      && c'.storage == c.storage
      && c'.store.atomic == map[]
      && c'.store.base == c.store.base[tx.origin :=
           Account(if fee <= was.balance then was.balance - fee else was.balance, Rem(was.nonce + 1, U64))]
  {
    var used := tx.gasLimit - RemainedCore(k, end.result.payload);
    FeeFits(k, tx, c.store.base[tx.origin].balance, used);
  }

  lemma FeeFits(k: Scales, tx: ScillaTx, balance: nat, core: nat)
    requires ValidScales(k) && ValidScillaTx(tx) && balance < U128 && core <= tx.gasLimit
    requires CheckScilla(k, tx, balance).Passes?
    ensures Times(core, tx.gasPrice) < U128 && ToQa(k, FromQa(k, Times(core, tx.gasPrice))) == Times(core, tx.gasPrice)
  {
    Products(tx.gasLimit, core, tx.gasPrice);
    QaRoundTrip(k, Times(core, tx.gasPrice));
  }

  /** A contract transaction that succeeds keeps what its runs did, and gets back the price of the gas left. */
  lemma ScillaSuccessCharges(k: Scales, normalGas: nat, c: Chain, tx: ScillaTx, end: End<World, Job>)
    requires ScillaPasses(k, c, tx) && !tx.kind.NonContract?
    requires RemainedCore(k, end.result.payload) <= tx.gasLimit && !Failed(end)
    ensures var (c', ok) := RunScilla(k, normalGas, c, tx, end);
      var shown := c.store.base + end.world.atomic;
      var remained := RemainedCore(k, end.result.payload);
      && ok
      && c'.receipt == Receipt(tx.gasLimit - remained, true)
      && c'.storage == end.world.storage
      && c'.store.base == Settled(shown, tx.origin, Times(remained, tx.gasPrice))
  {
    var remained := RemainedCore(k, end.result.payload);
    FeeFits(k, tx, c.store.base[tx.origin].balance, remained);
    RefundCommits(k, Store(c.store.base, end.world.atomic), tx, remained);
  }

  /** The whole core units in what the last run left over: Scilla counts in those, the EVM in Ethereum gas. */
  ghost predicate Leaves(k: Scales, payload: Payload, core: nat) {
    match payload
    case ScillaResult(g) => core == g
    case EvmResult(g) => Times(core, k.gas) <= g < Times(core + 1, k.gas)
  }

  lemma LeavesIs(k: Scales, payload: Payload, core: nat)
    requires ValidScales(k)
    ensures Leaves(k, payload, core) <==> core == RemainedCore(k, payload)
  {
    if payload.EvmResult? {
      var g := payload.remainingGas;
      DivMod(g, k.gas);
      if core < Floor(g, k.gas) {
        TimesMonotone(core + 1, Floor(g, k.gas), k.gas);
      } else if core > Floor(g, k.gas) {
        TimesMonotone(Floor(g, k.gas) + 1, core, k.gas);
      }
    }
  }

  /**
    Receipt, refund and fee of a contract transaction in terms of what its last run reported: the limit less the units
    left is on the receipt, the units left are refunded on success, the units used are charged on failure.
  */
  lemma ScillaReceipt(k: Scales, normalGas: nat, c: Chain, tx: ScillaTx, end: End<World, Job>, core: nat)
    requires ScillaPasses(k, c, tx) && !tx.kind.NonContract?
    requires Leaves(k, end.result.payload, core) && core <= tx.gasLimit
    ensures RemainedCore(k, end.result.payload) < U64
    ensures var c' := RunScilla(k, normalGas, c, tx, end).0;
      var fee, was := Times(tx.gasLimit - core, tx.gasPrice), c.store.base[tx.origin];
      && c'.receipt == Receipt(tx.gasLimit - core, !Failed(end))
      && (!Failed(end) ==>
            c'.store.base == Settled(c.store.base + end.world.atomic, tx.origin, Times(core, tx.gasPrice)))
      && (Failed(end) ==> c'.store.base[tx.origin].balance == was.balance - if fee <= was.balance then fee else 0)
  {
    LeavesIs(k, end.result.payload, core);
    if Failed(end) {
      ScillaFailureCharges(k, normalGas, c, tx, end);
    } else {
      ScillaSuccessCharges(k, normalGas, c, tx, end);
    }
  }

  /** The total the runs start from. */
  ghost function StartTotal(k: Scales, c: Chain, tx: ScillaTx): nat
    requires ValidScales(k)
  {
    Total(c.store.base + ScillaLoopStart(k, c, tx).atomic)
  }

  lemma StartTotalIs(k: Scales, c: Chain, tx: ScillaTx)
    requires ScillaPasses(k, c, tx)
    ensures StartTotal(k, c, tx) ==
      Total(c.store.base) - (if Deposit(tx) <= c.store.base[tx.origin].balance then Deposit(tx) else 0)
  {
    DepositTakes(k, c, tx);
    if CanPay(c.store.base, tx.origin, Deposit(tx)) {
      TotalAfterDebit(c.store.base, tx.origin, Deposit(tx));
    }
  }

  /** What a transaction owes up front: the whole deposit if it succeeds, the fee if it fails. */
  function Owed(tx: ScillaTx, used: nat, failed: bool): nat {
    if failed then Times(used, tx.gasPrice) else Deposit(tx)
  }

  lemma FailureSettles(k: Scales, normalGas: nat, c: Chain, tx: ScillaTx, end: End<World, Job>)
    requires ScillaPasses(k, c, tx) && !tx.kind.NonContract?
    requires RemainedCore(k, end.result.payload) <= tx.gasLimit && Failed(end)
    ensures var c' := RunScilla(k, normalGas, c, tx, end).0;
      Total(c.store.base) - Total(c'.store.base) == Times(c'.receipt.cumGas, tx.gasPrice) <==>
        Times(c'.receipt.cumGas, tx.gasPrice) <= c.store.base[tx.origin].balance
  {
    ScillaFailureCharges(k, normalGas, c, tx, end);
    TotalUpdate(c.store.base, tx.origin, RunScilla(k, normalGas, c, tx, end).0.store.base[tx.origin]);
  }

  lemma SuccessSettles(k: Scales, normalGas: nat, c: Chain, tx: ScillaTx, end: End<World, Job>)
    requires ScillaPasses(k, c, tx) && !tx.kind.NonContract? && Total(c.store.base) < U128
    requires Sound(c.store.base, StartTotal(k, c, tx), tx.gasLimit, end.world)
    requires RemainedCore(k, end.result.payload) <= tx.gasLimit && !Failed(end)
    ensures var c' := RunScilla(k, normalGas, c, tx, end).0;
      Total(c.store.base) - Total(c'.store.base) == Times(c'.receipt.cumGas, tx.gasPrice) <==>
        Deposit(tx) <= c.store.base[tx.origin].balance
  {
    var shown, remained := c.store.base + end.world.atomic, RemainedCore(k, end.result.payload);
    ScillaSuccessCharges(k, normalGas, c, tx, end);
    StartTotalIs(k, c, tx);
    FeeFits(k, tx, c.store.base[tx.origin].balance, remained);
    Products(tx.gasLimit, remained, tx.gasPrice);
    DepositTakes(k, c, tx);
    if Deposit(tx) <= c.store.base[tx.origin].balance {
      SettledTotal(shown, tx.origin, Times(remained, tx.gasPrice));
    } else {
      SettledTotalCarries(shown, tx.origin, Times(remained, tx.gasPrice));
    }
  }

  /**
    Over every kind of sound run and any number of them, a contract transaction lowers the committed total by exactly
    the gas on its receipt at the gas price, whether it succeeds or fails, if and only if the sender's balance covers
    what it owed.
  */
  lemma ContractCosts(k: Scales, normalGas: nat, c: Chain, tx: ScillaTx, m: Machine<World, Job>, job: Job, n: nat)
    requires ScillaPasses(k, c, tx) && !tx.kind.NonContract? && Total(c.store.base) < U128
    requires SoundRuns(k, m, c.store.base, StartTotal(k, c, tx), tx.gasLimit)
    requires Exec(m, On(job, Bottom), ScillaLoopStart(k, c, tx), n).Some?
    ensures var end := Exec(m, On(job, Bottom), ScillaLoopStart(k, c, tx), n).value;
      RemainedCore(k, end.result.payload) <= tx.gasLimit &&
      var c' := RunScilla(k, normalGas, c, tx, end).0;
      Total(c.store.base) - Total(c'.store.base) == Times(c'.receipt.cumGas, tx.gasPrice) <==>
        Owed(tx, c'.receipt.cumGas, Failed(end)) <= c.store.base[tx.origin].balance
  {
    var start := ScillaLoopStart(k, c, tx);
    SoundLoop(k, m, On(job, Bottom), start, n, c.store.base, StartTotal(k, c, tx), tx.gasLimit);
    var end := Exec(m, On(job, Bottom), start, n).value;
    if Failed(end) {
      FailureSettles(k, normalGas, c, tx, end);
    } else {
      SuccessSettles(k, normalGas, c, tx, end);
    }
  }

  /** Which it does whenever deposit and amount do not carry. */
  lemma OwedIsCovered(k: Scales, c: Chain, tx: ScillaTx, used: nat, failed: bool)
    requires ScillaPasses(k, c, tx) && used <= tx.gasLimit && Deposit(tx) + tx.amount < U128
    ensures Owed(tx, used, failed) <= c.store.base[tx.origin].balance
  {
    BothPaidIff(k, c, tx);
    Products(tx.gasLimit, used, tx.gasPrice);
  }

  /** The runs that the model has in full: every kind of run is some `CpsRunTransfer`. */
  function TransferMachine(base: Accounts, transferOf: Job -> TransferRun): Machine<World, Job> {
    Machine((j, w) => TransferIn(base, transferOf(j), j, w), j => false, (j, prev, result) => j)
  }

  function TransferIn(base: Accounts, t: TransferRun, j: Job, w: World): Outcome<World, Job> {
    var o := RunTransfer(t, Store(base, w.atomic));
    Outcome(w.(atomic := o.world.atomic), j, o.result, [])
  }

  /** Transfers are sound runs, whoever pays whom and how much, as long as all coins fit 128 bits. */
  lemma TransfersAreSound(k: Scales, base: Accounts, transferOf: Job -> TransferRun, total: int, limit: nat)
    requires ValidScales(k) && total < U128
    requires forall j :: RemainedCore(k, transferOf(j).previous) <= limit
    ensures SoundRuns(k, TransferMachine(base, transferOf), base, total, limit)
  {
    var m := TransferMachine(base, transferOf);
    forall j: Job, w: World | Sound(base, total, limit, w)
      ensures Sound(base, total, limit, m.run(j, w).world) && RemainedCore(k, m.run(j, w).result.payload) <= limit
    {
      var t, st := transferOf(j), Store(base, w.atomic);
      assert m.run(j, w) == TransferIn(base, t, j, w);
      TransferShows(st, t.from, t.to, t.qa);
      if RunTransfer(t, st).result.success {
        SupplyPreventsCarry(Visible(st), t.from, t.to, t.qa);
      }
    }
  }

  /** So the cost of a contract transaction made of transfers is exact with nothing assumed of its runs. */
  lemma TransfersCost(k: Scales, normalGas: nat, c: Chain, tx: ScillaTx, transferOf: Job -> TransferRun, job: Job,
                      n: nat)
    requires ScillaPasses(k, c, tx) && !tx.kind.NonContract? && Total(c.store.base) < U128
    requires forall j :: RemainedCore(k, transferOf(j).previous) <= tx.gasLimit
    requires Exec(TransferMachine(c.store.base, transferOf), On(job, Bottom), ScillaLoopStart(k, c, tx), n).Some?
    ensures var m := TransferMachine(c.store.base, transferOf);
      var end := Exec(m, On(job, Bottom), ScillaLoopStart(k, c, tx), n).value;
      RemainedCore(k, end.result.payload) <= tx.gasLimit &&
      var c' := RunScilla(k, normalGas, c, tx, end).0;
      Total(c.store.base) - Total(c'.store.base) == Times(c'.receipt.cumGas, tx.gasPrice) <==>
        Owed(tx, c'.receipt.cumGas, Failed(end)) <= c.store.base[tx.origin].balance
  {
    StartTotalIs(k, c, tx);
    TransfersAreSound(k, c.store.base, transferOf, StartTotal(k, c, tx), tx.gasLimit);
    ContractCosts(k, normalGas, c, tx, TransferMachine(c.store.base, transferOf), job, n);
  }

  // ---------- EVM transactions ----------

  lemma WeiToQa(k: Scales, wei: nat)
    requires ValidScales(k) && wei < U256 && Floor(wei, k.zil) < U128
    ensures ToQa(k, FromWei(wei)) == Floor(wei, k.zil)
  {}

  /** Gas in core units at the Wei price. */
  function CostWei(k: Scales, tx: EvmTx, core: nat): nat {
    Times(Times(core, k.gas), PriceOf(tx))
  }

  lemma CostMonotone(k: Scales, tx: EvmTx, a: nat, b: nat)
    requires a <= b
    ensures CostWei(k, tx, a) <= CostWei(k, tx, b) && Times(a, k.gas) <= Times(b, k.gas)
    ensures CostWei(k, tx, b - a) == CostWei(k, tx, b) - CostWei(k, tx, a)
  {
    Products(b, a, k.gas);
    Products(Times(b, k.gas), Times(a, k.gas), PriceOf(tx));
  }

  lemma DepositFits(k: Scales, tx: EvmTx)
    requires ValidScales(k) && ValidEvmTx(tx)
    ensures DepositWei(k, tx) == CostWei(k, tx, Floor(tx.txLimit, k.gas)) < U64 * U128
    ensures RoundedLimit(k, tx) <= tx.txLimit
  {
    FloorBelow(tx.txLimit, k.gas);
    TimesBelow128(RoundedLimit(k, tx), PriceOf(tx));
  }

  /** A transaction that gets past pre-validation. */
  ghost predicate EvmPasses(k: Scales, c: Chain, tx: EvmTx) {
    ValidScales(k) && ValidChain(c) && ValidEvmTx(tx) && PreValidateEvm(k, c, tx).Passes?
  }

  /** Deposit and amount together, in whole Qa. */
  function ClaimQa(k: Scales, tx: EvmTx): nat
    requires ValidScales(k)
  {
    Floor(DepositWei(k, tx) + tx.amount, k.zil)
  }

  /** The check compares what the conversion to 128 bits has kept of the claim. */
  lemma EvmCheckMeans(k: Scales, c: Chain, tx: EvmTx)
    requires ValidScales(k) && ValidChain(c) && ValidEvmTx(tx)
    ensures PreValidateEvm(k, c, tx).Passes? <==>
              Rem(ClaimQa(k, tx), U128) <= BalanceOf(c.store.base, tx.origin) && tx.floor <= tx.argsLimit
  {
    DepositFits(k, tx);
    QaRoundTrip(k, BalanceOf(c.store.base, tx.origin));
  }

  /** It lets through a claim beyond the balance exactly when the claim was cut to within it. */
  lemma EvmCheckGap(k: Scales, c: Chain, tx: EvmTx)
    requires ValidScales(k) && ValidChain(c) && ValidEvmTx(tx)
    ensures (PreValidateEvm(k, c, tx).Passes? && ClaimQa(k, tx) > BalanceOf(c.store.base, tx.origin)) <==>
              && tx.floor <= tx.argsLimit
              && ClaimQa(k, tx) >= U128
              && Rem(ClaimQa(k, tx), U128) <= BalanceOf(c.store.base, tx.origin)
  {
    EvmCheckMeans(k, c, tx);
  }

  /**
    With the node's scales, 42000000 units of gas at a price of 2^128 / 42 + 1 Wei claim over 2^128 Qa of an account
    that holds 42.
  */
  lemma EvmCheckExample(storage: Storage) returns (k: Scales, c: Chain, tx: EvmTx)
    ensures k == Scales(1000000, 420) && c == Holding(storage, 7, 42) && tx.floor == 21000 && tx.amount == 0
    ensures tx.origin == 7 && tx.commit && !tx.isStatic && tx.txLimit == tx.argsLimit
    ensures EvmPasses(k, c, tx) && ClaimQa(k, tx) >= U128
  {
    k, c := Scales(1000000, 420), Holding(storage, 7, 42);
    tx := EvmTx(7, 42000000, 42000000, U128 / 42 + 1, 0, 21000, false, true, false);
    FloorIs(42000000, 420);
    TimesIs(100000, 420);
    TimesIs(42000000, tx.gasPrice);
    FloorIs(42000000 * tx.gasPrice, 1000000);
    RemOnce(ClaimQa(k, tx), U128);
    EvmCheckMeans(k, c, tx);
  }

  /**
    Past the check, deposit and amount, each in whole Qa, are covered exactly when the claim was not cut; but for the
    one balance of 2^128 - 1 that rounding brings the two back to.
  */
  lemma EvmCoveredIff(k: Scales, c: Chain, tx: EvmTx)
    requires EvmPasses(k, c, tx)
    ensures var both, balance := Floor(DepositWei(k, tx), k.zil) + Floor(tx.amount, k.zil),
      BalanceOf(c.store.base, tx.origin);
      both <= balance <==> ClaimQa(k, tx) < U128 || both == balance == U128 - 1
  {
    EvmCheckMeans(k, c, tx);
    FloorOfSum(DepositWei(k, tx), tx.amount, k.zil);
  }

  function DepositQa(k: Scales, tx: EvmTx): nat
    requires ValidScales(k)
  {
    ToQa(k, FromWei(DepositWei(k, tx)))
  }

  /** The balance covers the deposit. */
  ghost predicate Affordable(k: Scales, c: Chain, tx: EvmTx) {
    EvmPasses(k, c, tx) && Floor(DepositWei(k, tx), k.zil) <= BalanceOf(c.store.base, tx.origin)
  }

  lemma AmountsFit(k: Scales, c: Chain, tx: EvmTx)
    requires Affordable(k, c, tx)
    ensures DepositQa(k, tx) == Floor(DepositWei(k, tx), k.zil) <= BalanceOf(c.store.base, tx.origin) < U128
    ensures ToQa(k, FromWei(tx.amount)) == Floor(tx.amount, k.zil)
    ensures MulFits(RoundedLimit(k, tx), PriceOf(tx), U256)
  {
    DepositFits(k, tx);
    FloorBelow(tx.amount, k.zil);
    WeiToQa(k, DepositWei(k, tx));
    WeiToQa(k, tx.amount);
  }

  /** What the overlay shows after the deposit; an account that does not exist owes none. */
  function DepositedEvm(k: Scales, m: Accounts, tx: EvmTx): Accounts
    requires ValidScales(k)
  {
    if CanPay(m, tx.origin, DepositQa(k, tx)) then Debited(m, tx.origin, DepositQa(k, tx)) else m
  }

  lemma DepositShows(k: Scales, c: Chain, tx: EvmTx)
    requires Affordable(k, c, tx)
    ensures DepositEvm(k, Discard(c.store), tx).base == c.store.base
    ensures Visible(DepositEvm(k, Discard(c.store), tx)) == DepositedEvm(k, c.store.base, tx)
    ensures Total(DepositedEvm(k, c.store.base, tx)) == Total(c.store.base) - DepositQa(k, tx)
  {
    AmountsFit(k, c, tx);
    var st := Discard(c.store);
    assert Visible(st) == c.store.base;
    DecreaseShows(st, tx.origin, DepositQa(k, tx));
    if CanPay(c.store.base, tx.origin, DepositQa(k, tx)) {
      TotalAfterDebit(c.store.base, tx.origin, DepositQa(k, tx));
    }
  }

  /**
    Past the check, the deposit is taken in full and a transfer of the amount goes through exactly when the balance
    covers both.
  */
  lemma EvmDepositAndTransferSucceed(k: Scales, c: Chain, tx: EvmTx, to: Address)
    requires EvmPasses(k, c, tx) && tx.origin in c.store.base
    ensures var st, balance := DepositEvm(k, Discard(c.store), tx), c.store.base[tx.origin].balance;
      var deposit, amount := Floor(DepositWei(k, tx), k.zil), Floor(tx.amount, k.zil);
      && (deposit <= balance ==> Visible(st) == Debited(c.store.base, tx.origin, deposit))
      && (deposit <= balance && Transfer(st, tx.origin, to, ToQa(k, FromWei(tx.amount))).1 <==>
        deposit + amount <= balance)
  {
    if Affordable(k, c, tx) {
      AmountsFit(k, c, tx);
      DepositShows(k, c, tx);
      TransferShows(DepositEvm(k, Discard(c.store), tx), tx.origin, to, ToQa(k, FromWei(tx.amount)));
    }
  }

  /** A real transaction, as opposed to an estimate or an eth_call, whose arguments carry its own gas limit. */
  predicate Committing(tx: EvmTx) {
    tx.commit && !tx.isStatic && tx.argsLimit == tx.txLimit
  }

  lemma EvmUsed(k: Scales, tx: EvmTx, remained: nat)
    requires ValidScales(k) && ValidEvmTx(tx) && Committing(tx) && remained <= CoreLimit(k, tx)
    ensures var used := CoreLimit(k, tx) - remained;
      && Minus64(CoreLimit(k, tx), remained) == used
      && Rem(Times(used, k.gas), U64) == Times(used, k.gas)
      && EthGas(k.gas, Gas(remained, 0)) == Times(remained, k.gas)
      && DepositWei(k, tx) == CostWei(k, tx, used) + CostWei(k, tx, remained)
      && DepositWei(k, tx) < U64 * U128
  {
    var limit := CoreLimit(k, tx);
    DepositFits(k, tx);
    CostMonotone(k, tx, remained, limit);
    CostMonotone(k, tx, limit - remained, limit);
  }

  /** A failed EVM transaction leaves the nonce and what 128 bits keep of the fee, if the sender has that much. */
  lemma EvmFailureCharges(k: Scales, c: Chain, tx: EvmTx, end: End<World, Job>)
    requires EvmPasses(k, c, tx) && Committing(tx) && end.world.gas.core <= CoreLimit(k, tx) && Failed(end)
    ensures var (c', ok) := RunEvm(k, c, tx, end);
      var used := CoreLimit(k, tx) - end.world.gas.core;
      var m, kept := c.store.base, Rem(Floor(CostWei(k, tx, used), k.zil), U128);
      && !ok
      && c'.receipt == Receipt(used, false)
      && c'.storage == c.storage
      && c'.store.base == if tx.origin !in m then m
                          else if kept <= m[tx.origin].balance then
                            m[tx.origin := Account(m[tx.origin].balance - kept, Rem(m[tx.origin].nonce + 1, U64))]
                          else m[tx.origin := Account(m[tx.origin].balance, Rem(m[tx.origin].nonce + 1, U64))]
  {
    EvmUsed(k, tx, end.world.gas.core);
  }

  /** The refund is paid exactly when its Wei fit 128 bits. */
  lemma RefundIs(k: Scales, tx: EvmTx, remained: nat, st: Store)
    requires ValidScales(k) && ValidEvmTx(tx) && Committing(tx) && remained <= CoreLimit(k, tx)
    ensures RefundEvm(k, st, tx, remained) ==
      if CostWei(k, tx, remained) < U128
        then IncreaseBalance(st, tx.origin, Floor(CostWei(k, tx, remained), k.zil)).0
        else st
  {
    EvmUsed(k, tx, remained);
    var refund := CostWei(k, tx, remained);
    if refund < U128 {
      FloorBelow(refund, k.zil);
      WeiToQa(k, refund);
    }
  }

  /** The deposit less what comes back, against the fee: one Qa of rounding, or the whole unpaid refund. */
  lemma RoundingOnly(k: Scales, fee: nat, refund: nat)
    requires ValidScales(k)
    ensures var spent := Floor(fee + refund, k.zil) - (if refund < U128 then Floor(refund, k.zil) else 0);
      Floor(fee, k.zil) <= spent <= Floor(fee, k.zil) + 1 <==> refund < U128
  {
    FloorOfSum(fee, refund, k.zil);
  }

  ghost predicate WithinOne(spent: int, fee: nat) {
    fee <= spent <= fee + 1
  }

  /** The sender is charged for the gas on the receipt, up to one Qa of rounding. */
  ghost predicate PaysItsGas(k: Scales, tx: EvmTx, before: Chain, after: Chain)
    requires ValidScales(k)
  {
    WithinOne(Total(before.store.base) - Total(after.store.base), Floor(CostWei(k, tx, after.receipt.cumGas), k.zil))
  }

  /** It pays for its gas if and only if the sender's balance covers the fee, which pre-validation does not ensure. */
  lemma EvmFailurePays(k: Scales, c: Chain, tx: EvmTx, end: End<World, Job>)
    requires EvmPasses(k, c, tx) && Committing(tx) && end.world.gas.core <= CoreLimit(k, tx) && Failed(end)
    ensures PaysItsGas(k, tx, c, RunEvm(k, c, tx, end).0) <==>
              Floor(CostWei(k, tx, CoreLimit(k, tx) - end.world.gas.core), k.zil) <= BalanceOf(c.store.base, tx.origin)
  {
    EvmFailureCharges(k, c, tx, end);
    var m0, c' := c.store.base, RunEvm(k, c, tx, end).0;
    if tx.origin in m0 {
      TotalUpdate(m0, tx.origin, c'.store.base[tx.origin]);
      assert c'.store.base == m0[tx.origin := c'.store.base[tx.origin]];
    }
  }

  /** At the input the check lets through, a failed run that used all its gas is not paid for. */
  lemma UnpaidExample(storage: Storage, job: Job) returns (k: Scales, c: Chain, tx: EvmTx, end: End<World, Job>)
    ensures k == Scales(1000000, 420) && c == Holding(storage, 7, 42)
    ensures EvmPasses(k, c, tx) && Committing(tx) && Failed(end) && end.world.gas.core == 0
    ensures !PaysItsGas(k, tx, c, RunEvm(k, c, tx, end).0)
  {
    k, c, tx := EvmCheckExample(storage);
    end := End(Bottom, EvmLoopStart(k, c, tx).(gas := Gas(0, 0)), job, RunResult(false, EvmResult(0)), 1);
    EvmUsed(k, tx, 0);
    FloorIs(42000000, 420);
    EvmFailurePays(k, c, tx, end);
  }

  /** What a successful transaction commits. */
  lemma EvmSuccessCommits(k: Scales, c: Chain, tx: EvmTx, end: End<World, Job>)
    requires EvmPasses(k, c, tx) && Committing(tx) && end.world.gas.core <= CoreLimit(k, tx) && !Failed(end)
    ensures var c' := RunEvm(k, c, tx, end).0;
      var shown, refund := c.store.base + end.world.atomic, CostWei(k, tx, end.world.gas.core);
      && c'.receipt == Receipt(CoreLimit(k, tx) - end.world.gas.core, true)
      && c'.storage == end.world.storage
      && c'.store.base == if refund < U128 && tx.origin in shown then Settled(shown, tx.origin, Floor(refund, k.zil))
                          else Stamped(shown, tx.origin)
  {
    var st := Store(c.store.base, end.world.atomic);
    RefundIs(k, tx, end.world.gas.core, st);
    IncreaseShows(st, tx.origin, Floor(CostWei(k, tx, end.world.gas.core), k.zil));
  }

  lemma EvmSuccessTotal(k: Scales, c: Chain, tx: EvmTx, end: End<World, Job>)
    requires EvmPasses(k, c, tx) && Committing(tx) && end.world.gas.core <= CoreLimit(k, tx) && !Failed(end)
    requires Total(c.store.base + end.world.atomic) + Floor(CostWei(k, tx, end.world.gas.core), k.zil) < U128
    requires Floor(CostWei(k, tx, end.world.gas.core), k.zil) <= BalanceOf(c.store.base, tx.origin)
    ensures var refund := CostWei(k, tx, end.world.gas.core);
      Total(RunEvm(k, c, tx, end).0.store.base) ==
        Total(c.store.base + end.world.atomic) + if refund < U128 then Floor(refund, k.zil) else 0
  {
    var shown, refund := c.store.base + end.world.atomic, CostWei(k, tx, end.world.gas.core);
    EvmSuccessCommits(k, c, tx, end);
    SettledTotal(shown, tx.origin, Floor(refund, k.zil));
    TotalAfterStamp(shown, tx.origin);
  }

  lemma EvmSuccessPays(k: Scales, c: Chain, tx: EvmTx, end: End<World, Job>)
    requires Affordable(k, c, tx) && Committing(tx) && end.world.gas.core <= CoreLimit(k, tx) && !Failed(end)
    requires Total(c.store.base) < U128
    requires Sound(c.store.base, Total(c.store.base) - DepositQa(k, tx), CoreLimit(k, tx), end.world)
    ensures PaysItsGas(k, tx, c, RunEvm(k, c, tx, end).0) <==> CostWei(k, tx, end.world.gas.core) < U128
  {
    var remained := end.world.gas.core;
    var refund, fee := CostWei(k, tx, remained), CostWei(k, tx, CoreLimit(k, tx) - remained);
    EvmUsed(k, tx, remained);
    AmountsFit(k, c, tx);
    Monotone(refund, DepositWei(k, tx), k.zil);
    EvmSuccessTotal(k, c, tx, end);
    EvmSuccessCommits(k, c, tx, end);
    RoundingOnly(k, fee, refund);
  }

  /** The total the runs start from. */
  ghost function EvmStartTotal(k: Scales, c: Chain, tx: EvmTx): nat
    requires ValidScales(k)
  {
    Total(c.store.base + EvmLoopStart(k, c, tx).atomic)
  }

  /**
    When the sender pays for the gas: after a failure exactly if the balance covers the fee; after a success, with the
    deposit covered, exactly if the Wei of the refund fit 128 bits.
  */
  ghost predicate PaysWhenItCan(k: Scales, c: Chain, tx: EvmTx, end: End<World, Job>)
    requires ValidScales(k) && ValidEvmTx(tx) && end.world.gas.core <= CoreLimit(k, tx)
  {
    var balance, remained := BalanceOf(c.store.base, tx.origin), end.world.gas.core;
    var pays := PaysItsGas(k, tx, c, RunEvm(k, c, tx, end).0);
    && (Failed(end) ==> (pays <==> Floor(CostWei(k, tx, CoreLimit(k, tx) - remained), k.zil) <= balance))
    && (!Failed(end) && Floor(DepositWei(k, tx), k.zil) <= balance ==> (pays <==> CostWei(k, tx, remained) < U128))
  }

  lemma EvmSettles(k: Scales, c: Chain, tx: EvmTx, end: End<World, Job>)
    requires EvmPasses(k, c, tx) && Committing(tx) && Total(c.store.base) < U128
    requires Sound(c.store.base, EvmStartTotal(k, c, tx), CoreLimit(k, tx), end.world)
    ensures PaysWhenItCan(k, c, tx, end)
  {
    if Failed(end) {
      EvmFailurePays(k, c, tx, end);
    } else if Affordable(k, c, tx) {
      DepositShows(k, c, tx);
      EvmSuccessPays(k, c, tx, end);
    }
  }

  /**
    Over every kind of sound run and any number of them, an EVM transaction costs its sender the gas on its receipt at
    the gas price, up to one Qa of rounding, exactly when it can.
  */
  lemma EvmCosts(k: Scales, c: Chain, tx: EvmTx, m: Machine<World, Job>, job: Job, n: nat)
    requires EvmPasses(k, c, tx) && Committing(tx) && Total(c.store.base) < U128
    requires SoundRuns(k, m, c.store.base, EvmStartTotal(k, c, tx), CoreLimit(k, tx))
    requires Exec(m, On(job, Bottom), EvmLoopStart(k, c, tx), n).Some?
    ensures var end := Exec(m, On(job, Bottom), EvmLoopStart(k, c, tx), n).value;
      end.world.gas.core <= CoreLimit(k, tx) && PaysWhenItCan(k, c, tx, end)
  {
    var start := EvmLoopStart(k, c, tx);
    SoundLoop(k, m, On(job, Bottom), start, n, c.store.base, EvmStartTotal(k, c, tx), CoreLimit(k, tx));
    EvmSettles(k, c, tx, Exec(m, On(job, Bottom), start, n).value);
  }

  /**
    With the node's scales and a price just above 2^128 / 21000 Wei, a transaction that uses 50 of its 100 core units
    succeeds, and the refund for the other 50 does not fit and is not paid.
  */
  lemma RefundExample(storage: Storage, job: Job) returns (k: Scales, c: Chain, tx: EvmTx, end: End<World, Job>)
    ensures k == Scales(1000000, 420) && tx.floor == 21000 && tx.txLimit == 42000
    ensures Affordable(k, c, tx) && Committing(tx) && !Failed(end) && end.world.gas.core == 50
    ensures end.world.atomic == EvmLoopStart(k, c, tx).atomic
    ensures !PaysItsGas(k, tx, c, RunEvm(k, c, tx, end).0)
  {
    k, c := Scales(1000000, 420), Holding(storage, 7, U128 / 2);
    tx := EvmTx(7, 42000, 42000, U128 / 21000 + 1, 0, 21000, false, true, false);
    HoldingTotal(storage, 7, U128 / 2);
    ExampleNumbers(k, tx);
    RemOnce(ClaimQa(k, tx), U128);
    EvmCheckMeans(k, c, tx);
    end := End(Bottom, EvmLoopStart(k, c, tx).(gas := Gas(50, 0)), job, RunResult(true, EvmResult(21000)), 1);
    DepositShows(k, c, tx);
    EvmSuccessPays(k, c, tx, end);
  }

  lemma ExampleNumbers(k: Scales, tx: EvmTx)
    requires k == Scales(1000000, 420) && tx == EvmTx(7, 42000, 42000, U128 / 21000 + 1, 0, 21000, false, true, false)
    ensures CoreLimit(k, tx) == 100 && CostWei(k, tx, 50) >= U128
    ensures ClaimQa(k, tx) == Floor(DepositWei(k, tx), k.zil) <= U128 / 2
  {
    FloorIs(42000, 420);
    TimesIs(100, 420);
    TimesIs(42000, tx.gasPrice);
    FloorIs(42000 * tx.gasPrice, 1000000);
    TimesIs(50, 420);
    TimesIs(21000, tx.gasPrice);
  }

  /**
    An estimate or an eth_call leaves the storage alone. It leaves the accounts alone too, unless pre-validation turns
    it away: then it uses up the sender's nonce like any other transaction.
  */
  lemma DryRunLeavesNothing(k: Scales, c: Chain, tx: EvmTx, end: End<World, Job>)
    requires ValidScales(k) && ValidEvmTx(tx) && end.world.gas.core < U64 && (!tx.commit || tx.isStatic)
    ensures var (c', ok) := RunEvm(k, c, tx, end);
      && c'.storage == c.storage
      && (c'.store.base == c.store.base <==> PreValidateEvm(k, c, tx).Passes? || tx.origin !in c.store.base)
      && ok == (PreValidateEvm(k, c, tx).Passes? && (!tx.commit || !Failed(end)))
      && (PreValidateEvm(k, c, tx).Passes? && end.world.gas.core <= CoreLimit(k, tx) ==>
            c'.receipt == Receipt(CoreLimit(k, tx) - end.world.gas.core, !Failed(end)))
  {
    if tx.origin in c.store.base {
      NonceMoves(c.store.base[tx.origin].nonce);
    }
  }

  /** An estimate of gas alone takes no deposit: it asks for its amount and the least gas limit only. */
  lemma EstimateTakesNoDeposit(k: Scales, c: Chain, tx: EvmTx)
    requires ValidScales(k) && ValidChain(c) && ValidEvmTx(tx) && tx.estimateOnly
    ensures PreValidateEvm(k, c, tx).Passes? <==>
              Floor(tx.amount, k.zil) <= BalanceOf(c.store.base, tx.origin) && tx.floor <= tx.argsLimit
    ensures c.store.base + EvmLoopStart(k, c, tx).atomic == c.store.base
  {
    TimesZero(RoundedLimit(k, tx));
    EvmCheckMeans(k, c, tx);
    FloorBelow(tx.amount, k.zil);
    DepositShows(k, c, tx.(amount := 0, floor := 0));
  }

  lemma {:induction false} TimesZero(n: nat)
    ensures Times(n, 0) == 0
  {
    if n > 0 {
      TimesZero(n - 1);
    }
  }

  lemma NonceMoves(nonce: nat)
    ensures Rem(nonce + 1, U64) != nonce
  {
    DivMod(nonce + 1, U64);
  }
}
