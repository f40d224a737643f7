/** Accounts in two layers: what is committed, and the atomic overlay a transaction works on. */
module AccountStore {
  import opened Arithmetic

  type Address = nat

  datatype Account = Account(balance: nat, nonce: nat)

  type Accounts = map<Address, Account>

  datatype Store = Store(base: Accounts, atomic: Accounts)

  /** What the atomic layer shows: its own copies over the committed accounts. */
  function Visible(st: Store): Accounts {
    st.base + st.atomic
  }

  /** `AccountStoreAtomic::GetAccount` copies a committed account into the overlay on first access. */
  function Pull(st: Store, a: Address): Store {
    if a !in st.atomic && a in st.base then st.(atomic := st.atomic[a := st.base[a]]) else st
  }

  /** The copy changes nothing in what the overlay shows. */
  lemma PullShows(st: Store, a: Address)
    ensures var st' := Pull(st, a);
      && st'.base == st.base
      && Visible(st') == Visible(st)
      && (if a in Visible(st) then a in st'.atomic && st'.atomic[a] == Visible(st)[a] else a !in st'.atomic)
  {}

  /** `AccountBase::IncreaseBalance`: the sum is stored into its own operand, so a carry out of 128 bits is not seen. */
  function Credit(acc: Account, delta: nat): Account {
    acc.(balance := Rem(acc.balance + delta, U128))
  }

  // ---------- the overlay's operations ----------

  function DecreaseBalance(st: Store, a: Address, delta: nat): (Store, bool) {
    var st' := Pull(st, a);
    if a !in st'.atomic || st'.atomic[a].balance < delta then (st', false)
    else (st'.(atomic := st'.atomic[a := st'.atomic[a].(balance := st'.atomic[a].balance - delta)]), true)
  }

  /** `IncreaseBalanceAtomic`: only an existing account can be credited. */
  function IncreaseBalance(st: Store, a: Address, delta: nat): (Store, bool) {
    var st' := Pull(st, a);
    if a !in st'.atomic then (st', false)
    else (st'.(atomic := st'.atomic[a := Credit(st'.atomic[a], delta)]), true)
  }

  /** `AccountStoreBase::TransferBalance` on the overlay; the recipient is created if missing. */
  function Transfer(st: Store, from: Address, to: Address, delta: nat): (Store, bool) {
    if delta == 0 then (st, true)
    else
      var (st1, ok) := DecreaseBalance(st, from, delta);
      if !ok then (st1, false)
      else
        var st2 := Pull(st1, to);
        if to in st2.atomic then (st2.(atomic := st2.atomic[to := Credit(st2.atomic[to], delta)]), true)
        else (st2.(atomic := st2.atomic[to := Account(delta, 0)]), true)
  }

  function Commit(st: Store): Store {
    Store(st.base + st.atomic, st.atomic)
  }

  function Discard(st: Store): Store {
    Store(st.base, map[])
  }

  /** `IncreaseNonceForAccount`, on the committed layer. */
  function BumpNonce(st: Store, a: Address): Store {
    st.(base := Stamped(st.base, a))
  }

  /** `DecreaseBalance`, on the committed layer. */
  function ChargeBase(st: Store, a: Address, delta: nat): Store {
    if a in st.base && st.base[a].balance >= delta then
      st.(base := st.base[a := st.base[a].(balance := st.base[a].balance - delta)])
    else st
  }

  // ---------- one layer, for reference ----------

  predicate CanPay(m: Accounts, a: Address, delta: nat) {
    a in m && m[a].balance >= delta
  }

  function Debited(m: Accounts, a: Address, delta: nat): Accounts
    requires CanPay(m, a, delta)
  {
    m[a := m[a].(balance := m[a].balance - delta)]
  }

  function Credited(m: Accounts, a: Address, delta: nat): Accounts {
    m[a := if a in m then Credit(m[a], delta) else Account(delta, 0)]
  }

  function Stamped(m: Accounts, a: Address): Accounts {
    if a in m then m[a := m[a].(nonce := Rem(m[a].nonce + 1, U64))] else m
  }

  function Moved(m: Accounts, from: Address, to: Address, delta: nat): Accounts
    requires delta == 0 || CanPay(m, from, delta)
  {
    if delta == 0 then m else Credited(Debited(m, from, delta), to, delta)
  }

  lemma CreditShows(st: Store, a: Address, delta: nat)
    requires a in st.atomic <==> a in Visible(st)
    ensures Visible(st.(atomic := st.atomic[
                          a := if a in st.atomic then Credit(st.atomic[a], delta) else Account(delta, 0)]))
              == Credited(Visible(st), a, delta)
  {}

  lemma DecreaseShows(st: Store, a: Address, delta: nat)
    ensures var (st', ok) := DecreaseBalance(st, a, delta);
      && st'.base == st.base
      && ok == CanPay(Visible(st), a, delta)
      && Visible(st') == if ok then Debited(Visible(st), a, delta) else Visible(st)
  {
    PullShows(st, a);
    var (st', ok) := DecreaseBalance(st, a, delta);
    if ok {
      assert Visible(st') == Debited(Visible(st), a, delta);
    }
  }

  lemma IncreaseShows(st: Store, a: Address, delta: nat)
    ensures var (st', ok) := IncreaseBalance(st, a, delta);
      && st'.base == st.base
      && ok == (a in Visible(st))
      && Visible(st') == if ok then Credited(Visible(st), a, delta) else Visible(st)
  {
    PullShows(st, a);
    if a in Visible(st) {
      CreditShows(Pull(st, a), a, delta);
    }
  }

  /** On what the overlay shows, a transfer is a debit and a credit, or nothing. */
  lemma TransferShows(st: Store, from: Address, to: Address, delta: nat)
    ensures var (st', ok) := Transfer(st, from, to, delta);
      && st'.base == st.base
      && ok == (delta == 0 || CanPay(Visible(st), from, delta))
      && Visible(st') == if ok then Moved(Visible(st), from, to, delta) else Visible(st)
  {
    if delta > 0 {
      DecreaseShows(st, from, delta);
      var (st1, ok) := DecreaseBalance(st, from, delta);
      if ok {
        PullShows(st1, to);
        CreditShows(Pull(st1, to), to, delta);
      }
    }
  }

  // ---------- the total of all balances ----------

  ghost function Total(m: Accounts): nat
    decreases |m|
  {
    if m == map[] then 0
    else
      var a :| a in m;
      assert |m - {a}| < |m|;
      m[a].balance + Total(m - {a})
  }

  /** Any account can be taken out first. */
  lemma {:induction false} TotalWithout(m: Accounts, a: Address)
    requires a in m
    ensures Total(m) == m[a].balance + Total(m - {a})
    decreases |m|
  {
    var b :| b in m && Total(m) == m[b].balance + Total(m - {b});
    if a != b {
      assert |m - {b}| < |m| && |m - {a}| < |m|;
      TotalWithout(m - {b}, a);
      TotalWithout(m - {a}, b);
      assert (m - {b}) - {a} == (m - {a}) - {b};
    }
  }

  lemma TotalUpdate(m: Accounts, a: Address, acc: Account)
    ensures Total(m[a := acc]) == Total(m) - (if a in m then m[a].balance else 0) + acc.balance
  {
    var m' := m[a := acc];
    TotalWithout(m', a);
    if a in m {
      TotalWithout(m, a);
      assert m' - {a} == m - {a};
    } else {
      assert m' - {a} == m;
    }
  }

  lemma TotalAfterStamp(m: Accounts, a: Address)
    ensures Total(Stamped(m, a)) == Total(m)
  {
    if a in m {
      TotalUpdate(m, a, m[a].(nonce := Rem(m[a].nonce + 1, U64)));
    }
  }

  lemma TotalAfterDebit(m: Accounts, a: Address, delta: nat)
    requires CanPay(m, a, delta)
    ensures Total(Debited(m, a, delta)) == Total(m) - delta
  {
    TotalUpdate(m, a, m[a].(balance := m[a].balance - delta));
  }

  lemma TotalAfterCredit(m: Accounts, a: Address, delta: nat)
    requires Total(m) + delta < U128
    ensures Total(Credited(m, a, delta)) == Total(m) + delta
  {
    if a in m {
      BalanceWithinTotal(m, a);
      TotalUpdate(m, a, Credit(m[a], delta));
    } else {
      TotalUpdate(m, a, Account(delta, 0));
    }
  }

  /** A transfer keeps the total exactly when the credit does not carry out of 128 bits. */
  lemma TransferConserves(m: Accounts, from: Address, to: Address, delta: nat)
    requires CanPay(m, from, delta) && delta < U128 && forall a :: a in m ==> m[a].balance < U128
    ensures var d := Debited(m, from, delta);
      Total(Credited(d, to, delta)) == Total(m) <==> (to in d ==> d[to].balance + delta < U128)
  {
    var d := Debited(m, from, delta);
    TotalUpdate(m, from, m[from].(balance := m[from].balance - delta));
    TotalUpdate(d, to, if to in d then Credit(d[to], delta) else Account(delta, 0));
    if to in d {
      DivMod(d[to].balance + delta, U128);
    }
  }

  /** A transfer of one to an account at the limit. */
  lemma CarryExample() returns (m: Accounts)
    ensures CanPay(m, 1, 1) && Total(Credited(Debited(m, 1, 1), 2, 1)) != Total(m)
  {
    m := map[1 := Account(1, 0), 2 := Account(U128 - 1, 0)];
    TransferConserves(m, 1, 2, 1);
  }

  lemma BalanceWithinTotal(m: Accounts, a: Address)
    requires a in m
    ensures m[a].balance <= Total(m)
  {
    TotalWithout(m, a);
  }

  /** With a supply that fits 128 bits no credit ever carries. */
  lemma SupplyPreventsCarry(m: Accounts, from: Address, to: Address, delta: nat)
    requires (delta == 0 || CanPay(m, from, delta)) && Total(m) < U128
    ensures Total(Moved(m, from, to, delta)) == Total(m)
  {
    if delta > 0 {
      TotalAfterDebit(m, from, delta);
      TotalAfterCredit(Debited(m, from, delta), to, delta);
    }
  }
}
