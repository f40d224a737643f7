/** Wei and Qa, Ethereum gas and core gas, in the source's fixed-width arithmetic. */
module Amounts {
  import opened Arithmetic

  /** EVM_ZIL_SCALING_FACTOR and MIN_ETH_GAS / NORMAL_TRAN_GAS. */
  datatype Scales = Scales(zil: nat, gas: nat)

  predicate ValidScales(k: Scales) {
    1 <= k.zil < U64 && 1 <= k.gas < U64
  }

  datatype Amount = Amount(wei: nat)

  function FromWei(wei: nat): Amount {
    Amount(Rem(wei, U256))
  }

  function FromQa(k: Scales, qa: nat): Amount {
    Amount(Rem(Times(qa, k.zil), U256))
  }

  /** Division drops the remainder and the conversion keeps 128 bits. */
  function ToQa(k: Scales, a: Amount): nat
    requires ValidScales(k)
  {
    Rem(Floor(a.wei, k.zil), U128)
  }

  /** `operator<=` compares whole Qa. */
  predicate AtMost(k: Scales, a: Amount, b: Amount)
    requires ValidScales(k)
  {
    ToQa(k, a) <= ToQa(k, b)
  }

  /** `SafeMath::mul` on unsigned integers of the given width. */
  predicate MulFits(a: nat, b: nat, width: nat) {
    Times(a, b) < width
  }

  lemma QaFits(k: Scales, qa: nat)
    requires ValidScales(k) && qa < U128
    ensures Times(qa, k.zil) < U256
  {
    TimesBelow64(qa, k.zil);
  }

  /** Amounts of up to 128 bits survive the trip through Wei, and no others. */
  lemma QaRoundTrip(k: Scales, qa: nat)
    requires ValidScales(k)
    ensures ToQa(k, FromQa(k, qa)) == qa <==> qa < U128
  {
    DivMod(Floor(FromQa(k, qa).wei, k.zil), U128);
    if qa < U128 {
      QaFits(k, qa);
      DivisionIs(qa, 0, k.zil);
    }
  }

  // ---------- gas ----------

  /** The two fields of a `GasTracker`. */
  datatype Gas = Gas(core: nat, remainder: nat)

  datatype GasOp =
    | DecreaseByCore(amount: nat)
    | DecreaseByEth(amount: nat)
    | IncreaseByCore(amount: nat)
    | IncreaseByEth(amount: nat)
    | SetCore(amount: nat)

  /** `GetEthGas` and the common prefix of the Ethereum operations: 64-bit multiplication and addition. */
  function EthGas(scale: nat, g: Gas): nat {
    Rem(Rem(Times(g.core, scale), U64) + g.remainder, U64)
  }

  function FromAbsolute(scale: nat, absolute: nat): Gas
    requires 0 < scale
  {
    Gas(Floor(absolute, scale), Rem(absolute, scale))
  }

  function Apply(scale: nat, g: Gas, op: GasOp): Gas
    requires 0 < scale
  {
    match op
    case DecreaseByCore(v) => g.(core := if g.core > v then g.core - v else 0)
    case DecreaseByEth(v) =>
      var absolute := EthGas(scale, g);
      FromAbsolute(scale, if absolute > v then absolute - v else 0)
    case IncreaseByCore(v) => g.(core := Rem(g.core + v, U64))
    case IncreaseByEth(v) => FromAbsolute(scale, Rem(EthGas(scale, g) + v, U64))
    case SetCore(v) => g.(core := v)
  }

  function ApplyAll(scale: nat, g: Gas, ops: seq<GasOp>): Gas
    requires 0 < scale
  {
    if ops == [] then g else Apply(scale, ApplyAll(scale, g, ops[..|ops| - 1]), ops[|ops| - 1])
  }

  /** The one number a tracker stands for. */
  function Units(scale: nat, g: Gas): nat {
    Times(g.core, scale) + g.remainder
  }

  function Less(a: nat, b: nat): nat {
    if a > b then a - b else 0
  }

  /** What the operations mean on that number: Ethereum gas adds and subtracts, core gas moves whole units only. */
  function Meaning(scale: nat, units: nat, op: GasOp): nat
    requires 0 < scale
  {
    match op
    case DecreaseByCore(v) => Times(Less(Floor(units, scale), v), scale) + Rem(units, scale)
    case DecreaseByEth(v) => Less(units, v)
    case IncreaseByCore(v) => units + Times(v, scale)
    case IncreaseByEth(v) => units + v
    case SetCore(v) => Times(v, scale) + Rem(units, scale)
  }

  function MeaningAll(scale: nat, units: nat, ops: seq<GasOp>): nat
    requires 0 < scale
  {
    if ops == [] then units else Meaning(scale, MeaningAll(scale, units, ops[..|ops| - 1]), ops[|ops| - 1])
  }

  /** A tracker in normal form whose value fits 64 bits. */
  predicate Normal(scale: nat, g: Gas) {
    g.remainder < scale && Units(scale, g) < U64
  }

  lemma FromAbsoluteUnits(scale: nat, absolute: nat)
    requires 0 < scale
    ensures Units(scale, FromAbsolute(scale, absolute)) == absolute
    ensures FromAbsolute(scale, absolute).remainder < scale
  {
    DivMod(absolute, scale);
  }

  lemma EthGasIsUnits(scale: nat, g: Gas)
    requires 0 < scale && Normal(scale, g)
    ensures EthGas(scale, g) == Units(scale, g)
    ensures g.core == Floor(Units(scale, g), scale) && g.remainder == Rem(Units(scale, g), scale)
  {
    DivisionIs(g.core, g.remainder, scale);
  }

  lemma CoreAddition(scale: nat, g: Gas, v: nat)
    requires 0 < scale && g.remainder < scale
    ensures var units' := Units(scale, g.(core := Rem(g.core + v, U64)));
      units' < U64 && units' == Units(scale, g) + Times(v, scale) <==> Units(scale, g) + Times(v, scale) < U64
  {
    var c := g.core + v;
    TimesAdd(g.core, v, scale);
    TimesAbove(c, scale);
  }

  /** One operation does what it means exactly when the meaning fits 64 bits. */
  lemma ApplyMeans(scale: nat, g: Gas, op: GasOp)
    requires 0 < scale && Normal(scale, g)
    ensures Meaning(scale, Units(scale, g), op) < U64 <==>
              Normal(scale, Apply(scale, g, op)) &&
                Units(scale, Apply(scale, g, op)) == Meaning(scale, Units(scale, g), op)
  {
    EthGasIsUnits(scale, g);
    match op
    case DecreaseByCore(v) =>
      if g.core > v {
        TimesAdd(g.core - v, v, scale);
      }
    case DecreaseByEth(v) => FromAbsoluteUnits(scale, Less(EthGas(scale, g), v));
    case IncreaseByCore(v) => CoreAddition(scale, g, v);
    case IncreaseByEth(v) => FromAbsoluteUnits(scale, Rem(EthGas(scale, g) + v, U64));
    case SetCore(v) =>
  }

  /**
    Over every sequence of operations whose meaning never leaves 64 bits, the tracker stands for the number the
    operations mean, its remainder stays below the scale, and core gas is that number rounded down.
  */
  lemma {:induction false} TrackerRefinesNumber(scale: nat, g: Gas, ops: seq<GasOp>)
    requires 0 < scale && Normal(scale, g)
    requires forall i :: 0 <= i <= |ops| ==> MeaningAll(scale, Units(scale, g), ops[..i]) < U64
    ensures var g' := ApplyAll(scale, g, ops);
      && Normal(scale, g')
      && Units(scale, g') == MeaningAll(scale, Units(scale, g), ops)
      && g'.core == Floor(Units(scale, g'), scale)
  {
    assert ops[..|ops|] == ops;
    if ops == [] {
      EthGasIsUnits(scale, g);
    } else {
      var init := ops[..|ops| - 1];
      assert forall i :: 0 <= i <= |init| ==> init[..i] == ops[..i];
      TrackerRefinesNumber(scale, g, init);
      ApplyMeans(scale, ApplyAll(scale, g, init), ops[|ops| - 1]);
      EthGasIsUnits(scale, ApplyAll(scale, g, ops));
    }
  }

  /** Two decreases in Ethereum gas are one. */
  lemma DecreasesAddUp(scale: nat, g: Gas, a: nat, b: nat)
    requires 0 < scale && Normal(scale, g)
    ensures Apply(scale, Apply(scale, g, DecreaseByEth(a)), DecreaseByEth(b)) == Apply(scale, g, DecreaseByEth(a + b))
  {
    ApplyMeans(scale, g, DecreaseByEth(a));
    EthGasIsUnits(scale, g);
    EthGasIsUnits(scale, Apply(scale, g, DecreaseByEth(a)));
  }

  /** The tracker object. */
  class GasTracker {
    const scale: nat
    var gasCore: nat
    var ethRemainder: nat

    ghost function View(): Gas
      reads this
    {
      Gas(gasCore, ethRemainder)
    }

    constructor CreateFromEth(scale: nat, ethGas: nat)
      requires 0 < scale && ethGas < U64
      ensures this.scale == scale && Normal(scale, View()) && Units(scale, View()) == ethGas
    {
      this.scale := scale;
      gasCore, ethRemainder := ethGas / scale, ethGas % scale;
      FloorIs(ethGas, scale);
      FromAbsoluteUnits(scale, ethGas);
    }

    constructor CreateFromCore(scale: nat, coreGas: nat)
      ensures this.scale == scale && View() == Gas(coreGas, 0)
    {
      this.scale := scale;
      gasCore, ethRemainder := coreGas, 0;
    }

    method TakeCore(coreVal: nat)
      requires 0 < scale
      modifies this
      ensures View() == Apply(scale, old(View()), DecreaseByCore(coreVal))
    {
      gasCore := if gasCore > coreVal then gasCore - coreVal else 0;
    }

    method TakeEth(ethVal: nat)
      requires 0 < scale
      modifies this
      ensures View() == Apply(scale, old(View()), DecreaseByEth(ethVal))
    {
      var absolute := GetEthGas();
      absolute := if absolute > ethVal then absolute - ethVal else 0;
      FloorIs(absolute, scale);
      gasCore, ethRemainder := absolute / scale, absolute % scale;
    }

    method GiveCore(coreVal: nat)
      requires 0 < scale
      modifies this
      ensures View() == Apply(scale, old(View()), IncreaseByCore(coreVal))
    {
      FloorIs(gasCore + coreVal, U64);
      gasCore := (gasCore + coreVal) % U64;
    }

    method GiveEth(ethVal: nat)
      requires 0 < scale
      modifies this
      ensures View() == Apply(scale, old(View()), IncreaseByEth(ethVal))
    {
      var absolute := GetEthGas();
      FloorIs(absolute + ethVal, U64);
      absolute := (absolute + ethVal) % U64;
      FloorIs(absolute, scale);
      gasCore, ethRemainder := absolute / scale, absolute % scale;
    }

    method SetGasCore(coreVal: nat)
      requires 0 < scale
      modifies this
      ensures View() == Apply(scale, old(View()), SetCore(coreVal))
    {
      gasCore := coreVal;
    }

    method GetEthGas() returns (gas: nat)
      ensures gas == EthGas(scale, View())
    {
      TimesIs(gasCore, scale);
      FloorIs(gasCore * scale, U64);
      FloorIs((gasCore * scale) % U64 + ethRemainder, U64);
      gas := ((gasCore * scale) % U64 + ethRemainder) % U64;
    }
  }
}
