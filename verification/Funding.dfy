/** The balance check in front of every batch of transactions. */
module Funding {
  import opened Wrappers
  import opened Bytes
  import opened Nonce

  /** `gas * gas_price * count`, the most the batch can cost if sent at `gasPrice`. */
  function BalanceRequired(gas: uint64, gasPrice: uint64, count: nat): nat {
    gas * gasPrice * count
  }

  /** What a batch of transactions can cost at most. */
  function MaxFee(txs: seq<Transaction>): nat {
    if txs == [] then 0 else MaxFee(txs[..|txs| - 1]) + txs[|txs| - 1].gas * txs[|txs| - 1].gasPrice
  }

  function TotalPrice(txs: seq<Transaction>): nat {
    if txs == [] then 0 else TotalPrice(txs[..|txs| - 1]) + txs[|txs| - 1].gasPrice
  }

  /** All transactions of the batch have this gas limit. */
  predicate SameGas(txs: seq<Transaction>, gas: uint64) {
    forall i :: 0 <= i < |txs| ==> txs[i].gas == gas
  }

  predicate SamePrice(txs: seq<Transaction>, gasPrice: uint64) {
    forall i :: 0 <= i < |txs| ==> txs[i].gasPrice == gasPrice
  }

  /** The check: an unknown balance waits, a small one is an error. */
  predicate Funded(balance: Option<nat>, gas: uint64, gasPrice: uint64, count: nat) {
    balance.Some? && BalanceRequired(gas, gasPrice, count) <= balance.value
  }

  /** With 64-bit gas, price and batch length, neither 256-bit multiplication overflows. */
  lemma {:induction false} NoOverflow(gas: uint64, gasPrice: uint64, count: nat)
    requires count < TWO_64
    ensures gas * gasPrice < TWO_256
    ensures BalanceRequired(gas, gasPrice, count) < TWO_192
  {
    var max := TWO_64 - 1;
    Bounded(gas, gasPrice, max, max);
    Bounded(gas * gasPrice, count, max * max, max);
  }

  lemma {:induction false} Bounded(a: nat, b: nat, x: nat, y: nat)
    requires a <= x && b <= y
    ensures a * b <= x * y
  {
    assert a * b <= x * b;
    assert x * b <= x * y;
  }

  lemma {:induction false} MaxFeeOfGas(txs: seq<Transaction>, gas: uint64)
    requires SameGas(txs, gas)
    ensures MaxFee(txs) == gas * TotalPrice(txs)
  {
    if txs != [] {
      MaxFeeOfGas(txs[..|txs| - 1], gas);
    }
  }

  lemma {:induction false} TotalOfPrice(txs: seq<Transaction>, gasPrice: uint64)
    requires SamePrice(txs, gasPrice)
    ensures TotalPrice(txs) == gasPrice * |txs|
  {
    if txs != [] {
      TotalOfPrice(txs[..|txs| - 1], gasPrice);
    }
  }

  /** A deposit-relay or withdraw-confirm batch that passes the check costs at most the balance. */
  lemma {:induction false} BatchCovered(balance: Option<nat>, gas: uint64, gasPrice: uint64, txs: seq<Transaction>)
    requires SameGas(txs, gas) && SamePrice(txs, gasPrice) && |txs| < TWO_64
    requires Funded(balance, gas, gasPrice, |txs|)
    ensures MaxFee(txs) == BalanceRequired(gas, gasPrice, |txs|) <= balance.value
    ensures MaxFee(txs) < TWO_192
  {
    MaxFeeOfGas(txs, gas);
    TotalOfPrice(txs, gasPrice);
    NoOverflow(gas, gasPrice, |txs|);
    Reassociate(gas, gasPrice, |txs|);
  }

  /** A batch sent at the price it is checked at is let through exactly when a known balance covers its cost. */
  lemma {:induction false} FundedIff(balance: Option<nat>, gas: uint64, gasPrice: uint64, txs: seq<Transaction>)
    requires SameGas(txs, gas) && SamePrice(txs, gasPrice)
    ensures Funded(balance, gas, gasPrice, |txs|) <==> balance.Some? && MaxFee(txs) <= balance.value
  {
    MaxFeeOfGas(txs, gas);
    TotalOfPrice(txs, gasPrice);
    Reassociate(gas, gasPrice, |txs|);
  }

  lemma {:induction false} Reassociate(a: nat, b: nat, c: nat)
    ensures a * (b * c) == a * b * c
  {
  }

  /**
   * A withdraw-relay batch is checked at the oracle's price and sent at the prices in its messages: it
   * costs no more than was checked exactly when those prices average at most the oracle's.
   */
  lemma {:induction false} RelayCoveredIff(gas: uint64, gasPrice: uint64, txs: seq<Transaction>)
    requires SameGas(txs, gas) && gas > 0
    ensures MaxFee(txs) <= BalanceRequired(gas, gasPrice, |txs|) <==> TotalPrice(txs) <= gasPrice * |txs|
  {
    MaxFeeOfGas(txs, gas);
    Reassociate(gas, gasPrice, |txs|);
    Cancel(gas, TotalPrice(txs), gasPrice * |txs|);
  }

  lemma {:induction false} Cancel(g: nat, a: nat, b: nat)
    requires g > 0
    ensures g * a <= g * b <==> a <= b
  {
    if a <= b {
      assert g * b == g * a + g * (b - a);
    } else {
      assert g * a == g * b + g * (a - b);
    }
  }

  /** One message priced above the oracle passes the check and costs more than the balance. */
  lemma {:induction false} RelayUnderfunded(tx: Transaction)
    requires tx.gas == 21000 && tx.gasPrice == 2
    ensures Funded(Some(21000), 21000, 1, 1) && MaxFee([tx]) > 21000
  {
    assert [tx][..0] == [];
  }
}
