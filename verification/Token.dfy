/** The bridged token (contracts/BridgeableToken.sol) and the bridge's `receiveApproval`. */
module Token {
  import opened Wrappers
  import opened Bytes
  import opened Evm

  const ETHER: nat := 1_000_000_000_000_000_000

  datatype Ledger = Ledger(
    balances: map<Address, nat>, allowed: map<(Address, Address), nat>, totalSupply: nat, owner: Address,
    mintAgents: set<Address>)

  /** The `Withdraw` event of the bridge; `HOME_GAS_PRICE` is the `homeGasPrice` it is constructed with. */
  datatype Withdrawal = Withdrawal(recipient: Address, value: uint256, homeGasPrice: uint256)

  const HOME_GAS_PRICE: uint256 := 1_000_000_000

  /** The ledger and the bridge contract: its address, its token, and its `Withdraw` events. */
  datatype World = World(ledger: Ledger, token: Address, bridge: Address, bridgeToken: Address, withdrawals: seq<Withdrawal>)

  function Balance(l: Ledger, a: Address): nat {
    Lookup(l.balances, a, 0)
  }

  function Allowance(l: Ledger, owner: Address, spender: Address): nat {
    Lookup(l.allowed, (owner, spender), 0)
  }

  /* `SafeMath`: 256-bit arithmetic that fails instead of wrapping. */

  function SafeAdd(a: nat, b: nat): (c: Option<nat>)
    requires a < TWO_256 && b < TWO_256
    ensures c == if a + b < TWO_256 then Some(a + b) else None
  {
    var wrapped := (a + b) % TWO_256;
    if wrapped >= a && wrapped >= b then Some(wrapped) else None
  }

  function SafeSub(a: nat, b: nat): Option<nat> {
    if b <= a then Some(a - b) else None
  }

  /** A ledger of 256-bit numbers. */
  predicate InRange(l: Ledger) {
    && l.totalSupply < TWO_256
    && (forall a :: a in l.balances ==> l.balances[a] < TWO_256)
    && (forall p :: p in l.allowed ==> l.allowed[p] < TWO_256)
  }

  type Books = l: Ledger | InRange(l) witness Ledger(map[], map[], 0, 0, {})

  /* The token's functions; `None` throws. */

  function AfterTransfer(l: Books, sender: Address, to: Address, value: uint256): Option<Books> {
    var debited := SafeSub(Balance(l, sender), value);
    if debited.None? then None
    else
      var m := l.balances[sender := debited.value];
      var credited := SafeAdd(Lookup(m, to, 0), value);
      if credited.None? then None else Some(l.(balances := m[to := credited.value]))
  }

  function AfterTransferFrom(l: Books, sender: Address, from: Address, to: Address, value: uint256): Option<Books> {
    var credited := SafeAdd(Balance(l, to), value);
    if credited.None? then None
    else
      var m := l.balances[to := credited.value];
      var debited := SafeSub(Lookup(m, from, 0), value);
      var left := SafeSub(Allowance(l, from, sender), value);
      if debited.None? || left.None? then None
      else Some(l.(balances := m[from := debited.value], allowed := l.allowed[(from, sender) := left.value]))
  }

  function AfterApprove(l: Books, sender: Address, spender: Address, value: uint256): Option<Books> {
    if value != 0 && Allowance(l, sender, spender) != 0 then None
    else Some(l.(allowed := l.allowed[(sender, spender) := value]))
  }

  /** `amount * 1 ether` is unchecked; the additions are not. */
  function AfterMint(l: Books, sender: Address, receiver: Address, amount: uint256): Option<Books> {
    if sender !in l.mintAgents then None
    else
      var arranged := amount * ETHER % TWO_256;
      var supply, credited := SafeAdd(l.totalSupply, arranged), SafeAdd(Balance(l, receiver), arranged);
      if supply.None? || credited.None? then None
      else Some(l.(totalSupply := supply.value, balances := l.balances[receiver := credited.value]))
  }

  function AfterSetMintAgent(l: Books, sender: Address, agent: Address, state: bool): Option<Books> {
    if sender != l.owner then None
    else Some(l.(mintAgents := if state then l.mintAgents + {agent} else l.mintAgents - {agent}))
  }

  datatype Call =
    | DoTransfer(to: Address, value: uint256)
    | DoTransferFrom(from: Address, to: Address, value: uint256)
    | DoApprove(spender: Address, value: uint256)
    | DoMint(receiver: Address, amount: uint256)
    | DoSetMintAgent(agent: Address, state: bool)
    | ApproveAndCall(spender: Address, tokens: uint256, callback: Callback)

  /** What a spender other than the bridge does when called back: token calls of its own, then return or throw. */
  datatype Callback = Callback(calls: Calls, returns_: bool)

  datatype Calls = NoCalls | Then(sender: Address, call: Call, rest: Calls)

  /** `receiveApproval` of the bridge, called by `caller`. */
  function ReceiveApproval(w: World, caller: Address, from: Address, value: uint256): Option<World>
    requires InRange(w.ledger)
  {
    if w.bridgeToken == 0 || caller != w.bridgeToken || Allowance(w.ledger, from, w.bridge) < value then None
    else
      match AfterTransferFrom(w.ledger, w.bridge, from, w.bridge, value)
      case None => None
      case Some(l) => Some(w.(ledger := l, withdrawals := w.withdrawals + [Withdrawal(from, value, HOME_GAS_PRICE)]))
  }

  /** A call to the token by `sender`, with its callback; `None` throws and undoes everything. */
  function Exec(w: World, sender: Address, call: Call): (r: Option<World>)
    requires InRange(w.ledger)
    ensures r.Some? ==> InRange(r.value.ledger) && r.value.(ledger := w.ledger, withdrawals := w.withdrawals) == w
    decreases call
  {
    match call
    case DoTransfer(to, value) => OnLedger(w, AfterTransfer(w.ledger, sender, to, value))
    case DoTransferFrom(from, to, value) => OnLedger(w, AfterTransferFrom(w.ledger, sender, from, to, value))
    case DoApprove(spender, value) => OnLedger(w, AfterApprove(w.ledger, sender, spender, value))
    case DoMint(receiver, amount) => OnLedger(w, AfterMint(w.ledger, sender, receiver, amount))
    case DoSetMintAgent(agent, state) => OnLedger(w, AfterSetMintAgent(w.ledger, sender, agent, state))
    case ApproveAndCall(spender, tokens, callback) =>
      var approved := w.(ledger := w.ledger.(allowed := w.ledger.allowed[(sender, spender) := tokens]));
      if spender == w.bridge then ReceiveApproval(approved, w.token, sender, tokens)
      else if callback.returns_ then Some(ExecAll(approved, callback.calls))
      else None
  }

  function OnLedger(w: World, l: Option<Books>): Option<World> {
    if l.None? then None else Some(w.(ledger := l.value))
  }

  function ExecAll(w: World, calls: Calls): (r: World)
    requires InRange(w.ledger)
    ensures InRange(r.ledger) && r.(ledger := w.ledger, withdrawals := w.withdrawals) == w
    decreases calls
  {
    match calls
    case NoCalls => w
    case Then(sender, call, rest) =>
      var next := Exec(w, sender, call);
      ExecAll(if next.Some? then next.value else w, rest)
  }

  /* Single calls. */

  /** The books after a movement of tokens: the balances named, and nothing else of them. */
  ghost predicate Moved(l: Ledger, t: Ledger, from: Address, to: Address, value: uint256) {
    && t.totalSupply == l.totalSupply && t.owner == l.owner && t.mintAgents == l.mintAgents
    && forall a :: Balance(t, a) ==
         if from == to then Balance(l, a)
         else if a == from then Balance(l, a) - value
         else if a == to then Balance(l, a) + value
         else Balance(l, a)
  }

  /** `transfer` (EIP-20): succeeds iff the sender has the value and the receiver has room for it. */
  lemma {:induction false} TransferEffects(l: Books, sender: Address, to: Address, value: uint256)
    ensures var t := AfterTransfer(l, sender, to, value);
            && (t.Some? <==> value <= Balance(l, sender) && (to == sender || Balance(l, to) + value < TWO_256))
            && (t.Some? ==> Moved(l, t.value, sender, to, value) && t.value.allowed == l.allowed)
  {
  }

  /**
   * `transferFrom` (EIP-20): also needs the allowance, which it uses up. It credits first, so moving to
   * oneself needs room for the value too, but not the value itself when that fits on top.
   */
  lemma {:induction false} TransferFromEffects(l: Books, sender: Address, from: Address, to: Address, value: uint256)
    ensures var t := AfterTransferFrom(l, sender, from, to, value);
            && (t.Some? <==>
                  && Balance(l, to) + value < TWO_256
                  && value <= Allowance(l, from, sender)
                  && (to == from || value <= Balance(l, from)))
            && (t.Some? ==>
                  && Moved(l, t.value, from, to, value)
                  && forall o: Address, s: Address ::
                       Allowance(t.value, o, s) == Allowance(l, o, s) - (if o == from && s == sender then value else 0))
  {
  }

  /** `approve`: a nonzero allowance is only replaced by zero first. */
  lemma {:induction false} ApproveEffects(l: Books, sender: Address, spender: Address, value: uint256)
    ensures var t := AfterApprove(l, sender, spender, value);
            && (t.Some? <==> value == 0 || Allowance(l, sender, spender) == 0)
            && (t.Some? ==>
                  && t.value.(allowed := l.allowed) == l
                  && forall o: Address, s: Address ::
                       Allowance(t.value, o, s) == if o == sender && s == spender then value as nat else Allowance(l, o, s))
  {
  }

  /** `mint`: only a mint agent's call, and only if neither the supply nor the balance overflows. */
  lemma {:induction false} MintEffects(l: Books, sender: Address, receiver: Address, amount: uint256)
    ensures var minted := amount * 1_000_000_000_000_000_000 % TWO_256;
            var t := AfterMint(l, sender, receiver, amount);
            && (t.Some? <==>
                  sender in l.mintAgents && l.totalSupply + minted < TWO_256 && Balance(l, receiver) + minted < TWO_256)
            && (t.Some? ==>
                  && t.value.totalSupply == l.totalSupply + minted
                  && t.value.(totalSupply := l.totalSupply, balances := l.balances) == l
                  && forall a :: Balance(t.value, a) == Balance(l, a) + if a == receiver then minted else 0)
  {
  }

  /** `setMintAgent`: only the owner names and dismisses mint agents. */
  lemma {:induction false} MintAgentEffects(l: Books, sender: Address, agent: Address, state: bool)
    ensures var t := AfterSetMintAgent(l, sender, agent, state);
            && (t.Some? <==> sender == l.owner)
            && (t.Some? ==>
                  && t.value.(mintAgents := l.mintAgents) == l
                  && forall a :: a in t.value.mintAgents <==> if a == agent then state else a in l.mintAgents)
  {
  }

  /** The bridge takes a callback from the token it trusts only, and only if it was allowed the value. */
  lemma {:induction false} ReceiveApprovalNeeds(w: World, caller: Address, from: Address, value: uint256)
    requires InRange(w.ledger) && ReceiveApproval(w, caller, from, value).Some?
    ensures caller == w.bridgeToken && w.bridgeToken != 0 && value <= Allowance(w.ledger, from, w.bridge)
    ensures AfterTransferFrom(w.ledger, w.bridge, from, w.bridge, value).Some?
  {
  }

  /** A spender other than the bridge is allowed the value before it is called back; if it throws, nothing happened. */
  lemma {:induction false} ApproveAndCallElsewhere(w: World, sender: Address, spender: Address, tokens: uint256, callback: Callback)
    requires InRange(w.ledger) && spender != w.bridge
    ensures var r := Exec(w, sender, ApproveAndCall(spender, tokens, callback));
            && (r.Some? <==> callback.returns_)
            && (r.Some? && callback.calls.NoCalls? ==>
                  && r.value.withdrawals == w.withdrawals
                  && r.value.ledger.(allowed := w.ledger.allowed) == w.ledger
                  && forall o: Address, s: Address ::
                       Allowance(r.value.ledger, o, s) == if o == sender && s == spender then tokens as nat else Allowance(w.ledger, o, s))
  {
  }

  /* Conservation. */

  ghost function SumOf(keys: set<Address>, m: map<Address, nat>): nat {
    if keys == {} then 0
    else
      var a :| a in keys;
      Lookup(m, a, 0) + SumOf(keys - {a}, m)
  }

  ghost function Sum(m: map<Address, nat>): nat {
    SumOf(m.Keys, m)
  }

  lemma {:induction false} SumOfWithout(keys: set<Address>, m: map<Address, nat>, a: Address)
    requires a in keys
    ensures SumOf(keys, m) == Lookup(m, a, 0) + SumOf(keys - {a}, m)
    decreases keys
  {
    var b :| b in keys && SumOf(keys, m) == Lookup(m, b, 0) + SumOf(keys - {b}, m);
    if a != b {
      SumOfWithout(keys - {b}, m, a);
      SumOfWithout(keys - {a}, m, b);
      assert keys - {b} - {a} == keys - {a} - {b};
    }
  }

  lemma {:induction false} SumOfAgrees(keys: set<Address>, m: map<Address, nat>, n: map<Address, nat>)
    requires forall a :: a in keys ==> Lookup(m, a, 0) == Lookup(n, a, 0)
    ensures SumOf(keys, m) == SumOf(keys, n)
    decreases keys
  {
    if keys != {} {
      var a :| a in keys;
      SumOfWithout(keys, m, a);
      SumOfWithout(keys, n, a);
      SumOfAgrees(keys - {a}, m, n);
    }
  }

  lemma {:induction false} SumUpdate(m: map<Address, nat>, a: Address, v: nat)
    ensures Sum(m[a := v]) == Sum(m) - Lookup(m, a, 0) + v
    ensures Lookup(m, a, 0) <= Sum(m)
  {
    var n := m[a := v];
    var others := m.Keys - {a};
    assert n.Keys - {a} == others;
    SumOfWithout(n.Keys, n, a);
    SumOfAgrees(others, m, n);
    if a in m {
      SumOfWithout(m.Keys, m, a);
    } else {
      assert others == m.Keys;
    }
  }

  ghost predicate Conserved(l: Ledger) {
    Sum(l.balances) == l.totalSupply
  }

  lemma {:induction false} TransferConserves(l: Books, sender: Address, to: Address, value: uint256)
    requires Conserved(l) && AfterTransfer(l, sender, to, value).Some?
    ensures Conserved(AfterTransfer(l, sender, to, value).value)
  {
    var m := l.balances[sender := Balance(l, sender) - value];
    SumUpdate(l.balances, sender, Balance(l, sender) - value);
    SumUpdate(m, to, Lookup(m, to, 0) + value);
  }

  lemma {:induction false} TransferFromConserves(l: Books, sender: Address, from: Address, to: Address, value: uint256)
    requires Conserved(l) && AfterTransferFrom(l, sender, from, to, value).Some?
    ensures Conserved(AfterTransferFrom(l, sender, from, to, value).value)
  {
    var m := l.balances[to := Balance(l, to) + value];
    SumUpdate(l.balances, to, Balance(l, to) + value);
    SumUpdate(m, from, Lookup(m, from, 0) - value);
  }

  /** Minting creates exactly what it adds to the supply, even when the amount has wrapped. */
  lemma {:induction false} MintConserves(l: Books, sender: Address, receiver: Address, amount: uint256)
    requires Conserved(l) && AfterMint(l, sender, receiver, amount).Some?
    ensures Conserved(AfterMint(l, sender, receiver, amount).value)
  {
    SumUpdate(l.balances, receiver, Balance(l, receiver) + amount * ETHER % TWO_256);
  }

  lemma {:induction false} ExecConserves(w: World, sender: Address, call: Call)
    requires InRange(w.ledger) && Conserved(w.ledger) && Exec(w, sender, call).Some?
    ensures Conserved(Exec(w, sender, call).value.ledger)
    decreases call
  {
    match call
    case DoTransfer(to, value) => TransferConserves(w.ledger, sender, to, value);
    case DoTransferFrom(from, to, value) => TransferFromConserves(w.ledger, sender, from, to, value);
    case DoApprove(_, _) =>
    case DoMint(receiver, amount) => MintConserves(w.ledger, sender, receiver, amount);
    case DoSetMintAgent(_, _) =>
    case ApproveAndCall(spender, tokens, callback) =>
      var approved := w.(ledger := w.ledger.(allowed := w.ledger.allowed[(sender, spender) := tokens]));
      if spender == w.bridge {
        TransferFromConserves(approved.ledger, w.bridge, sender, w.bridge, tokens);
      } else {
        SupplyIsSumOfBalances(approved, callback.calls);
      }
  }

  /**
   * In every reachable state, whatever is called and called back: the balances add up to the supply,
   * and no balance exceeds it.
   */
  lemma {:induction false} SupplyIsSumOfBalances(w: World, calls: Calls)
    requires InRange(w.ledger) && Conserved(w.ledger)
    ensures Conserved(ExecAll(w, calls).ledger)
    ensures forall a :: Balance(ExecAll(w, calls).ledger, a) <= ExecAll(w, calls).ledger.totalSupply
    decreases calls
  {
    match calls
    case NoCalls =>
      forall a ensures Balance(w.ledger, a) <= w.ledger.totalSupply {
        SumUpdate(w.ledger.balances, a, 0);
      }
    case Then(sender, call, rest) =>
      var next := Exec(w, sender, call);
      if next.Some? {
        ExecConserves(w, sender, call);
        SupplyIsSumOfBalances(next.value, rest);
      } else {
        SupplyIsSumOfBalances(w, rest);
      }
  }

  /**
   * `approveAndCall` on the bridge goes through exactly when the bridge trusts this token and the
   * caller has the amount. It then moves that amount from the caller to the bridge and nothing else,
   * announces one withdrawal of it, and leaves no allowance behind.
   */
  lemma {:induction false} ApproveAndCallOnBridge(w: World, sender: Address, tokens: uint256, callback: Callback)
    requires InRange(w.ledger) && Conserved(w.ledger) && sender != w.bridge
    ensures var r := Exec(w, sender, ApproveAndCall(w.bridge, tokens, callback));
            && (r.Some? <==> w.bridgeToken != 0 && w.bridgeToken == w.token && Balance(w.ledger, sender) >= tokens)
            && (r.Some? ==>
                  var l := r.value.ledger;
                  && r.value.withdrawals == w.withdrawals + [Withdrawal(sender, tokens, 1_000_000_000)]
                  && Balance(l, sender) == Balance(w.ledger, sender) - tokens
                  && Balance(l, w.bridge) == Balance(w.ledger, w.bridge) + tokens
                  && (forall a :: a != sender && a != w.bridge ==> Balance(l, a) == Balance(w.ledger, a))
                  && Allowance(l, sender, w.bridge) == 0
                  && (forall o: Address, s: Address :: (o, s) != (sender, w.bridge) ==> Allowance(l, o, s) == Allowance(w.ledger, o, s))
                  && l.totalSupply == w.ledger.totalSupply)
  {
    TwoBalances(w.ledger, sender, w.bridge);
  }

  /** Two accounts together hold at most the supply, so moving between them cannot overflow. */
  lemma {:induction false} TwoBalances(l: Ledger, a: Address, b: Address)
    requires Conserved(l) && a != b
    ensures Balance(l, a) + Balance(l, b) <= l.totalSupply
  {
    SumUpdate(l.balances, a, 0);
    SumUpdate(l.balances[a := 0], b, 0);
  }

  class BridgeableToken {
    var balances: map<Address, nat>
    var allowed: map<(Address, Address), nat>
    var totalSupply: nat
    var owner: Address
    var mintAgents: set<Address>

    ghost function Storage(): Ledger
      reads this
    {
      Ledger(balances, allowed, totalSupply, owner, mintAgents)
    }

    twostate predicate Executed(spec: Option<Books>, ok: bool)
      reads this
    {
      ok == spec.Some? && Storage() == if ok then spec.value else old(Storage())
    }

    constructor (deployer: Address)
      ensures Storage() == Ledger(map[], map[], 0, deployer, {}) && InRange(Storage()) && Conserved(Storage())
    {
      balances, allowed, totalSupply, owner, mintAgents := map[], map[], 0, deployer, {};
    }

    method Transfer(sender: Address, to: Address, value: uint256) returns (ok: bool)
      requires InRange(Storage())
      modifies this
      ensures InRange(Storage()) && Executed(AfterTransfer(old(Storage()), sender, to, value), ok)
    {
      var before := balances;
      if Lookup(balances, sender, 0) < value {
        return false;
      }
      balances := balances[sender := Lookup(balances, sender, 0) - value];
      var credited := SafeAdd(Lookup(balances, to, 0), value);
      if credited.None? {
        balances := before;
        return false;
      }
      balances := balances[to := credited.value];
      return true;
    }

    method TransferFrom(sender: Address, from: Address, to: Address, value: uint256) returns (ok: bool)
      requires InRange(Storage())
      modifies this
      ensures InRange(Storage()) && Executed(AfterTransferFrom(old(Storage()), sender, from, to, value), ok)
    {
      var before := balances;
      var allowance := Lookup(allowed, (from, sender), 0);
      var credited := SafeAdd(Lookup(balances, to, 0), value);
      if credited.None? {
        return false;
      }
      balances := balances[to := credited.value];
      if Lookup(balances, from, 0) < value || allowance < value {
        balances := before;
        return false;
      }
      balances := balances[from := Lookup(balances, from, 0) - value];
      allowed := allowed[(from, sender) := allowance - value];
      return true;
    }

    method Approve(sender: Address, spender: Address, value: uint256) returns (ok: bool)
      requires InRange(Storage())
      modifies this
      ensures InRange(Storage()) && Executed(AfterApprove(old(Storage()), sender, spender, value), ok)
    {
      if value != 0 && Lookup(allowed, (sender, spender), 0) != 0 {
        return false;
      }
      allowed := allowed[(sender, spender) := value];
      return true;
    }

    method Mint(sender: Address, receiver: Address, amount: uint256) returns (ok: bool)
      requires InRange(Storage())
      modifies this
      ensures InRange(Storage()) && Executed(AfterMint(old(Storage()), sender, receiver, amount), ok)
    {
      if sender !in mintAgents {
        return false;
      }
      var arranged := amount * ETHER % TWO_256;
      var supply, credited := SafeAdd(totalSupply, arranged), SafeAdd(Lookup(balances, receiver, 0), arranged);
      if supply.None? || credited.None? {
        return false;
      }
      totalSupply := supply.value;
      balances := balances[receiver := credited.value];
      return true;
    }
  }
}
