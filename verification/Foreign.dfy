/** The foreign side of the bridge, array form (truffle/contracts/ForeignBridge.sol). */
module Foreign {
  import opened Wrappers
  import opened Bytes
  import opened Evm
  import opened SignatureCheck
  import opened Signing
  import opened Confirmations
  import Sig = Signature
  import Validators

  /** What one deposit on the home chain asks to be paid. */
  datatype Order = Order(recipient: Address, value: uint256, transactionHash: Bytes32)

  datatype Collection = Collection(message: seq<byte>, signed: seq<Address>, signatures: seq<seq<byte>>)

  const NO_COLLECTION := Collection([], [], [])

  datatype Event =
    | SignedForDeposit(signer: Address, transactionHash: Bytes32)
    | Deposit(order: Order)
    | SignedForWithdraw(signer: Address, messageHash: Digest)
    | WithdrawSignatureSubmitted(messageHash: Digest)
    | CollectedSignatures(authorityResponsibleForRelay: Address, messageHash: Digest)
    | Withdraw(recipient: Address, value: uint256, homeGasCost: uint256)

  /** `self` is the address of the bridge. */
  datatype State = State(
    self: Address, deposits: Book<Digest>, signatures: map<Digest, Collection>, balance: nat, events: seq<Event>)

  function Deployed(self: Address): State {
    State(self, map[], map[], 0, [])
  }

  datatype Call =
    | ConfirmDeposit(order: Order, recipientAccepts: bool)
    | SubmitSignature(signature: seq<byte>, message: seq<byte>)
    | Receive(value: uint256, data: seq<byte>)

  /** A call, with the validator contract's answers at that moment. */
  datatype Transaction = Transaction(sender: Address, authority: Authority, call: Call)

  /** `keccak256(recipient, value, transactionHash)`. */
  function DepositKey(order: Order): Digest {
    Keccak(ToBE(order.recipient, 20) + ToBE(order.value, 32) + order.transactionHash)
  }

  function Confirmers(s: State, order: Order): seq<Address> {
    Signers(s.deposits, DepositKey(order))
  }

  function CollectionAt(s: State, hash: Digest): Collection {
    Lookup(s.signatures, hash, NO_COLLECTION)
  }

  /** A transfer goes through if it is covered and the recipient accepts it; the bridge refuses nothing but zero. */
  predicate Payable(s: State, order: Order, accepts: bool) {
    order.value <= s.balance && if order.recipient == s.self then order.value > 0 else accepts
  }

  /** What a transfer of the bridge to itself comes back as is a new withdrawal. */
  function AfterTransfer(s: State, order: Order): State
    requires order.value <= s.balance
  {
    if order.recipient == s.self then s.(events := s.events + [Withdraw(s.self, order.value, 0)])
    else s.(balance := s.balance - order.value)
  }

  /** `deposit`: `None` reverts. */
  function Confirm(s: State, sender: Address, auth: Authority, order: Order, accepts: bool): Option<State> {
    var pushed := Push(s.deposits, DepositKey(order), sender);
    if sender !in auth.active || pushed.None? then None
    else
      var signed := s.(deposits := pushed.value, events := s.events + [SignedForDeposit(sender, order.transactionHash)]);
      if |Signers(pushed.value, DepositKey(order))| != auth.required then Some(signed)
      else if !Payable(s, order, accepts) then None
      else
        var sent := AfterTransfer(signed, order);
        Some(sent.(events := sent.events + [Deposit(order)]))
  }

  /** `submitSignature`. */
  function Submit(
    rec: Recover, s: State, sender: Address, auth: Authority, signature: seq<byte>, message: seq<byte>): Option<State>
  {
    var hash := Keccak(message);
    var c := CollectionAt(s, hash);
    if sender !in auth.active || RecoverSigner(rec, signature, message) != Some(sender) || sender in c.signed then None
    else
      var grown := Collection(message, c.signed + [sender], c.signatures + [signature]);
      var last := if |grown.signed| == auth.required then CollectedSignatures(sender, hash)
                  else WithdrawSignatureSubmitted(hash);
      Some(s.(signatures := s.signatures[hash := grown],
              events := s.events + [SignedForWithdraw(sender, hash)] + [last]))
  }

  /** The storage after a transaction; `None` reverts. */
  function Step(rec: Recover, s: State, tx: Transaction): Option<State> {
    match tx.call
    case Receive(value, data) =>
      if value == 0 || data != [] then None
      else Some(s.(balance := s.balance + value, events := s.events + [Withdraw(tx.sender, value, 0)]))
    case ConfirmDeposit(order, accepts) => Confirm(s, tx.sender, tx.authority, order, accepts)
    case SubmitSignature(signature, message) => Submit(rec, s, tx.sender, tx.authority, signature, message)
  }

  function StepOrStay(rec: Recover, s: State, tx: Transaction): State {
    match Step(rec, s, tx)
    case None => s
    case Some(t) => t
  }

  function Run(rec: Recover, s: State, run: seq<Transaction>): State
    decreases |run|
  {
    if run == [] then s else Run(rec, StepOrStay(rec, s, run[0]), run[1..])
  }

  /** How often an order has been paid. */
  function Payments(events: seq<Event>, order: Order): nat {
    if events == [] then 0
    else Payments(events[..|events| - 1], order) + (if events[|events| - 1] == Deposit(order) then 1 else 0)
  }

  class ForeignBridge {
    const self: Address
    var validatorContract: Validators.BridgeValidators?
    var deposits: Book<Digest>
    var signatures: map<Digest, Collection>
    var initialized: bool
    var balance: nat
    var events: seq<Event>

    ghost function Storage(): State
      reads this
    {
      State(self, deposits, signatures, balance, events)
    }

    /** Calling a validator contract that was never set reverts, as if nobody were a validator. */
    ghost function Answers(): Authority
      reads this, validatorContract
    {
      if validatorContract == null then Authority({}, 0)
      else Authority(validatorContract.active, validatorContract.requiredSignatures)
    }

    twostate predicate Executed(rec: Recover, sender: Address, call: Call, ok: bool)
      reads this
    {
      && validatorContract == old(validatorContract) && initialized == old(initialized)
      && match Step(rec, old(Storage()), Transaction(sender, old(Answers()), call))
         case None => !ok && Storage() == old(Storage())
         case Some(s) => ok && Storage() == s
    }

    constructor (self: Address)
      ensures Storage() == Deployed(self) && validatorContract == null && !initialized
    {
      this.self := self;
      validatorContract, deposits, signatures, initialized, balance, events := null, map[], map[], false, 0, [];
    }

    /** Binds the validator contract once and for all. */
    method Initialize(contract: Validators.BridgeValidators) returns (ok: bool)
      modifies this
      ensures ok == !old(initialized) && initialized
      ensures Storage() == old(Storage())
      ensures validatorContract == if ok then contract else old(validatorContract)
    {
      if initialized {
        return false;
      }
      validatorContract := contract;
      initialized := true;
      return true;
    }

    method ReceiveEther(ghost rec: Recover, sender: Address, value: uint256, data: seq<byte>) returns (ok: bool)
      modifies this
      ensures Executed(rec, sender, Receive(value, data), ok)
    {
      if value == 0 || data != [] {
        return false;
      }
      balance := balance + value;
      events := events + [Withdraw(sender, value, 0)];
      return true;
    }

    method ConfirmDeposit(ghost rec: Recover, sender: Address, order: Order, recipientAccepts: bool) returns (ok: bool)
      modifies this
      ensures Executed(rec, sender, Call.ConfirmDeposit(order, recipientAccepts), ok)
    {
      if validatorContract == null || sender !in validatorContract.active {
        return false;
      }
      var hash := DepositKey(order);
      var before := (deposits, events);
      var confirmed := AddressArrayContains(Signers(deposits, hash), sender);
      if confirmed {
        return false;
      }
      deposits := deposits[hash := Signers(deposits, hash) + [sender]];
      events := events + [SignedForDeposit(sender, order.transactionHash)];
      if |deposits[hash]| == validatorContract.requiredSignatures {
        if balance < order.value || (if order.recipient == self then order.value == 0 else !recipientAccepts) {
          deposits, events := before.0, before.1;
          return false;
        }
        if order.recipient == self {
          events := events + [Withdraw(self, order.value, 0)];
        } else {
          balance := balance - order.value;
        }
        events := events + [Deposit(order)];
      }
      return true;
    }

    method SubmitSignature(rec: Recover, sender: Address, signature: seq<byte>, message: seq<byte>) returns (ok: bool)
      modifies this
      ensures Executed(rec, sender, Call.SubmitSignature(signature, message), ok)
    {
      if validatorContract == null || sender !in validatorContract.active {
        return false;
      }
      if RecoverSigner(rec, signature, message) != Some(sender) {
        return false;
      }
      var hash := Keccak(message);
      var c := Lookup(signatures, hash, NO_COLLECTION);
      var known := AddressArrayContains(c.signed, sender);
      if known {
        return false;
      }
      c := Collection(message, c.signed + [sender], c.signatures + [signature]);
      signatures := signatures[hash := c];
      events := events + [SignedForWithdraw(sender, hash)];
      if |c.signed| == validatorContract.requiredSignatures {
        events := events + [CollectedSignatures(sender, hash)];
      } else {
        events := events + [WithdrawSignatureSubmitted(hash)];
      }
      return true;
    }
  }

  /** The views `message` and `signature`; an index past the last signature reverts. */
  function MessageView(s: State, hash: Digest): seq<byte> {
    CollectionAt(s, hash).message
  }

  function SignatureView(s: State, hash: Digest, index: nat): Option<seq<byte>> {
    var c := CollectionAt(s, hash);
    if index < |c.signatures| then Some(c.signatures[index]) else None
  }

  /* Single calls. */

  /** Exactly when a call is accepted. */
  lemma {:induction false} AcceptedIff(rec: Recover, s: State, tx: Transaction)
    ensures Step(rec, s, tx).Some? <==>
            match tx.call
            case Receive(value, data) => value > 0 && data == []
            case ConfirmDeposit(order, accepts) =>
              && tx.sender in tx.authority.active && tx.sender !in Confirmers(s, order)
              && (|Confirmers(s, order)| + 1 == tx.authority.required ==>
                    order.value <= s.balance && if order.recipient == s.self then order.value > 0 else accepts)
            case SubmitSignature(signature, message) =>
              && tx.sender in tx.authority.active && tx.sender !in CollectionAt(s, Keccak(message)).signed
              && |signature| == 65
              && rec(HashMessage(message), signature[64], signature[0..32], signature[32..64]) == tx.sender
  {
    if tx.call.SubmitSignature? {
      Sig.SplitsAgree(tx.call.signature, []);
    }
  }

  /** Everything an accepted call announces, in order, and what it does to the balance. */
  lemma {:induction false} CallAppends(rec: Recover, s: State, tx: Transaction)
    requires Step(rec, s, tx).Some?
    ensures var t := Step(rec, s, tx).value;
            match tx.call
            case Receive(value, _) =>
              t.events == s.events + [Withdraw(tx.sender, value, 0)] && t.balance == s.balance + value
            case ConfirmDeposit(order, _) =>
              if |Confirmers(s, order)| + 1 != tx.authority.required then
                t.events == s.events + [SignedForDeposit(tx.sender, order.transactionHash)] && t.balance == s.balance
              else if order.recipient == s.self then
                t.events == s.events + [SignedForDeposit(tx.sender, order.transactionHash),
                                        Withdraw(s.self, order.value, 0), Deposit(order)]
                && t.balance == s.balance
              else
                t.events == s.events + [SignedForDeposit(tx.sender, order.transactionHash), Deposit(order)]
                && t.balance == s.balance - order.value
            case SubmitSignature(_, message) =>
              var hash := Keccak(message);
              && t.balance == s.balance
              && t.events == s.events + [SignedForWithdraw(tx.sender, hash),
                   if |CollectionAt(s, hash).signed| + 1 == tx.authority.required then CollectedSignatures(tx.sender, hash)
                   else WithdrawSignatureSubmitted(hash)]
  {
  }

  /** Ether announced as received less ether paid for orders. */
  function Net(events: seq<Event>): int {
    if events == [] then 0 else Net(events[..|events| - 1]) + Flow(events[|events| - 1])
  }

  function Flow(e: Event): int {
    match e
    case Withdraw(_, value, _) => value as int
    case Deposit(order) => 0 - order.value
    case _ => 0
  }

  lemma {:induction false} NetAppend(events: seq<Event>, e: Event)
    ensures Net(events + [e]) == Net(events) + Flow(e)
  {
    assert (events + [e])[..|events|] == events;
  }

  lemma {:induction false} NetAppendMore(events: seq<Event>, a: Event, b: Event, c: Event)
    ensures Net(events + [a, b]) == Net(events) + Flow(a) + Flow(b)
    ensures Net(events + [a, b, c]) == Net(events) + Flow(a) + Flow(b) + Flow(c)
  {
    assert events + [a, b] == events + [a] + [b];
    assert events + [a, b, c] == events + [a, b] + [c];
    NetAppend(events, a);
    NetAppend(events + [a], b);
    NetAppend(events + [a, b], c);
  }

  /** The events an accepted call appends, and the balance it leaves, match. */
  lemma {:induction false} StepBalances(rec: Recover, s: State, tx: Transaction)
    ensures var t := StepOrStay(rec, s, tx); t.balance - s.balance == Net(t.events) - Net(s.events)
  {
    if Step(rec, s, tx).Some? {
      match tx.call
      case Receive(value, _) => NetAppend(s.events, Withdraw(tx.sender, value, 0));
      case ConfirmDeposit(order, _) => ConfirmBalances(rec, s, tx);
      case SubmitSignature(_, _) => SubmitBalances(rec, s, tx);
    }
  }

  lemma {:induction false} SubmitBalances(rec: Recover, s: State, tx: Transaction)
    requires tx.call.SubmitSignature? && Step(rec, s, tx).Some?
    ensures var t := Step(rec, s, tx).value; t.balance == s.balance && Net(t.events) == Net(s.events)
  {
    var hash := Keccak(tx.call.message);
    CallAppends(rec, s, tx);
    var e := SignedForWithdraw(tx.sender, hash);
    NetAppendMore(s.events, e, CollectedSignatures(tx.sender, hash), e);
    NetAppendMore(s.events, e, WithdrawSignatureSubmitted(hash), e);
  }

  lemma {:induction false} ConfirmBalances(rec: Recover, s: State, tx: Transaction)
    requires tx.call.ConfirmDeposit? && Step(rec, s, tx).Some?
    ensures var t := Step(rec, s, tx).value; t.balance - s.balance == Net(t.events) - Net(s.events)
  {
    var order := tx.call.order;
    var signed := SignedForDeposit(tx.sender, order.transactionHash);
    CallAppends(rec, s, tx);
    NetAppend(s.events, signed);
    NetAppendMore(s.events, signed, Deposit(order), signed);
    NetAppendMore(s.events, signed, Withdraw(s.self, order.value, 0), Deposit(order));
  }

  /** In every run the balance moves by exactly the ether announced as received less the ether paid for orders. */
  lemma {:induction false} BalanceAccounts(rec: Recover, s: State, run: seq<Transaction>)
    ensures var t := Run(rec, s, run); t.balance - s.balance == Net(t.events) - Net(s.events)
    decreases |run|
  {
    if run != [] {
      StepBalances(rec, s, run[0]);
      BalanceAccounts(rec, StepOrStay(rec, s, run[0]), run[1..]);
    }
  }

  /* Deposits. */

  /** The packed key names one order: all its fields have fixed width. */
  lemma {:induction false} DepositKeyInjective(a: Order, b: Order)
    ensures DepositKey(a) == DepositKey(b) <==> a == b
  {
    var x := ToBE(a.recipient, 20) + ToBE(a.value, 32) + a.transactionHash;
    var y := ToBE(b.recipient, 20) + ToBE(b.value, 32) + b.transactionHash;
    if x == y {
      assert x[..20] == ToBE(a.recipient, 20) && y[..20] == ToBE(b.recipient, 20);
      assert x[20..52] == ToBE(a.value, 32) && y[20..52] == ToBE(b.value, 32);
      assert x[52..] == a.transactionHash && y[52..] == b.transactionHash;
      Widths();
      ToBEInjective(a.recipient, b.recipient, 20);
      ToBEInjective(a.value, b.value, 32);
    }
  }

  lemma {:induction false} PaymentsAppend(events: seq<Event>, e: Event, order: Order)
    ensures Payments(events + [e], order) == Payments(events, order) + (if e == Deposit(order) then 1 else 0)
  {
    assert (events + [e])[..|events|] == events;
  }

  /**
   * What one transaction does to one order: at most one new confirmer, at the end of the list; and a
   * payment exactly when that confirmer brings the list to the threshold of the moment.
   */
  lemma {:induction false} StepPays(rec: Recover, s: State, tx: Transaction, order: Order)
    ensures var t := StepOrStay(rec, s, tx);
            var confirms := Step(rec, s, tx).Some? && tx.call.ConfirmDeposit? && tx.call.order == order;
            && Confirmers(t, order) == Confirmers(s, order) + (if confirms then [tx.sender] else [])
            && (confirms ==> tx.sender in tx.authority.active && tx.sender !in Confirmers(s, order))
            && Payments(t.events, order) - Payments(s.events, order) ==
               (if confirms && |Confirmers(t, order)| == tx.authority.required then 1 else 0)
  {
    if Step(rec, s, tx).None? {
      return;
    }
    match tx.call
    case Receive(value, _) =>
      PaymentsAppend(s.events, Withdraw(tx.sender, value, 0), order);
    case ConfirmDeposit(confirmed, accepts) =>
      ConfirmPays(s, tx.sender, tx.authority, confirmed, accepts, order);
    case SubmitSignature(signature, message) =>
      SubmitPaysNothing(rec, s, tx.sender, tx.authority, signature, message, order);
  }

  lemma {:induction false} ConfirmPays(s: State, sender: Address, auth: Authority, confirmed: Order, accepts: bool, order: Order)
    requires Confirm(s, sender, auth, confirmed, accepts).Some?
    ensures var t := Confirm(s, sender, auth, confirmed, accepts).value;
            && sender in auth.active && sender !in Confirmers(s, confirmed)
            && Confirmers(t, order) == Confirmers(s, order) + (if confirmed == order then [sender] else [])
            && Payments(t.events, order) - Payments(s.events, order) ==
               (if confirmed == order && |Confirmers(t, order)| == auth.required then 1 else 0)
  {
    PushConfirms(s.deposits, sender, confirmed, order);
    PushConfirms(s.deposits, sender, confirmed, confirmed);
    var e := SignedForDeposit(sender, confirmed.transactionHash);
    PaymentsAppend(s.events, e, order);
    var pushed := Push(s.deposits, DepositKey(confirmed), sender).value;
    if |Signers(pushed, DepositKey(confirmed))| == auth.required {
      var signed := s.(deposits := pushed, events := s.events + [e]);
      TransferIsNoPayment(signed, confirmed, order);
      PaymentsAppend(AfterTransfer(signed, confirmed).events, Deposit(confirmed), order);
    }
  }

  lemma {:induction false} PushConfirms(book: Book<Digest>, sender: Address, confirmed: Order, order: Order)
    requires Push(book, DepositKey(confirmed), sender).Some?
    ensures Signers(Push(book, DepositKey(confirmed), sender).value, DepositKey(order)) ==
            Signers(book, DepositKey(order)) + (if confirmed == order then [sender] else [])
  {
    DepositKeyInjective(confirmed, order);
  }

  lemma {:induction false} TransferIsNoPayment(s: State, sent: Order, order: Order)
    requires sent.value <= s.balance
    ensures var t := AfterTransfer(s, sent);
            t.deposits == s.deposits && Payments(t.events, order) == Payments(s.events, order)
  {
    PaymentsAppend(s.events, Withdraw(s.self, sent.value, 0), order);
  }

  lemma {:induction false} SubmitPaysNothing(
    rec: Recover, s: State, sender: Address, auth: Authority, signature: seq<byte>, message: seq<byte>, order: Order)
    requires Submit(rec, s, sender, auth, signature, message).Some?
    ensures var t := Submit(rec, s, sender, auth, signature, message).value;
            Confirmers(t, order) == Confirmers(s, order) && Payments(t.events, order) == Payments(s.events, order)
  {
    var t := Submit(rec, s, sender, auth, signature, message).value;
    var e := SignedForWithdraw(sender, Keccak(message));
    var last := t.events[|s.events| + 1];
    assert t.events == s.events + [e] + [last] && !last.Deposit?;
    PaymentsAppend(s.events, e, order);
    PaymentsAppend(s.events + [e], last, order);
  }

  ghost predicate FixedThreshold(run: seq<Transaction>, n: nat) {
    forall i :: 0 <= i < |run| ==> run[i].authority.required == n
  }

  /** Some transaction of the run is the validator's confirmation of the order. */
  ghost predicate Relayed(run: seq<Transaction>, validator: Address, order: Order) {
    exists i :: 0 <= i < |run| && run[i].sender == validator && validator in run[i].authority.active
                && run[i].call.ConfirmDeposit? && run[i].call.order == order
  }

  /**
   * While the threshold stays `n`, an order is paid once if its confirmers grow from below `n` to at
   * least `n`, and not at all otherwise, whatever the validator set does in the meantime.
   */
  lemma {:induction false} PaidExactlyAtThreshold(rec: Recover, s: State, run: seq<Transaction>, n: nat, order: Order)
    requires FixedThreshold(run, n)
    ensures var t := Run(rec, s, run);
            && Confirmers(s, order) <= Confirmers(t, order)
            && Payments(t.events, order) - Payments(s.events, order) ==
               (if |Confirmers(s, order)| < n <= |Confirmers(t, order)| then 1 else 0)
    decreases |run|
  {
    if run != [] {
      StepPays(rec, s, run[0], order);
      PaidExactlyAtThreshold(rec, StepOrStay(rec, s, run[0]), run[1..], n, order);
    }
  }

  /** Confirmers are distinct, and each new one relayed the order while it was a validator. */
  lemma {:induction false} ConfirmersRelayed(rec: Recover, s: State, run: seq<Transaction>, order: Order)
    requires Distinct(Confirmers(s, order))
    ensures var t := Run(rec, s, run);
            && Distinct(Confirmers(t, order))
            && forall a :: a in Confirmers(t, order) && a !in Confirmers(s, order) ==> Relayed(run, a, order)
    decreases |run|
  {
    if run != [] {
      var m := StepOrStay(rec, s, run[0]);
      StepPays(rec, s, run[0], order);
      ConfirmersRelayed(rec, m, run[1..], order);
      var t := Run(rec, s, run);
      forall a | a in Confirmers(t, order) && a !in Confirmers(s, order) ensures Relayed(run, a, order) {
        if a !in Confirmers(m, order) {
          var i :| 0 <= i < |run[1..]| && run[1..][i].sender == a && a in run[1..][i].authority.active
                   && run[1..][i].call.ConfirmDeposit? && run[1..][i].call.order == order;
          assert run[i + 1] == run[1..][i];
        } else {
          assert run[0].sender == a;
        }
      }
    }
  }

  /**
   * From deployment and with a fixed threshold, every order is paid at most once; it has been paid
   * exactly when it has `n` confirmers, and these are distinct validators that relayed it.
   */
  lemma {:induction false} DepositSafety(rec: Recover, self: Address, run: seq<Transaction>, n: nat, order: Order)
    requires FixedThreshold(run, n) && n > 0
    ensures var t := Run(rec, Deployed(self), run);
            && Payments(t.events, order) == (if |Confirmers(t, order)| >= n then 1 else 0)
            && |Elements(Confirmers(t, order))| == |Confirmers(t, order)|
            && forall a :: a in Confirmers(t, order) ==> Relayed(run, a, order)
  {
    PaidExactlyAtThreshold(rec, Deployed(self), run, n, order);
    ConfirmersRelayed(rec, Deployed(self), run, order);
    ElementsSize(Confirmers(Run(rec, Deployed(self), run), order));
  }

  /** A confirmation sent again changes nothing, however often and whatever was done in between. */
  lemma {:induction false} ResentConfirmation(rec: Recover, s: State, run: seq<Transaction>, tx: Transaction)
    requires tx.call.ConfirmDeposit?
    requires tx.sender in Confirmers(s, tx.call.order)
    ensures StepOrStay(rec, Run(rec, s, run), tx) == Run(rec, s, run)
  {
    ConfirmersKept(rec, s, run, tx.call.order);
  }

  lemma {:induction false} ConfirmersKept(rec: Recover, s: State, run: seq<Transaction>, order: Order)
    ensures Confirmers(s, order) <= Confirmers(Run(rec, s, run), order)
    decreases |run|
  {
    if run != [] {
      StepPays(rec, s, run[0], order);
      ConfirmersKept(rec, StepOrStay(rec, s, run[0]), run[1..], order);
    }
  }

  /**
   * Raising the threshold after a payment can pay the same order again: here once to a threshold of
   * one and once more to a threshold of two.
   */
  lemma {:induction false} ThresholdChangePaysTwice(rec: Recover, self: Address, order: Order)
    requires order.value == 5 && order.recipient != self
    ensures var run := [Transaction(3, Authority({}, 1), Receive(10, [])),
                        Transaction(1, Authority({1, 2}, 1), ConfirmDeposit(order, true)),
                        Transaction(2, Authority({1, 2}, 2), ConfirmDeposit(order, true))];
            Payments(Run(rec, Deployed(self), run).events, order) == 2
  {
    var a := Transaction(3, Authority({}, 1), Receive(10, []));
    var b := Transaction(1, Authority({1, 2}, 1), ConfirmDeposit(order, true));
    var c := Transaction(2, Authority({1, 2}, 2), ConfirmDeposit(order, true));
    RunOfThree(rec, Deployed(self), a, b, c);
    var s := StepOrStay(rec, Deployed(self), a);
    assert s == State(self, map[], map[], 10, [Withdraw(3, 10, 0)]);
    PaymentsAppend([], Withdraw(3, 10, 0), order);
    PaysTwice(rec, s, order);
  }

  lemma {:induction false} PaysTwice(rec: Recover, s: State, order: Order)
    requires Confirmers(s, order) == [] && s.balance == 10 && order.value == 5 && order.recipient != s.self
    ensures var t := StepOrStay(rec, s, Transaction(1, Authority({1, 2}, 1), ConfirmDeposit(order, true)));
            var u := StepOrStay(rec, t, Transaction(2, Authority({1, 2}, 2), ConfirmDeposit(order, true)));
            Payments(u.events, order) == Payments(s.events, order) + 2
  {
    ReachedThresholdPays(s, 1, Authority({1, 2}, 1), order);
    var t := Confirm(s, 1, Authority({1, 2}, 1), order, true).value;
    ReachedThresholdPays(t, 2, Authority({1, 2}, 2), order);
  }

  /**
   * Exactly when a confirmation pays, told from the state before it: nothing in it asks whether the order
   * was paid already, so it is paid again precisely when the threshold is one above its confirmers.
   */
  lemma {:induction false} ConfirmationPaysIff(rec: Recover, s: State, tx: Transaction)
    requires tx.call.ConfirmDeposit?
    ensures var order, t := tx.call.order, StepOrStay(rec, s, tx);
            && (Payments(t.events, order) == Payments(s.events, order) + 1 <==>
                  && tx.sender in tx.authority.active && tx.sender !in Confirmers(s, order)
                  && |Confirmers(s, order)| + 1 == tx.authority.required
                  && order.value <= s.balance
                  && (if order.recipient == s.self then order.value > 0 else tx.call.recipientAccepts))
            && Payments(s.events, order) <= Payments(t.events, order) <= Payments(s.events, order) + 1
  {
    StepPays(rec, s, tx, tx.call.order);
  }

  ghost predicate NeverRaised(run: seq<Transaction>) {
    forall i, j :: 0 <= i < j < |run| ==> run[j].authority.required <= run[i].authority.required
  }

  /** Lowering the threshold is harmless: as long as it is never raised, every order is paid at most once. */
  lemma {:induction false} PaidOnceUnlessRaised(rec: Recover, self: Address, run: seq<Transaction>, order: Order)
    requires NeverRaised(run)
    ensures Payments(Run(rec, Deployed(self), run).events, order) <= 1
  {
    PaidOnceFrom(rec, Deployed(self), run, if run == [] then 0 else run[0].authority.required, order);
  }

  lemma {:induction false} PaidOnceFrom(rec: Recover, s: State, run: seq<Transaction>, n: nat, order: Order)
    requires NeverRaised(run) && (run != [] ==> run[0].authority.required <= n)
    requires Payments(s.events, order) == 0 || (Payments(s.events, order) == 1 && |Confirmers(s, order)| >= n)
    ensures Payments(Run(rec, s, run).events, order) <= 1
    decreases |run|
  {
    if run != [] {
      StepPays(rec, s, run[0], order);
      assert forall i :: 0 <= i < |run[1..]| ==> run[1..][i] == run[i + 1];
      PaidOnceFrom(rec, StepOrStay(rec, s, run[0]), run[1..], run[0].authority.required, order);
    }
  }

  /** A new confirmer that brings the list to the threshold pays, whatever was paid before. */
  lemma {:induction false} ReachedThresholdPays(s: State, sender: Address, auth: Authority, order: Order)
    requires sender in auth.active && sender !in Confirmers(s, order) && s.balance >= order.value && order.recipient != s.self
    requires |Confirmers(s, order)| + 1 == auth.required
    ensures var t := Confirm(s, sender, auth, order, true);
            && t.Some? && t.value.balance == s.balance - order.value && t.value.self == s.self
            && Confirmers(t.value, order) == Confirmers(s, order) + [sender]
            && Payments(t.value.events, order) == Payments(s.events, order) + 1
  {
    ConfirmPays(s, sender, auth, order, true, order);
  }

  lemma {:induction false} RunOfThree(rec: Recover, s: State, a: Transaction, b: Transaction, c: Transaction)
    ensures Run(rec, s, [a, b, c]) == StepOrStay(rec, StepOrStay(rec, StepOrStay(rec, s, a), b), c)
  {
    assert [a, b, c][1..] == [b, c] && [b, c][1..] == [c];
    var t := StepOrStay(rec, StepOrStay(rec, s, a), b);
    assert Run(rec, t, [c]) == StepOrStay(rec, t, c);
  }

  /* Signature collection. */

  function SignersOf(s: State, hash: Digest): seq<Address> {
    CollectionAt(s, hash).signed
  }

  /** How often the collection under `hash` has been announced. */
  function Announcements(events: seq<Event>, hash: Digest): nat {
    if events == [] then 0
    else
      var last := events[|events| - 1];
      Announcements(events[..|events| - 1], hash) +
      (if last.CollectedSignatures? && last.messageHash == hash then 1 else 0)
  }

  lemma {:induction false} AnnouncementsAppend(events: seq<Event>, e: Event, hash: Digest)
    ensures Announcements(events + [e], hash) ==
            Announcements(events, hash) + (if e.CollectedSignatures? && e.messageHash == hash then 1 else 0)
  {
    assert (events + [e])[..|events|] == events;
  }

  /** The transaction is an accepted signature for the message with this hash. */
  predicate Collects(rec: Recover, s: State, tx: Transaction, hash: Digest) {
    Step(rec, s, tx).Some? && tx.call.SubmitSignature? && Keccak(tx.call.message) == hash
  }

  /**
   * What one transaction does to one collection: at most one new signer, at the end of the list; and an
   * announcement exactly when that signer brings the list to the threshold of the moment.
   */
  lemma {:induction false} StepCollects(rec: Recover, s: State, tx: Transaction, hash: Digest)
    ensures var t := StepOrStay(rec, s, tx);
            && SignersOf(t, hash) == SignersOf(s, hash) + (if Collects(rec, s, tx, hash) then [tx.sender] else [])
            && (Collects(rec, s, tx, hash) ==> tx.sender in tx.authority.active && tx.sender !in SignersOf(s, hash))
            && Announcements(t.events, hash) - Announcements(s.events, hash) ==
               (if Collects(rec, s, tx, hash) && |SignersOf(t, hash)| == tx.authority.required then 1 else 0)
  {
    if Step(rec, s, tx).None? {
      return;
    }
    match tx.call
    case Receive(value, _) =>
      AnnouncementsAppend(s.events, Withdraw(tx.sender, value, 0), hash);
    case ConfirmDeposit(order, accepts) =>
      ConfirmAnnouncesNothing(s, tx.sender, tx.authority, order, accepts, hash);
    case SubmitSignature(signature, message) =>
      SubmitCollects(rec, s, tx.sender, tx.authority, signature, message, hash);
  }

  lemma {:induction false} SubmitCollects(
    rec: Recover, s: State, sender: Address, auth: Authority, signature: seq<byte>, message: seq<byte>, hash: Digest)
    requires Submit(rec, s, sender, auth, signature, message).Some?
    ensures var t := Submit(rec, s, sender, auth, signature, message).value;
            && sender in auth.active && sender !in SignersOf(s, Keccak(message))
            && SignersOf(t, hash) == SignersOf(s, hash) + (if Keccak(message) == hash then [sender] else [])
            && Announcements(t.events, hash) - Announcements(s.events, hash) ==
               (if Keccak(message) == hash && |SignersOf(t, hash)| == auth.required then 1 else 0)
  {
    var t := Submit(rec, s, sender, auth, signature, message).value;
    var e := SignedForWithdraw(sender, Keccak(message));
    AnnouncementsAppend(s.events, e, hash);
    AnnouncementsAppend(s.events + [e], t.events[|s.events| + 1], hash);
  }

  lemma {:induction false} ConfirmAnnouncesNothing(
    s: State, sender: Address, auth: Authority, order: Order, accepts: bool, hash: Digest)
    requires Confirm(s, sender, auth, order, accepts).Some?
    ensures var t := Confirm(s, sender, auth, order, accepts).value;
            t.signatures == s.signatures && Announcements(t.events, hash) == Announcements(s.events, hash)
  {
    var signed := s.events + [SignedForDeposit(sender, order.transactionHash)];
    var back := Withdraw(s.self, order.value, 0);
    AnnouncementsAppend(s.events, SignedForDeposit(sender, order.transactionHash), hash);
    AnnouncementsAppend(signed, back, hash);
    AnnouncementsAppend(signed, Deposit(order), hash);
    AnnouncementsAppend(signed + [back], Deposit(order), hash);
  }

  /** The parallel arrays of a collection: distinct signers, each with a signature that recovers it. */
  ghost predicate Sound(rec: Recover, hash: Digest, c: Collection) {
    && hash == Keccak(c.message)
    && |c.signed| == |c.signatures|
    && Distinct(c.signed)
    && forall i :: 0 <= i < |c.signed| ==> RecoverSigner(rec, c.signatures[i], c.message) == Some(c.signed[i])
  }

  ghost predicate AllSound(rec: Recover, s: State) {
    forall h :: h in s.signatures ==> Sound(rec, h, s.signatures[h])
  }

  lemma {:induction false} StepKeepsSound(rec: Recover, s: State, tx: Transaction)
    requires AllSound(rec, s)
    ensures AllSound(rec, StepOrStay(rec, s, tx))
  {
    if Step(rec, s, tx).Some? && tx.call.SubmitSignature? {
      var hash := Keccak(tx.call.message);
      var t := Step(rec, s, tx).value;
      assert Sound(rec, hash, t.signatures[hash]) by {
        assert hash in s.signatures ==> Sound(rec, hash, s.signatures[hash]);
      }
    }
  }

  /** Some transaction of the run is the validator's signature for the message with this hash. */
  ghost predicate SignedIn(run: seq<Transaction>, validator: Address, hash: Digest) {
    exists i :: 0 <= i < |run| && run[i].sender == validator && validator in run[i].authority.active
                && run[i].call.SubmitSignature? && Keccak(run[i].call.message) == hash
  }

  /** Some transaction of the run is a signature for it, at a threshold of at most `n`. */
  ghost predicate SignedAtThreshold(run: seq<Transaction>, hash: Digest, n: nat) {
    exists i :: 0 <= i < |run| && run[i].call.SubmitSignature? && Keccak(run[i].call.message) == hash
                && run[i].authority.required <= n
  }

  /**
   * In every run, whatever the validator set and the threshold do: collections stay sound and only grow,
   * each new signer signed while it was a validator, and each new announcement was made at a threshold
   * that the signers still reach.
   */
  lemma {:induction false} RunKeepsSound(rec: Recover, s: State, run: seq<Transaction>, hash: Digest)
    requires AllSound(rec, s)
    ensures var t := Run(rec, s, run);
            && AllSound(rec, t)
            && SignersOf(s, hash) <= SignersOf(t, hash)
            && (forall a :: a in SignersOf(t, hash) && a !in SignersOf(s, hash) ==> SignedIn(run, a, hash))
            && (Announcements(t.events, hash) > Announcements(s.events, hash) ==>
                  SignedAtThreshold(run, hash, |SignersOf(t, hash)|))
    decreases |run|
  {
    if run != [] {
      var m := StepOrStay(rec, s, run[0]);
      StepKeepsSound(rec, s, run[0]);
      StepCollects(rec, s, run[0], hash);
      RunKeepsSound(rec, m, run[1..], hash);
      RunLater(run, hash);
      var t := Run(rec, s, run);
      forall a | a in SignersOf(t, hash) && a !in SignersOf(s, hash) ensures SignedIn(run, a, hash) {
        if a in SignersOf(m, hash) {
          assert run[0].sender == a;
        }
      }
    }
  }

  lemma {:induction false} RunLater(run: seq<Transaction>, hash: Digest)
    requires run != []
    ensures forall a :: SignedIn(run[1..], a, hash) ==> SignedIn(run, a, hash)
    ensures forall n :: SignedAtThreshold(run[1..], hash, n) ==> SignedAtThreshold(run, hash, n)
  {
    forall i | 0 <= i < |run[1..]| ensures run[1..][i] == run[i + 1] {
    }
    forall a | SignedIn(run[1..], a, hash) ensures SignedIn(run, a, hash) {
      var i :| 0 <= i < |run[1..]| && run[1..][i].sender == a && a in run[1..][i].authority.active
               && run[1..][i].call.SubmitSignature? && Keccak(run[1..][i].call.message) == hash;
      assert run[i + 1].sender == a;
    }
    forall n | SignedAtThreshold(run[1..], hash, n) ensures SignedAtThreshold(run, hash, n) {
      var i :| 0 <= i < |run[1..]| && run[1..][i].call.SubmitSignature? && Keccak(run[1..][i].call.message) == hash
               && run[1..][i].authority.required <= n;
      assert run[i + 1].authority.required <= n;
    }
  }

  /** The j-th transaction of the run is the accepted signature that brings the collection to the threshold. */
  ghost predicate Completes(rec: Recover, s: State, run: seq<Transaction>, j: nat, hash: Digest)
    requires j < |run|
  {
    var before := Run(rec, s, run[..j]);
    Collects(rec, before, run[j], hash) && |SignersOf(before, hash)| + 1 == run[j].authority.required
  }

  /**
   * In every run, the authority each announcement makes responsible for the relay is the validator whose
   * signature brought that collection to the threshold of the moment.
   */
  lemma {:induction false} AnnouncedAuthority(rec: Recover, s: State, run: seq<Transaction>, e: Event) returns (j: nat)
    requires e.CollectedSignatures? && e !in s.events && e in Run(rec, s, run).events
    ensures j < |run| && Completes(rec, s, run, j, e.messageHash)
    ensures run[j].sender == e.authorityResponsibleForRelay && run[j].sender in run[j].authority.active
    decreases |run|
  {
    var m := StepOrStay(rec, s, run[0]);
    if e in m.events {
      j := 0;
      CallAppends(rec, s, run[0]);
      AcceptedIff(rec, s, run[0]);
      assert run[..0] == [];
    } else {
      var i := AnnouncedAuthority(rec, m, run[1..], e);
      j := i + 1;
      assert run[..j][1..] == run[1..][..i];
      assert Run(rec, s, run[..j]) == Run(rec, m, run[1..][..i]);
    }
  }

  /** What a view has answered for a collection it keeps answering: messages and signatures are never replaced. */
  lemma {:induction false} ViewsStay(rec: Recover, s: State, run: seq<Transaction>, hash: Digest, j: nat)
    requires AllSound(rec, s)
    ensures hash in s.signatures ==> MessageView(Run(rec, s, run), hash) == MessageView(s, hash)
    ensures SignatureView(s, hash, j).Some? ==> SignatureView(Run(rec, s, run), hash, j) == SignatureView(s, hash, j)
    decreases |run|
  {
    if run != [] {
      var m := StepOrStay(rec, s, run[0]);
      StepKeepsSound(rec, s, run[0]);
      assert hash in s.signatures ==> Sound(rec, hash, s.signatures[hash]);
      assert hash in s.signatures ==> hash in m.signatures && MessageView(m, hash) == MessageView(s, hash);
      assert SignatureView(s, hash, j).Some? ==> SignatureView(m, hash, j) == SignatureView(s, hash, j);
      ViewsStay(rec, m, run[1..], hash, j);
    }
  }

  /** While the threshold stays `n`, a collection is announced once, when its `n`-th signer comes. */
  lemma {:induction false} AnnouncedExactlyAtThreshold(rec: Recover, s: State, run: seq<Transaction>, n: nat, hash: Digest)
    requires FixedThreshold(run, n)
    ensures var t := Run(rec, s, run);
            && SignersOf(s, hash) <= SignersOf(t, hash)
            && Announcements(t.events, hash) - Announcements(s.events, hash) ==
               (if |SignersOf(s, hash)| < n <= |SignersOf(t, hash)| then 1 else 0)
    decreases |run|
  {
    if run != [] {
      StepCollects(rec, s, run[0], hash);
      AnnouncedExactlyAtThreshold(rec, StepOrStay(rec, s, run[0]), run[1..], n, hash);
    }
  }
}
