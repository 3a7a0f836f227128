/**
 * `HomeBridge.withdraw`, with re-entry: the plain form of truffle/contracts/HomeBridge.sol and the
 * fee-charging form of contracts/bridge.sol.
 */
module Home {
  import opened Wrappers
  import opened Bytes
  import opened Evm
  import opened SignatureCheck
  import opened Signing
  import opened Message

  /**
   * `Plain` pays the whole value and asks the validator contract; `Charging` deducts the relay cost and
   * refunds it to the sender, and was constructed with its authorities.
   */
  datatype Form = Plain | Charging(estimatedGasCostOfWithdraw: uint256, authorities: Authority)

  datatype Terms = Terms(self: Address, form: Form)

  /**
   * Arguments and circumstances of a `withdraw` call: `answers` is what the validator contract says
   * during this call, `None` if it was never set; `after` is the memory behind the message.
   */
  datatype Request = Request(
    sender: Address, gasPrice: uint256, parts: Parts, message: seq<byte>, after: seq<byte>, answers: Option<Authority>)
  {
    function Recipient(): Address { GetRecipient(Layout(message, after)) }
    function Value(): uint256 { GetValue(Layout(message, after)) }
    function Hash(): Bytes32 { GetTransactionHash(Layout(message, after)) }
    function HomeGasPrice(): uint256 { GetHomeGasPrice(Layout(message, after)) }
  }

  datatype Payout = Payout(to: Address, amount: uint256)

  /**
   * A withdraw that went through: its foreign transaction hash, its value, its payouts and their sum, and
   * the most the contract held when it was about to pay.
   */
  datatype Completion = Completion(
    request: Request, hash: Bytes32, value: uint256, payouts: seq<Payout>, total: nat, held: nat)

  function Complete(form: Form, q: Request, held: nat): Completion {
    Completion(q, q.Hash(), q.Value(),
               [ToRecipient(form, q)] + (if form.Plain? then [] else [ToSender(form, q).value]), Total(form, q), held)
  }

  /** The `Deposit` event of the fallback function. */
  datatype Deposit = Deposit(recipient: Address, value: uint256)

  /** `received` and `paid` are all the ether that came in and went out, `payouts` to whom it went. */
  datatype State = State(
    withdraws: set<Bytes32>, balance: nat, received: nat, paid: nat, completed: seq<Completion>, deposits: seq<Deposit>,
    payouts: seq<Payout>)

  const DEPLOYED := State({}, 0, 0, 0, [], [], [])

  /** What an account does when it is paid: any calls back into the bridge, then accept or refuse. */
  datatype Reaction = Reaction(calls: Calls, accepts: bool)

  datatype Calls = NoCalls | Then(first: Call, rest: Calls)

  datatype Call =
    | Receive(sender: Address, value: uint256, data: seq<byte>)
    | Withdraw(request: Request, recipientReacts: Reaction, senderReacts: Reaction)

  /** The quorum and the guards in front of the replay check. */
  predicate Authorised(rec: Recover, terms: Terms, q: Request) {
    match terms.form
    case Plain => q.answers.Some? && ContractVerdict(rec, q.message, q.parts, q.answers.value.active, q.answers.value.required)
    case Charging(_, a) =>
      && |q.message| == MESSAGE_LENGTH
      && ListVerdict(rec, q.message, q.parts, a.active, a.required) == Returned(true)
      && (q.Recipient() == q.sender || q.gasPrice == q.HomeGasPrice())
  }

  /** The fallback function. */
  predicate FallbackAccepts(form: Form, value: uint256, data: seq<byte>) {
    form.Charging? || (value > 0 && data == [])
  }

  /** `estimatedGasCostOfWithdraw * homeGasPrice`, unchecked. */
  function Cost(gas: uint256, q: Request): uint256 {
    gas * q.HomeGasPrice() % TWO_256
  }

  /** `value - cost`, unchecked. */
  function Remainder(gas: uint256, q: Request): uint256 {
    (q.Value() - Cost(gas, q)) % TWO_256
  }

  function ToRecipient(form: Form, q: Request): Payout {
    Payout(q.Recipient(), if form.Plain? then q.Value() else Remainder(form.estimatedGasCostOfWithdraw, q))
  }

  function ToSender(form: Form, q: Request): Option<Payout> {
    if form.Plain? then None else Some(Payout(q.sender, Cost(form.estimatedGasCostOfWithdraw, q)))
  }

  function Total(form: Form, q: Request): nat {
    ToRecipient(form, q).amount + (if form.Plain? then 0 else ToSender(form, q).value.amount)
  }

  function Larger(a: nat, b: nat): nat {
    if a < b then b else a
  }

  /* Execution on values; `None` is a revert, which undoes everything the call did. */

  function Exec(rec: Recover, terms: Terms, h: State, call: Call): Option<State>
    decreases call
  {
    match call
    case Receive(sender, value, data) =>
      if FallbackAccepts(terms.form, value, data) then
        Some(h.(balance := h.balance + value, received := h.received + value, deposits := h.deposits + [Deposit(sender, value)]))
      else None
    case Withdraw(q, recipientReacts, senderReacts) =>
      if !Authorised(rec, terms, q) || q.Hash() in h.withdraws then None
      else
        var first := Pay(rec, terms, h.(withdraws := h.withdraws + {q.Hash()}), ToRecipient(terms.form, q), recipientReacts);
        var second := if first.None? || terms.form.Plain? then first
                      else Pay(rec, terms, first.value, ToSender(terms.form, q).value, senderReacts);
        if second.None? then None
        else
          var held := Larger(h.balance, first.value.balance);
          Some(second.value.(completed := second.value.completed + [Complete(terms.form, q, held)]))
  }

  /** A transfer: it needs the balance, hands over control, and fails if the receiver refuses. */
  function Pay(rec: Recover, terms: Terms, h: State, p: Payout, r: Reaction): Option<State>
    decreases r
  {
    if p.amount > h.balance then None
    else
      var sent := h.(balance := h.balance - p.amount, paid := h.paid + p.amount, payouts := h.payouts + [p]);
      if p.to == terms.self then
        if FallbackAccepts(terms.form, p.amount, []) then
          Some(sent.(balance := h.balance, received := h.received + p.amount,
                     deposits := h.deposits + [Deposit(terms.self, p.amount)]))
        else None
      else if r.accepts then Some(ExecAll(rec, terms, sent, r.calls))
      else None
  }

  function ExecAll(rec: Recover, terms: Terms, h: State, calls: Calls): State
    decreases calls
  {
    match calls
    case NoCalls => h
    case Then(call, rest) =>
      var next := Exec(rec, terms, h, call);
      ExecAll(rec, terms, if next.Some? then next.value else h, rest)
  }

  class HomeBridge {
    const terms: Terms
    var withdraws: set<Bytes32>
    var balance: nat
    var received: nat
    var paid: nat
    var completed: seq<Completion>
    var deposits: seq<Deposit>
    var payouts: seq<Payout>

    ghost function Storage(): State
      reads this
    {
      State(withdraws, balance, received, paid, completed, deposits, payouts)
    }

    constructor (terms: Terms)
      ensures this.terms == terms && Storage() == DEPLOYED
    {
      this.terms := terms;
      withdraws, balance, received, paid, completed, deposits, payouts := {}, 0, 0, 0, [], [], [];
    }

    method Restore(s: State)
      modifies this
      ensures Storage() == s
    {
      withdraws, balance, received, paid := s.withdraws, s.balance, s.received, s.paid;
      completed, deposits, payouts := s.completed, s.deposits, s.payouts;
    }

    method Execute(rec: Recover, call: Call) returns (ok: bool)
      modifies this
      ensures match Exec(rec, terms, old(Storage()), call)
              case None => !ok && Storage() == old(Storage())
              case Some(s) => ok && Storage() == s
      decreases call
    {
      match call
      case Receive(sender, value, data) =>
        if !FallbackAccepts(terms.form, value, data) {
          return false;
        }
        balance, received, deposits := balance + value, received + value, deposits + [Deposit(sender, value)];
        return true;
      case Withdraw(q, recipientReacts, senderReacts) =>
        if !Authorised(rec, terms, q) || q.Hash() in withdraws {
          return false;
        }
        var before := State(withdraws, balance, received, paid, completed, deposits, payouts);
        withdraws := withdraws + {q.Hash()};
        ok := Transfer(rec, ToRecipient(terms.form, q), recipientReacts);
        var held := Larger(before.balance, balance);
        if ok && terms.form.Charging? {
          ok := Transfer(rec, ToSender(terms.form, q).value, senderReacts);
        }
        if !ok {
          Restore(before);
          return false;
        }
        completed := completed + [Complete(terms.form, q, held)];
        return true;
    }

    method Transfer(rec: Recover, p: Payout, r: Reaction) returns (ok: bool)
      modifies this
      ensures match Pay(rec, terms, old(Storage()), p, r)
              case None => !ok
              case Some(s) => ok && Storage() == s
      decreases r
    {
      if p.amount > balance {
        return false;
      }
      balance, paid, payouts := balance - p.amount, paid + p.amount, payouts + [p];
      if p.to == terms.self {
        balance, received, deposits := balance + p.amount, received + p.amount, deposits + [Deposit(terms.self, p.amount)];
        return FallbackAccepts(terms.form, p.amount, []);
      }
      if r.accepts {
        ExecuteAll(rec, r.calls);
      }
      return r.accepts;
    }

    method ExecuteAll(rec: Recover, calls: Calls)
      modifies this
      ensures Storage() == ExecAll(rec, terms, old(Storage()), calls)
      decreases calls
    {
      match calls
      case NoCalls =>
      case Then(call, rest) =>
        var _ := Execute(rec, call);
        ExecuteAll(rec, rest);
    }
  }

  /* Single calls. */

  /**
   * What the contract a request is made to demands of its signatures: the required number of different
   * nonzero validators, each recovered from the digest of this very message; and the charging form also
   * the length of the message and the gas price it names, unless the recipient sends it.
   */
  ghost predicate Signed(rec: Recover, form: Form, q: Request) {
    match form
    case Plain =>
      && q.answers.Some?
      && q.answers.value.required <= q.parts.Complete()
      && Quorum(Recovered(rec, HashMessage116(q.message), q.parts, q.answers.value.required), q.answers.value.active)
    case Charging(_, a) =>
      && |q.message| == 116
      && a.required <= q.parts.Complete()
      && Quorum(Recovered(rec, HashMessage(q.message), q.parts, a.required), a.active)
      && (q.sender == q.Recipient() || q.gasPrice == q.HomeGasPrice())
  }

  lemma {:induction false} AuthorisedIffSigned(rec: Recover, terms: Terms, q: Request)
    ensures Authorised(rec, terms, q) <==> Signed(rec, terms.form, q)
  {
  }

  /** The fallback function takes everything on the charging form, and ether without data on the plain one. */
  lemma {:induction false} ReceiveEffects(rec: Recover, terms: Terms, h: State, sender: Address, value: uint256, data: seq<byte>)
    ensures Exec(rec, terms, h, Receive(sender, value, data)) ==
            if terms.form.Charging? || (value > 0 && data == []) then
              Some(State(h.withdraws, h.balance + value, h.received + value, h.paid, h.completed,
                         h.deposits + [Deposit(sender, value)], h.payouts))
            else None
  {
  }

  /** A transfer fails exactly without the balance or if the receiver refuses it. */
  lemma {:induction false} PayIff(rec: Recover, terms: Terms, h: State, p: Payout, r: Reaction)
    ensures Pay(rec, terms, h, p, r).Some? <==>
            p.amount <= h.balance && if p.to == terms.self then terms.form.Charging? || p.amount > 0 else r.accepts
  {
  }

  /** Ether the bridge sends to itself comes back as a new deposit. */
  lemma {:induction false} SelfPayment(rec: Recover, terms: Terms, h: State, amount: uint256, r: Reaction)
    requires Pay(rec, terms, h, Payout(terms.self, amount), r).Some?
    ensures Pay(rec, terms, h, Payout(terms.self, amount), r) ==
            Some(State(h.withdraws, h.balance, h.received + amount, h.paid + amount, h.completed,
                       h.deposits + [Deposit(terms.self, amount)], h.payouts + [Payout(terms.self, amount)]))
  {
  }

  /**
   * A withdraw that goes through was signed by a quorum and is new, whoever calls back in between; it is
   * recorded last, for its own hash and value.
   */
  lemma {:induction false} WithdrawNeedsQuorum(rec: Recover, terms: Terms, h: State, q: Request, a: Reaction, b: Reaction)
    requires Exec(rec, terms, h, Withdraw(q, a, b)).Some?
    ensures Signed(rec, terms.form, q) && q.Hash() !in h.withdraws
    ensures var c := Exec(rec, terms, h, Withdraw(q, a, b)).value.completed;
            c != [] && var last := c[|c| - 1]; last.request == q && last.hash == q.Hash() && last.value == q.Value()
  {
    AuthorisedIffSigned(rec, terms, q);
  }

  /* What every execution keeps. */

  function SumTotals(c: seq<Completion>): nat {
    if c == [] then 0 else SumTotals(c[..|c| - 1]) + c[|c| - 1].total
  }

  lemma {:induction false} SumTotalsConcat(a: seq<Completion>, b: seq<Completion>)
    ensures SumTotals(a + b) == SumTotals(a) + SumTotals(b)
  {
    if b == [] {
      assert a + b == a;
    } else {
      assert (a + b)[..|a + b| - 1] == a + b[..|b| - 1];
      SumTotalsConcat(a, b[..|b| - 1]);
    }
  }

  /** What was paid to whom by completed withdraws. */
  function AllPayouts(c: seq<Completion>): multiset<Payout> {
    if c == [] then multiset{} else AllPayouts(c[..|c| - 1]) + multiset(c[|c| - 1].payouts)
  }

  lemma {:induction false} AllPayoutsConcat(a: seq<Completion>, b: seq<Completion>)
    ensures AllPayouts(a + b) == AllPayouts(a) + AllPayouts(b)
  {
    if b == [] {
      assert a + b == a;
    } else {
      assert (a + b)[..|a + b| - 1] == a + b[..|b| - 1];
      AllPayoutsConcat(a, b[..|b| - 1]);
    }
  }

  /** The recipient of the message gets its value, or what the unchecked arithmetic leaves of it and the sender the cost. */
  ghost predicate PaysOut(form: Form, c: Completion) {
    match form
    case Plain => c.payouts == [Payout(c.request.Recipient(), c.request.Value())] && c.total == c.request.Value()
    case Charging(gas, _) =>
      var cost := gas * c.request.HomeGasPrice() % TWO_256;
      var rest := if cost <= c.request.Value() then c.request.Value() - cost else c.request.Value() + TWO_256 - cost;
      c.payouts == [Payout(c.request.Recipient(), rest), Payout(c.request.sender, cost)] && c.total == rest + cost
  }

  lemma {:induction false} CompletePaysOut(form: Form, q: Request, held: nat)
    ensures PaysOut(form, Complete(form, q, held))
  {
    if form.Charging? {
      DifferenceWraps(q.Value(), Cost(form.estimatedGasCostOfWithdraw, q));
    }
  }

  /**
   * A completed withdraw was signed by a quorum for its own hash and value; it paid the recipient and the
   * sender what is due to them, that value in all or that much more by a wrap-around; and it paid in at
   * most two amounts that the contract held.
   */
  ghost predicate Proper(rec: Recover, terms: Terms, c: Completion) {
    && Signed(rec, terms.form, c.request) && PaysOut(terms.form, c)
    && c.hash == c.request.Hash() && c.value == c.request.Value()
    && (c.total == c.value || c.total == c.value + TWO_256)
    && c.total <= 2 * c.held
  }

  lemma {:induction false} CompleteIsProper(rec: Recover, terms: Terms, q: Request, held: nat)
    requires Authorised(rec, terms, q) && ToRecipient(terms.form, q).amount <= held
    requires terms.form.Charging? ==> ToSender(terms.form, q).value.amount <= held
    ensures Proper(rec, terms, Complete(terms.form, q, held))
  {
    AuthorisedIffSigned(rec, terms, q);
    CompletePaysOut(terms.form, q, held);
    TotalWraps(terms.form, q);
  }

  /** Completions for different hashes, all marked in between. */
  ghost predicate Marked(before: set<Bytes32>, after: set<Bytes32>, log: seq<Completion>) {
    && before <= after
    && (forall i :: 0 <= i < |log| ==> log[i].hash in after && log[i].hash !in before)
    && (forall i, j :: 0 <= i < j < |log| ==> log[i].hash != log[j].hash)
  }

  predicate AllOk(ok: Completion -> bool, log: seq<Completion>) {
    forall i :: 0 <= i < |log| ==> ok(log[i])
  }

  /**
   * What happened between two states: hashes were only marked, completions only appended, each for a
   * hash newly marked, all for different hashes and all satisfying `ok`; `extra` ether went out by
   * `others` besides the completed withdraws, and no ether was created or lost.
   */
  ghost predicate Progress(
    ok: Completion -> bool, h: State, k: State, log: seq<Completion>, extra: nat, others: multiset<Payout>)
  {
    && Marked(h.withdraws, k.withdraws, log)
    && AllOk(ok, log)
    && PaidOut(h, k, log, extra, others)
  }

  /** What was completed, how much ether went out and to whom, and that none was created or lost. */
  ghost predicate PaidOut(h: State, k: State, log: seq<Completion>, extra: nat, others: multiset<Payout>) {
    && k.completed == h.completed + log
    && k.paid == h.paid + SumTotals(log) + extra
    && multiset(k.payouts) == multiset(h.payouts) + AllPayouts(log) + others
    && k.received - h.received == (k.balance - h.balance) + (k.paid - h.paid)
  }

  lemma {:induction false} PaidOutChains(
    h: State, k: State, l: State,
    a: seq<Completion>, x: nat, m: multiset<Payout>, b: seq<Completion>, y: nat, n: multiset<Payout>)
    requires PaidOut(h, k, a, x, m) && PaidOut(k, l, b, y, n)
    ensures PaidOut(h, l, a + b, x + y, m + n)
  {
    SumTotalsConcat(a, b);
    AllPayoutsConcat(a, b);
  }

  ghost predicate Covers(ok: Completion -> bool, rec: Recover, terms: Terms) {
    forall c {:trigger Proper(rec, terms, c)} :: Proper(rec, terms, c) ==> ok(c)
  }

  lemma {:induction false} MarkedChains(x: set<Bytes32>, y: set<Bytes32>, z: set<Bytes32>, a: seq<Completion>, b: seq<Completion>)
    requires Marked(x, y, a) && Marked(y, z, b)
    ensures Marked(x, z, a + b)
  {
    var c := a + b;
    forall i | 0 <= i < |c| ensures c[i].hash in z && c[i].hash !in x {
    }
    forall i, j | 0 <= i < j < |c| ensures c[i].hash != c[j].hash {
      if i < |a| <= j {
        assert c[i].hash in y && c[j].hash !in y;
      }
    }
  }

  lemma {:induction false} AllOkConcat(ok: Completion -> bool, a: seq<Completion>, b: seq<Completion>)
    requires AllOk(ok, a) && AllOk(ok, b)
    ensures AllOk(ok, a + b)
  {
  }

  lemma {:induction false} ProgressChains(
    ok: Completion -> bool, h: State, k: State, l: State,
    a: seq<Completion>, x: nat, m: multiset<Payout>, b: seq<Completion>, y: nat, n: multiset<Payout>)
    requires Progress(ok, h, k, a, x, m) && Progress(ok, k, l, b, y, n)
    ensures Progress(ok, h, l, a + b, x + y, m + n)
  {
    PaidOutChains(h, k, l, a, x, m, b, y, n);
    AllOkConcat(ok, a, b);
    MarkedChains(h.withdraws, k.withdraws, l.withdraws, a, b);
  }

  lemma {:induction false} ExecProgress(ok: Completion -> bool, rec: Recover, terms: Terms, h: State, call: Call)
    returns (log: seq<Completion>)
    requires Covers(ok, rec, terms) && Exec(rec, terms, h, call).Some?
    ensures Progress(ok, h, Exec(rec, terms, h, call).value, log, 0, multiset{})
    decreases call, 1
  {
    log := [];
    if call.Withdraw? {
      var q, f := call.request, terms.form;
      var first := Pay(rec, terms, h.(withdraws := h.withdraws + {q.Hash()}), ToRecipient(f, q), call.recipientReacts).value;
      var last := if f.Plain? then first else Pay(rec, terms, first, ToSender(f, q).value, call.senderReacts).value;
      var c := Complete(f, q, Larger(h.balance, first.balance));
      log := PaymentsProgress(ok, rec, terms, h, call);
      CompleteIsProper(rec, terms, q, c.held);
      CompletionProgress(ok, h, c, last, log);
      log := log + [c];
    }
  }

  /** The one or two payments of a withdraw. */
  lemma {:induction false} PaymentsProgress(ok: Completion -> bool, rec: Recover, terms: Terms, h: State, call: Call)
    returns (log: seq<Completion>)
    requires Covers(ok, rec, terms) && call.Withdraw? && Exec(rec, terms, h, call).Some?
    ensures var q, f := call.request, terms.form;
            var marked := h.(withdraws := h.withdraws + {q.Hash()});
            var first := Pay(rec, terms, marked, ToRecipient(f, q), call.recipientReacts).value;
            var last := if f.Plain? then first else Pay(rec, terms, first, ToSender(f, q).value, call.senderReacts).value;
            Progress(ok, marked, last, log, Total(f, q), multiset(Complete(f, q, 0).payouts))
    decreases call, 0
  {
    var q, f := call.request, terms.form;
    var marked := h.(withdraws := h.withdraws + {q.Hash()});
    var p := ToRecipient(f, q);
    var first := Pay(rec, terms, marked, p, call.recipientReacts).value;
    log := PayProgress(ok, rec, terms, marked, p, call.recipientReacts);
    if f.Charging? {
      var p' := ToSender(f, q).value;
      var last := Pay(rec, terms, first, p', call.senderReacts).value;
      var more := PayProgress(ok, rec, terms, first, p', call.senderReacts);
      ProgressChains(ok, marked, first, last, log, p.amount, multiset{p}, more, p'.amount, multiset{p'});
      log := log + more;
    }
  }

  /** Marking, paying and recording a withdraw, as one step. */
  lemma {:induction false} CompletionProgress(ok: Completion -> bool, h: State, c: Completion, last: State, log: seq<Completion>)
    requires ok(c) && c.hash !in h.withdraws
    requires Progress(ok, h.(withdraws := h.withdraws + {c.hash}), last, log, c.total, multiset(c.payouts))
    ensures Progress(ok, h, last.(completed := last.completed + [c]), log + [c], 0, multiset{})
  {
    MarkedAndRecorded(h.withdraws, last.withdraws, log, c);
    AllOkConcat(ok, log, [c]);
    PaidAndRecorded(h, last, log, c);
  }

  lemma {:induction false} MarkedAndRecorded(before: set<Bytes32>, after: set<Bytes32>, log: seq<Completion>, c: Completion)
    requires Marked(before + {c.hash}, after, log) && c.hash !in before
    ensures Marked(before, after, log + [c])
  {
    var all := log + [c];
    forall i, j | 0 <= i < j < |all| ensures all[i].hash != all[j].hash {
      assert all[i] == log[i];
    }
  }

  lemma {:induction false} PaidAndRecorded(h: State, last: State, log: seq<Completion>, c: Completion)
    requires PaidOut(h.(withdraws := h.withdraws + {c.hash}), last, log, c.total, multiset(c.payouts))
    ensures PaidOut(h, last.(completed := last.completed + [c]), log + [c], 0, multiset{})
  {
    assert (log + [c])[..|log|] == log;
  }

  /** Ether sent first counts as `extra` of what follows. */
  lemma {:induction false} SendingProgress(ok: Completion -> bool, h: State, sent: State, k: State, log: seq<Completion>, p: Payout)
    requires sent.withdraws == h.withdraws && sent.completed == h.completed
    requires sent.paid == h.paid + p.amount && sent.payouts == h.payouts + [p]
    requires sent.received - h.received == (sent.balance - h.balance) + p.amount
    requires Progress(ok, sent, k, log, 0, multiset{})
    ensures Progress(ok, h, k, log, p.amount, multiset{p})
  {
  }

  lemma {:induction false} TotalWraps(form: Form, q: Request)
    ensures Total(form, q) == q.Value() || (form.Charging? && Total(form, q) == q.Value() + TWO_256)
    ensures form.Charging? ==>
              (Total(form, q) == q.Value() <==> Cost(form.estimatedGasCostOfWithdraw, q) <= q.Value())
  {
    if form.Charging? {
      DifferenceWraps(q.Value(), Cost(form.estimatedGasCostOfWithdraw, q));
    }
  }

  /** An unchecked subtraction and what was subtracted. */
  lemma {:induction false} DifferenceWraps(value: uint256, cost: uint256)
    ensures (value - cost) % TWO_256 == if cost <= value then value - cost else value - cost + TWO_256
  {
  }

  lemma {:induction false} PayProgress(
    ok: Completion -> bool, rec: Recover, terms: Terms, h: State, p: Payout, r: Reaction)
    returns (log: seq<Completion>)
    requires Covers(ok, rec, terms) && Pay(rec, terms, h, p, r).Some?
    ensures Progress(ok, h, Pay(rec, terms, h, p, r).value, log, p.amount, multiset{p})
    decreases r
  {
    var end := Pay(rec, terms, h, p, r).value;
    if p.to == terms.self {
      log := [];
      SendingProgress(ok, h, end, end, [], p);
    } else {
      var sent := h.(balance := h.balance - p.amount, paid := h.paid + p.amount, payouts := h.payouts + [p]);
      log := ExecAllProgress(ok, rec, terms, sent, r.calls);
      SendingProgress(ok, h, sent, end, log, p);
    }
  }

  lemma {:induction false} ExecAllProgress(
    ok: Completion -> bool, rec: Recover, terms: Terms, h: State, calls: Calls)
    returns (log: seq<Completion>)
    requires Covers(ok, rec, terms)
    ensures Progress(ok, h, ExecAll(rec, terms, h, calls), log, 0, multiset{})
    decreases calls
  {
    log := [];
    if calls.Then? {
      var next := Exec(rec, terms, h, calls.first);
      if next.Some? {
        var a := ExecProgress(ok, rec, terms, h, calls.first);
        var b := ExecAllProgress(ok, rec, terms, next.value, calls.rest);
        ProgressChains(ok, h, next.value, ExecAll(rec, terms, h, calls), a, 0, multiset{}, b, 0, multiset{});
        log := a + b;
      } else {
        log := ExecAllProgress(ok, rec, terms, h, calls.rest);
      }
    }
  }

  /**
   * No hash was paid twice, every completed withdraw satisfies `ok`, the ether received is the balance plus
   * what the completed withdraws paid, and nobody was paid anything else.
   */
  ghost predicate Settled(ok: Completion -> bool, h: State) {
    && (forall i, j :: 0 <= i < j < |h.completed| ==> h.completed[i].hash != h.completed[j].hash)
    && AllOk(ok, h.completed)
    && h.received == h.balance + SumTotals(h.completed)
    && multiset(h.payouts) == AllPayouts(h.completed)
  }

  lemma {:induction false} ProgressFromNothing(ok: Completion -> bool, h: State, log: seq<Completion>)
    requires Progress(ok, DEPLOYED, h, log, 0, multiset{})
    ensures Settled(ok, h)
  {
    assert h.completed == log;
  }

  /**
   * Whatever is called from deployment on, with re-entry to any depth and reverts anywhere: no foreign
   * transaction hash is paid twice, only requests signed by a quorum are, each pays its recipient and its
   * sender what is due, nobody is paid anything else, and the ether received is the balance plus what
   * the completed withdraws paid.
   */
  lemma {:induction false} ReplaySafety(rec: Recover, terms: Terms, calls: Calls)
    ensures Settled(c => Proper(rec, terms, c), ExecAll(rec, terms, DEPLOYED, calls))
  {
    var ok := c => Proper(rec, terms, c);
    var log := ExecAllProgress(ok, rec, terms, DEPLOYED, calls);
    ProgressFromNothing(ok, ExecAll(rec, terms, DEPLOYED, calls), log);
  }

  lemma {:induction false} TotalWithinSum(c: seq<Completion>, i: nat)
    requires i < |c|
    ensures c[i].total <= SumTotals(c)
  {
    if i < |c| - 1 {
      TotalWithinSum(c[..|c| - 1], i);
    }
  }

  const TWO_255: nat := TWO_256 / 2

  /**
   * Every completed withdraw of every run paid recipient and sender together exactly the value of its
   * message, for every gas price and cost, every recipient and every callback, provided the contract
   * held less than 2^255 wei when it paid; or received less than 2^256 wei in all.
   */
  lemma {:induction false} ExactPayout(rec: Recover, terms: Terms, calls: Calls, i: nat)
    requires i < |ExecAll(rec, terms, DEPLOYED, calls).completed|
    ensures var h := ExecAll(rec, terms, DEPLOYED, calls);
            var c := h.completed[i];
            && c.value == c.request.Value() && PaysOut(terms.form, c)
            && (c.held < TWO_255 || h.received < TWO_256 ==> c.total == c.value)
  {
    ReplaySafety(rec, terms, calls);
    SettledExactly(rec, terms, ExecAll(rec, terms, DEPLOYED, calls), i);
  }

  lemma {:induction false} SettledExactly(rec: Recover, terms: Terms, h: State, i: nat)
    requires Settled(c => Proper(rec, terms, c), h) && i < |h.completed|
    ensures var c := h.completed[i];
            && c.value == c.request.Value() && PaysOut(terms.form, c)
            && (c.held < TWO_255 || h.received < TWO_256 ==> c.total == c.value)
  {
    TotalWithinSum(h.completed, i);
    assert Proper(rec, terms, h.completed[i]);
  }

  const QUIET := Reaction(NoCalls, true)

  /** A charging withdraw is its two payments in a row. */
  lemma {:induction false} ChargingExec(rec: Recover, terms: Terms, h: State, q: Request, a: Reaction, b: Reaction)
    requires terms.form.Charging?
    ensures var gas := terms.form.estimatedGasCostOfWithdraw;
            var end := Exec(rec, terms, h, Withdraw(q, a, b));
            var first := Pay(rec, terms, h.(withdraws := h.withdraws + {q.Hash()}), Payout(q.Recipient(), Remainder(gas, q)), a);
            if !Authorised(rec, terms, q) || q.Hash() in h.withdraws || first.None? then end.None?
            else
              var second := Pay(rec, terms, first.value, Payout(q.sender, Cost(gas, q)), b);
              end.Some? == second.Some? &&
              (end.Some? ==> end.value == second.value.(completed := second.value.completed +
                               [Complete(terms.form, q, Larger(h.balance, first.value.balance))]))
  {
  }

  lemma {:induction false} PayQuietly(rec: Recover, terms: Terms, h: State, p: Payout)
    ensures var end := Pay(rec, terms, h, p, QUIET);
            && (end.Some? <==> p.amount <= h.balance && (p.to == terms.self ==> FallbackAccepts(terms.form, p.amount, [])))
            && (end.Some? ==>
                  && end.value.balance == h.balance - (if p.to == terms.self then 0 else p.amount)
                  && end.value.paid == h.paid + p.amount && end.value.payouts == h.payouts + [p]
                  && end.value.withdraws == h.withdraws && end.value.completed == h.completed)
  {
  }

  /**
   * Exactly when a charging withdraw goes through, for a recipient other than the bridge and receivers
   * that do not call back: the unchecked subtraction never lets one through whose cost exceeds its
   * value, because the two amounts would then exceed any balance.
   */
  lemma {:induction false} ChargingCompletesIff(rec: Recover, terms: Terms, h: State, q: Request)
    requires terms.form.Charging? && q.Recipient() != terms.self && h.balance < TWO_256
    ensures var end := Exec(rec, terms, h, Withdraw(q, QUIET, QUIET));
            var cost := Cost(terms.form.estimatedGasCostOfWithdraw, q);
            && (end.Some? <==>
                  Authorised(rec, terms, q) && q.Hash() !in h.withdraws && cost <= q.Value() <= h.balance)
            && (end.Some? ==> end.value.paid == h.paid + q.Value())
            && (end.Some? && q.sender != terms.self ==> end.value.balance == h.balance - q.Value())
  {
    QuietCharging(rec, terms, h, q);
    TotalWraps(terms.form, q);
  }

  lemma {:induction false} QuietCharging(rec: Recover, terms: Terms, h: State, q: Request)
    requires terms.form.Charging?
    ensures var end := Exec(rec, terms, h, Withdraw(q, QUIET, QUIET));
            var gas := terms.form.estimatedGasCostOfWithdraw;
            var cost, rest := Cost(gas, q), Remainder(gas, q);
            var left := h.balance - (if q.Recipient() == terms.self then 0 else rest);
            && (end.Some? <==> Authorised(rec, terms, q) && q.Hash() !in h.withdraws && rest <= h.balance && cost <= left)
            && (end.Some? ==>
                  && end.value.paid == h.paid + rest + cost
                  && end.value.payouts == h.payouts + [Payout(q.Recipient(), rest), Payout(q.sender, cost)]
                  && end.value.withdraws == h.withdraws + {q.Hash()}
                  && |end.value.completed| == |h.completed| + 1 && end.value.completed[|h.completed|].held == h.balance
                  && end.value.balance == left - (if q.sender == terms.self then 0 else cost))
  {
    var gas := terms.form.estimatedGasCostOfWithdraw;
    var marked := h.(withdraws := h.withdraws + {q.Hash()});
    ChargingExec(rec, terms, h, q, QUIET, QUIET);
    PayQuietly(rec, terms, marked, Payout(q.Recipient(), Remainder(gas, q)));
    var first := Pay(rec, terms, marked, Payout(q.Recipient(), Remainder(gas, q)), QUIET);
    if first.Some? {
      PayQuietly(rec, terms, first.value, Payout(q.sender, Cost(gas, q)));
    }
  }

  /** What it then pays to whom. */
  lemma {:induction false} ChargingPays(rec: Recover, terms: Terms, h: State, q: Request)
    requires terms.form.Charging? && q.Recipient() != terms.self && h.balance < TWO_256
    ensures var end := Exec(rec, terms, h, Withdraw(q, QUIET, QUIET));
            var cost := Cost(terms.form.estimatedGasCostOfWithdraw, q);
            end.Some? ==>
              && cost <= q.Value()
              && end.value.payouts == h.payouts + [Payout(q.Recipient(), q.Value() - cost), Payout(q.sender, cost)]
              && end.value.withdraws == h.withdraws + {q.Hash()}
  {
    ChargingCompletesIff(rec, terms, h, q);
    QuietCharging(rec, terms, h, q);
    if Exec(rec, terms, h, Withdraw(q, QUIET, QUIET)).Some? {
      RemainderIsRest(terms.form.estimatedGasCostOfWithdraw, q);
    }
  }

  lemma {:induction false} RemainderIsRest(gas: uint256, q: Request)
    requires Cost(gas, q) <= q.Value()
    ensures Remainder(gas, q) == q.Value() - Cost(gas, q)
  {
    DifferenceWraps(q.Value(), Cost(gas, q));
  }

  /** For the bridge as recipient it is enough that each amount by itself is held. */
  lemma {:induction false} SelfChargingCompletesIff(rec: Recover, terms: Terms, h: State, q: Request)
    requires terms.form.Charging? && q.Recipient() == terms.self
    ensures var end := Exec(rec, terms, h, Withdraw(q, QUIET, QUIET));
            var cost, rest := Cost(terms.form.estimatedGasCostOfWithdraw, q), Remainder(terms.form.estimatedGasCostOfWithdraw, q);
            && (end.Some? <==> Authorised(rec, terms, q) && q.Hash() !in h.withdraws && cost <= h.balance && rest <= h.balance)
            && (end.Some? ==> end.value.paid == h.paid + Total(terms.form, q))
  {
    QuietCharging(rec, terms, h, q);
  }

  /* The bound of 2^255 is sharp: what a wrap pays. */

  const COSTLY := Terms(9, Charging(1, Authority({5}, 1)))
  const HALF_FULL := State({}, TWO_255, TWO_255, 0, [], [], [])

  /** A request worth nothing that costs 2^255 wei. */
  predicate Wraps(q: Request) {
    && q.sender == 7 && q.Value() == 0 && q.HomeGasPrice() == TWO_255 && q.gasPrice == TWO_255
    && |q.message| == MESSAGE_LENGTH && |q.parts.vs| == |q.parts.rs| == |q.parts.ss| == 1
  }

  lemma {:induction false} WrappingRequest(to: Address, hash: Bytes32, r: Bytes32, s: Bytes32) returns (q: Request)
    ensures Wraps(q) && q.Recipient() == to
  {
    var m := MessageToMainnet(ToBE(to, 20), 0, hash, TWO_255);
    q := Request(7, TWO_255, Parts([27], [r], [s]), Encode(m), [], None);
    DecodeEncode(m);
    GettersAgree(Encode(m), []);
    Widths();
    BEOfToBE(to, 20);
  }

  /**
   * With 2^255 wei in the bridge and the bridge itself as recipient, a wrapped withdraw goes through: it
   * pays 2^255 wei to the bridge and 2^255 wei to the sender, for a message worth nothing.
   */
  lemma {:induction false} SelfRecipientWraps(hash: Bytes32, r: Bytes32, s: Bytes32) returns (q: Request)
    ensures var end := Exec((_, _, _, _) => 5, COSTLY, HALF_FULL, Withdraw(q, QUIET, QUIET));
            end.Some? && q.Recipient() == COSTLY.self && q.Value() == 0
            && end.value.payouts == [Payout(q.Recipient(), TWO_255), Payout(7, TWO_255)]
            && end.value.paid == TWO_256 && end.value.balance == 0
            && |end.value.completed| == 1 && end.value.completed[0].held == TWO_255
  {
    q := WrappingRequest(9, hash, r, s);
    WrapsPayTwice((_, _, _, _) => 5, q, QUIET);
  }

  const RETURNS := Reaction(Then(Receive(8, TWO_255, []), NoCalls), true)

  /** The same with another recipient that sends its payment straight back. */
  lemma {:induction false} CallbackWraps(hash: Bytes32, r: Bytes32, s: Bytes32) returns (q: Request)
    ensures var end := Exec((_, _, _, _) => 5, COSTLY, HALF_FULL, Withdraw(q, RETURNS, QUIET));
            end.Some? && q.Recipient() != COSTLY.self && q.Value() == 0
            && end.value.payouts == [Payout(q.Recipient(), TWO_255), Payout(7, TWO_255)]
            && end.value.paid == TWO_256 && end.value.balance == 0
            && |end.value.completed| == 1 && end.value.completed[0].held == TWO_255
  {
    q := WrappingRequest(8, hash, r, s);
    WrapsPayTwice((_, _, _, _) => 5, q, RETURNS);
  }

  lemma {:induction false} WrapsPayTwice(rec: Recover, q: Request, reaction: Reaction)
    requires Wraps(q) && (forall d, v, x, y :: rec(d, v, x, y) == 5)
    requires (q.Recipient() == 9 && reaction == QUIET) || (q.Recipient() == 8 && reaction == RETURNS)
    ensures var end := Exec(rec, COSTLY, HALF_FULL, Withdraw(q, reaction, QUIET));
            && end.Some? && end.value.balance == 0 && end.value.paid == TWO_256
            && |end.value.completed| == 1 && end.value.completed[0].held == TWO_255
            && end.value.payouts == [Payout(q.Recipient(), TWO_255), Payout(7, TWO_255)]
  {
    WrappedAmounts(q);
    OneSignerSuffices(rec, q);
    var marked := HALF_FULL.(withdraws := HALF_FULL.withdraws + {q.Hash()});
    ChargingExec(rec, COSTLY, HALF_FULL, q, reaction, QUIET);
    FirstPayment(rec, marked, q.Recipient(), reaction);
    PayQuietly(rec, COSTLY, Pay(rec, COSTLY, marked, Payout(q.Recipient(), TWO_255), reaction).value, Payout(7, TWO_255));
  }

  lemma {:induction false} WrappedAmounts(q: Request)
    requires q.Value() == 0 && q.HomeGasPrice() == TWO_255
    ensures Cost(1, q) == TWO_255 && Remainder(1, q) == TWO_255
  {
  }

  lemma {:induction false} OneSignerSuffices(rec: Recover, q: Request)
    requires Wraps(q) && (forall d, v, x, y :: rec(d, v, x, y) == 5)
    ensures Authorised(rec, COSTLY, q)
  {
  }

  lemma {:induction false} FirstPayment(rec: Recover, h: State, to: Address, reaction: Reaction)
    requires (to == 9 && reaction == QUIET) || (to == 8 && reaction == RETURNS)
    requires h.balance == TWO_255
    ensures var first := Pay(rec, COSTLY, h, Payout(to, TWO_255), reaction);
            && first.Some? && first.value.balance == TWO_255 && first.value.paid == h.paid + TWO_255
            && first.value.payouts == h.payouts + [Payout(to, TWO_255)] && first.value.completed == h.completed
  {
    if to == 8 {
      ReturnedPayment(rec, h.(balance := 0, paid := h.paid + TWO_255, payouts := h.payouts + [Payout(8, TWO_255)]));
    }
  }

  lemma {:induction false} ReturnedPayment(rec: Recover, h: State)
    ensures var t := ExecAll(rec, COSTLY, h, RETURNS.calls);
            && t.balance == h.balance + TWO_255 && t.paid == h.paid
            && t.payouts == h.payouts && t.completed == h.completed
  {
    var t := Exec(rec, COSTLY, h, Receive(8, TWO_255, [])).value;
    assert ExecAll(rec, COSTLY, t, NoCalls) == t;
  }
}
