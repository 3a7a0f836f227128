/**
 * How logs become transactions: `deposit_relay_payload`, the signing chain of `withdraw_confirm`, and
 * the fetch-and-pair chain of `withdraw_relay`.
 */
module Batches {
  import opened Wrappers
  import opened Bytes
  import opened Evm
  import opened SignatureCheck
  import opened Numerals
  import opened Signing
  import opened Message
  import Foreign
  import opened Payloads
  import opened Nonce
  import Sig = Signature

  /** All results, or none if one is missing: `collect::<Result<Vec<_>>>`. */
  function Collect<T>(results: seq<Option<T>>): (r: Option<seq<T>>)
    ensures r.Some? <==> forall i :: 0 <= i < |results| ==> results[i].Some?
    ensures r.Some? ==> |r.value| == |results|
    ensures r.Some? ==> forall i :: 0 <= i < |results| ==> r.value[i] == results[i].value
  {
    if results == [] then Some([])
    else
      var front := Collect(results[..|results| - 1]);
      if front.None? || results[|results| - 1].None? then None
      else Some(front.value + [results[|results| - 1].value])
  }

  /** `iter().map(f)`. */
  function Map<T, U>(s: seq<T>, f: T -> U): (r: seq<U>)
    ensures |r| == |s|
    ensures forall i :: 0 <= i < |s| ==> r[i] == f(s[i])
  {
    seq(|s|, i requires 0 <= i < |s| => f(s[i]))
  }

  /** `zip`, which stops with the shorter side. */
  function Zip<T, U>(a: seq<T>, b: seq<U>): (r: seq<(T, U)>)
    ensures |r| == if |a| <= |b| then |a| else |b|
    ensures forall i :: 0 <= i < |r| ==> r[i] == (a[i], b[i])
  {
    var n := if |a| <= |b| then |a| else |b|;
    seq(n, i requires 0 <= i < n => (a[i], b[i]))
  }

  datatype Settings = Settings(contract: Address, gas: uint64)

  function Prepare(s: Settings, gasPrice: uint256, data: Payload): Transaction {
    Transaction(s.contract, s.gas, gasPrice, 0, data, 0)
  }

  /* Deposits. */

  /** The order a home deposit log stands for; a log that cannot be parsed or was not mined ends the run. */
  function OrderOf(log: Log): Option<Foreign.Order> {
    if log.event.HomeDeposit? && log.transactionHash.Some? then
      Some(Foreign.Order(log.event.recipient, log.event.value, log.transactionHash.value))
    else None
  }

  function DepositBatch(s: Settings, gasPrice: uint64, logs: seq<Log>): (r: Option<seq<Transaction>>)
    ensures r.Some? ==> |r.value| == |logs|
  {
    match Collect(Map(logs, OrderOf))
    case None => None
    case Some(orders) => Some(Map(orders, order => Prepare(s, gasPrice, DepositCall(order))))
  }

  /* Withdraw confirmations. */

  function MessageOf(log: Log): Option<MessageToMainnet> {
    if log.event.ForeignWithdraw? && log.transactionHash.Some? then
      Some(MessageToMainnet(log.event.withdrawer, log.event.amount, log.transactionHash.value, log.event.homeGasPrice))
    else None
  }

  /** The keystore: a signature for a digest, or a signing error. */
  type Sign = Digest -> Option<Sig.Signature>

  /** The digest the relayer signs; integer formatting prints the shortest numeral. */
  function SignedDigest(message: seq<byte>): (d: Digest)
    ensures d == HashMessage(message)
  {
    EthDataHash(message, Decimal(|message|))
  }

  /** The second pass: every message signed, in order. */
  function SignAll(sign: Sign, messages: seq<seq<byte>>): (r: Option<seq<Sig.Signature>>)
    ensures r.Some? <==> forall i :: 0 <= i < |messages| ==> sign(HashMessage(messages[i])).Some?
    ensures r.Some? ==> |r.value| == |messages|
    ensures r.Some? ==> forall i :: 0 <= i < |messages| ==> sign(HashMessage(messages[i])) == Some(r.value[i])
  {
    assert forall i :: 0 <= i < |messages| ==> SignedDigest(messages[i]) == HashMessage(messages[i]);
    Collect(Map(messages, message => sign(SignedDigest(message))))
  }

  /** The messages are built and signed in two passes and paired again by position. */
  function ConfirmBatch(s: Settings, gasPrice: uint64, sign: Sign, logs: seq<Log>): (r: Option<seq<Transaction>>)
    ensures r.Some? ==> |r.value| == |logs|
  {
    var parsed := Collect(Map(logs, MessageOf));
    if parsed.None? then None
    else
      var messages := Map(parsed.value, Message.Encode);
      var signatures := SignAll(sign, messages);
      if signatures.None? then None
      else
        Some(Map(Zip(messages, signatures.value), (p: (seq<byte>, Sig.Signature)) =>
          Prepare(s, gasPrice, SubmitSignatureCall(Sig.Encode(p.1), p.0))))
  }

  /* Withdraw relays. */

  /** Calls of the views `message(hash)` and `signature(hash, index)`. */
  datatype Query = MessageQuery(hash: Digest) | SignatureQuery(hash: Digest, index: nat)

  /** The node's answer to a query, ABI-decoded; `None` when it cannot be decoded. */
  type Node = Query -> Option<seq<byte>>

  datatype Assignment = Assignment(signatures: seq<Query>, message: Query)

  const TWO_32: nat := 0x1_0000_0000

  function AssignmentFor(hash: Digest, count: uint256): Assignment {
    Assignment(seq(count % TWO_32, i requires 0 <= i < count % TWO_32 => SignatureQuery(hash, i)), MessageQuery(hash))
  }

  /** `signatures_payload`: nothing if another authority is responsible; `None` if the log cannot be parsed. */
  function SignaturesPayload(me: Address, log: Log): Option<Option<Assignment>> {
    if !log.event.SignaturesCollected? then None
    else if log.event.authority != me then Some(None)
    else Some(Some(AssignmentFor(log.event.messageHash, log.event.count)))
  }

  /** The logs this authority is responsible for. */
  function Own(me: Address, logs: seq<Log>): seq<Log> {
    if logs == [] then []
    else
      Own(me, logs[..|logs| - 1]) +
      (var log := logs[|logs| - 1]; if log.event.SignaturesCollected? && log.event.authority == me then [log] else [])
  }

  /** `filter_map(|a| a)` followed by `unzip`. */
  function Unzip(found: seq<Option<Assignment>>): (r: (seq<seq<Query>>, seq<Query>))
    ensures |r.0| == |r.1|
  {
    if found == [] then ([], [])
    else
      var front, last := Unzip(found[..|found| - 1]), found[|found| - 1];
      if last.None? then front else (front.0 + [last.value.signatures], front.1 + [last.value.message])
  }

  function Assignments(me: Address, logs: seq<Log>): Option<(seq<seq<Query>>, seq<Query>)> {
    match Collect(Map(logs, log => SignaturesPayload(me, log)))
    case None => None
    case Some(found) => Some(Unzip(found))
  }

  /** Where an answer belongs: the k-th message, or the j-th signature of the k-th message. */
  datatype Slot = MessageSlot(k: nat) | SignatureSlot(k: nat, j: nat)

  datatype Arrival = Arrival(slot: Slot, answer: Option<seq<byte>>)

  predicate IsSlot(calls: (seq<seq<Query>>, seq<Query>), slot: Slot) {
    match slot
    case MessageSlot(k) => k < |calls.1|
    case SignatureSlot(k, j) => k < |calls.0| && j < |calls.0[k]|
  }

  function Asked(calls: (seq<seq<Query>>, seq<Query>), slot: Slot): Query
    requires IsSlot(calls, slot)
  {
    match slot
    case MessageSlot(k) => calls.1[k]
    case SignatureSlot(k, j) => calls.0[k][j]
  }

  /** Answers as they arrive, in any order, each put in the place of the call it answers. */
  function Receive(arrivals: seq<Arrival>): map<Slot, Option<seq<byte>>> {
    if arrivals == [] then map[]
    else
      var m := Receive(arrivals[..|arrivals| - 1]);
      var last := arrivals[|arrivals| - 1];
      if last.slot in m then m else m[last.slot := last.answer]
  }

  /** `join_all` is ready when every call has been answered. */
  ghost predicate Complete(calls: (seq<seq<Query>>, seq<Query>), received: map<Slot, Option<seq<byte>>>) {
    forall slot :: IsSlot(calls, slot) ==> slot in received
  }

  /** Every arrival is the node's answer to the call in its slot. */
  ghost predicate Honest(node: Node, calls: (seq<seq<Query>>, seq<Query>), arrivals: seq<Arrival>) {
    forall i :: 0 <= i < |arrivals| ==>
      IsSlot(calls, arrivals[i].slot) && arrivals[i].answer == node(Asked(calls, arrivals[i].slot))
  }

  /** The two joined results, each in the order of its calls. */
  ghost function MessagesRaw(calls: (seq<seq<Query>>, seq<Query>), received: map<Slot, Option<seq<byte>>>):
    (r: seq<Option<seq<byte>>>)
    requires Complete(calls, received)
    ensures |r| == |calls.1|
    ensures forall k :: 0 <= k < |r| ==> IsSlot(calls, MessageSlot(k)) && r[k] == received[MessageSlot(k)]
  {
    assert forall k :: 0 <= k < |calls.1| ==> IsSlot(calls, MessageSlot(k));
    seq(|calls.1|, k requires 0 <= k < |calls.1| && MessageSlot(k) in received => received[MessageSlot(k)])
  }

  ghost function SignaturesRaw(calls: (seq<seq<Query>>, seq<Query>), received: map<Slot, Option<seq<byte>>>):
    (r: seq<seq<Option<seq<byte>>>>)
    requires Complete(calls, received)
    ensures |r| == |calls.0|
    ensures forall k :: 0 <= k < |r| ==> |r[k]| == |calls.0[k]|
    ensures forall k, j :: 0 <= k < |r| && 0 <= j < |r[k]| ==>
              IsSlot(calls, SignatureSlot(k, j)) && r[k][j] == received[SignatureSlot(k, j)]
  {
    assert forall k, j :: 0 <= k < |calls.0| && 0 <= j < |calls.0[k]| ==> IsSlot(calls, SignatureSlot(k, j));
    seq(|calls.0|, k requires 0 <= k < |calls.0| =>
      seq(|calls.0[k]|, j requires 0 <= j < |calls.0[k]| && SignatureSlot(k, j) in received =>
        received[SignatureSlot(k, j)]))
  }

  function SplitAll(raw: seq<Option<seq<byte>>>): Option<seq<Sig.Signature>> {
    Collect(Map(raw, (r: Option<seq<byte>>) => if r.None? then None else Sig.FromBytes(r.value)))
  }

  function PartsOf(sigs: seq<Sig.Signature>): Parts {
    Parts(Map(sigs, (x: Sig.Signature) => x.v), Map(sigs, (x: Sig.Signature) => x.r), Map(sigs, (x: Sig.Signature) => x.s))
  }

  /** The withdraw transaction for one message; a message of another length ends the process. */
  function WithdrawTransaction(s: Settings, message: seq<byte>, sigs: seq<Sig.Signature>): Option<Transaction> {
    match Decode(message)
    case None => None
    case Some(m) => Some(Prepare(s, m.mainnetGasPrice, WithdrawCall(PartsOf(sigs), message)))
  }

  /** The second half of `withdraw_relay`: decode both results, pair them by position, build the calls. */
  function RelayBatch(
    s: Settings, messagesRaw: seq<Option<seq<byte>>>, signaturesRaw: seq<seq<Option<seq<byte>>>>):
    (r: Option<seq<Transaction>>)
    ensures r.Some? && |messagesRaw| == |signaturesRaw| ==> |r.value| == |messagesRaw|
  {
    var messages, signatures := Collect(messagesRaw), Collect(Map(signaturesRaw, SplitAll));
    if messages.None? || signatures.None? then None
    else
      Collect(Map(Zip(messages.value, signatures.value), (p: (seq<byte>, seq<Sig.Signature>)) =>
        WithdrawTransaction(s, p.0, p.1)))
  }

  /* What the batches contain. */

  /** The transaction calls the configured contract with the configured gas limit and pays nothing. */
  predicate Addressed(s: Settings, tx: Transaction) {
    tx.to == s.contract && tx.gas == s.gas && tx.value == 0
  }

  /** The order is the one a mined home deposit log asks for, field by field. */
  predicate IsOrderOf(log: Log, order: Foreign.Order) {
    && log.event.HomeDeposit? && log.transactionHash.Some?
    && order.recipient == log.event.recipient
    && order.value == log.event.value
    && order.transactionHash == log.transactionHash.value
  }

  predicate ConfirmsDeposit(log: Log, tx: Transaction) {
    tx.data.DepositCall? && IsOrderOf(log, tx.data.order)
  }

  /**
   * The transaction submits the message of a mined withdraw log, as it decodes field by field, with a
   * signature of that very message's contract digest.
   */
  predicate ConfirmsWithdraw(sign: Sign, log: Log, tx: Transaction) {
    && log.event.ForeignWithdraw? && log.transactionHash.Some?
    && tx.data.SubmitSignatureCall?
    && Decode(tx.data.message).Some?
    && Decode(tx.data.message).value.recipient == log.event.withdrawer
    && Decode(tx.data.message).value.value == log.event.amount
    && Decode(tx.data.message).value.sidenetTransactionHash == log.transactionHash.value
    && Decode(tx.data.message).value.mainnetGasPrice == log.event.homeGasPrice
    && Sig.FromBytes(tx.data.signature).Some?
    && sign(HashMessage(tx.data.message)) == Sig.FromBytes(tx.data.signature)
  }

  /** One transaction per deposit, in order, each confirming the order of its log; unless a log is none. */
  lemma {:induction false} DepositBatchMatches(s: Settings, gasPrice: uint64, logs: seq<Log>)
    ensures var batch := DepositBatch(s, gasPrice, logs);
            && (batch.Some? <==> forall i :: 0 <= i < |logs| ==> logs[i].event.HomeDeposit? && logs[i].transactionHash.Some?)
            && (batch.Some? ==>
                  && |batch.value| == |logs|
                  && forall i :: 0 <= i < |logs| ==>
                       && Addressed(s, batch.value[i]) && batch.value[i].gasPrice == gasPrice
                       && ConfirmsDeposit(logs[i], batch.value[i]))
  {
    forall i | 0 <= i < |logs|
      ensures Map(logs, OrderOf)[i].Some? <==> logs[i].event.HomeDeposit? && logs[i].transactionHash.Some?
    {
    }
  }

  lemma {:induction false} MessageFields(log: Log)
    ensures MessageOf(log).Some? <==> log.event.ForeignWithdraw? && log.transactionHash.Some?
    ensures MessageOf(log).Some? ==>
              var message := Message.Encode(MessageOf(log).value);
              Decode(message) ==
              Some(MessageToMainnet(log.event.withdrawer, log.event.amount, log.transactionHash.value, log.event.homeGasPrice))
  {
    if MessageOf(log).Some? {
      DecodeEncode(MessageOf(log).value);
    }
  }

  /** A mined withdraw log whose message the keystore signs. */
  predicate Confirmable(sign: Sign, log: Log) {
    && log.event.ForeignWithdraw? && log.transactionHash.Some?
    && sign(HashMessage(Message.Encode(MessageToMainnet(
         log.event.withdrawer, log.event.amount, log.transactionHash.value, log.event.homeGasPrice)))).Some?
  }

  /**
   * One transaction per withdrawal, in order: it carries the message of its own log and a signature
   * of that message's contract digest. The batch is built exactly when every log is a withdrawal that
   * the keystore signs.
   */
  lemma {:induction false} ConfirmBatchPairs(s: Settings, gasPrice: uint64, sign: Sign, logs: seq<Log>)
    ensures var batch := ConfirmBatch(s, gasPrice, sign, logs);
            && (batch.Some? <==> forall i :: 0 <= i < |logs| ==> Confirmable(sign, logs[i]))
            && (batch.Some? ==>
                  && |batch.value| == |logs|
                  && forall i :: 0 <= i < |logs| ==>
                       && Addressed(s, batch.value[i]) && batch.value[i].gasPrice == gasPrice
                       && ConfirmsWithdraw(sign, logs[i], batch.value[i]))
  {
    ConfirmBatchIff(s, gasPrice, sign, logs);
    if ConfirmBatch(s, gasPrice, sign, logs).Some? {
      forall i | 0 <= i < |logs| ensures
          var tx := ConfirmBatch(s, gasPrice, sign, logs).value[i];
          Addressed(s, tx) && tx.gasPrice == gasPrice && ConfirmsWithdraw(sign, logs[i], tx)
      {
        ConfirmPair(s, gasPrice, sign, logs, i);
      }
    }
  }

  lemma {:induction false} ConfirmBatchIff(s: Settings, gasPrice: uint64, sign: Sign, logs: seq<Log>)
    ensures ConfirmBatch(s, gasPrice, sign, logs).Some? <==> forall i :: 0 <= i < |logs| ==> Confirmable(sign, logs[i])
  {
    var parsed := Map(logs, MessageOf);
    forall i | 0 <= i < |logs|
      ensures parsed[i].Some? <==> logs[i].event.ForeignWithdraw? && logs[i].transactionHash.Some?
    {
      MessageFields(logs[i]);
    }
    if Collect(parsed).Some? {
      var messages := Map(Collect(parsed).value, Message.Encode);
      forall i | 0 <= i < |logs| ensures sign(HashMessage(messages[i])).Some? <==> Confirmable(sign, logs[i]) {
        assert parsed[i] == MessageOf(logs[i]);
      }
    }
  }

  lemma {:induction false} ConfirmPair(s: Settings, gasPrice: uint64, sign: Sign, logs: seq<Log>, i: nat)
    requires ConfirmBatch(s, gasPrice, sign, logs).Some? && i < |logs|
    ensures var tx := ConfirmBatch(s, gasPrice, sign, logs).value[i];
            Addressed(s, tx) && tx.gasPrice == gasPrice && ConfirmsWithdraw(sign, logs[i], tx)
  {
    var messages := Map(Collect(Map(logs, MessageOf)).value, Message.Encode);
    var signatures := SignAll(sign, messages).value;
    assert Map(logs, MessageOf)[i].Some?;
    MessageFields(logs[i]);
    assert Zip(messages, signatures)[i] == (messages[i], signatures[i]);
    Sig.RoundTrip(signatures[i]);
  }

  /** The assignments are those of the validator's own logs, in order, with as many messages as signature lists. */
  lemma {:induction false} AssignmentsAreOwn(me: Address, logs: seq<Log>, found: seq<Option<Assignment>>)
    requires |found| == |logs|
    requires forall i :: 0 <= i < |logs| ==> SignaturesPayload(me, logs[i]) == Some(found[i])
    ensures var (signatures, messages) := Unzip(found);
            var own := Own(me, logs);
            && |messages| == |own| && |signatures| == |own|
            && forall k :: 0 <= k < |own| ==>
                 && own[k].event.SignaturesCollected?
                 && Assignment(signatures[k], messages[k]) == AssignmentFor(own[k].event.messageHash, own[k].event.count)
    decreases |logs|
  {
    if logs != [] {
      var n := |logs| - 1;
      AssignmentsAreOwn(me, logs[..n], found[..n]);
      assert SignaturesPayload(me, logs[n]) == Some(found[n]);
    }
  }

  /** Whatever the order of arrival, every answer ends up in the slot of the call it answers. */
  lemma {:induction false} ArrivalOrderIrrelevant(
    node: Node, calls: (seq<seq<Query>>, seq<Query>), arrivals: seq<Arrival>)
    requires Honest(node, calls, arrivals)
    ensures forall slot :: slot in Receive(arrivals) ==>
              IsSlot(calls, slot) && Receive(arrivals)[slot] == node(Asked(calls, slot))
    decreases |arrivals|
  {
    if arrivals != [] {
      ArrivalOrderIrrelevant(node, calls, arrivals[..|arrivals| - 1]);
    }
  }

  /** The message and signatures stored under one hash, in a transaction to the home bridge. */
  ghost predicate Carries(node: Node, tx: Transaction, hash: Digest, n: nat) {
    && tx.data.WithdrawCall?
    && node(MessageQuery(hash)) == Some(tx.data.message)
    && |tx.data.parts.vs| == n && |tx.data.parts.rs| == n && |tx.data.parts.ss| == n
    && (forall j :: 0 <= j < n ==>
          && node(SignatureQuery(hash, j)).Some?
          && Sig.FromBytes(node(SignatureQuery(hash, j)).value) ==
             Some(Sig.Signature(tx.data.parts.vs[j], tx.data.parts.rs[j], tx.data.parts.ss[j])))
    && Decode(tx.data.message).Some? && tx.gasPrice == Decode(tx.data.message).value.mainnetGasPrice
  }

  /** Joined answers are the node's to the calls for these logs, one per call and in their order. */
  ghost predicate AnswersFor(
    node: Node, logs: seq<Log>, messagesRaw: seq<Option<seq<byte>>>, signaturesRaw: seq<seq<Option<seq<byte>>>>)
  {
    && |messagesRaw| == |logs| && |signaturesRaw| == |logs|
    && forall k :: 0 <= k < |logs| && logs[k].event.SignaturesCollected? ==>
         && messagesRaw[k] == node(MessageQuery(logs[k].event.messageHash))
         && |signaturesRaw[k]| == logs[k].event.count % TWO_32
         && forall j :: 0 <= j < |signaturesRaw[k]| ==>
              signaturesRaw[k][j] == node(SignatureQuery(logs[k].event.messageHash, j))
  }

  /**
   * For any mix of own and foreign logs and any order of arrival: the length assertion holds, and the
   * k-th transaction carries the message and all signatures of the k-th own log, at the gas price the
   * message names.
   */
  lemma {:induction false} RelayBatchPairs(s: Settings, me: Address, logs: seq<Log>, node: Node, arrivals: seq<Arrival>)
    requires Assignments(me, logs).Some?
    requires Honest(node, Assignments(me, logs).value, arrivals)
    requires Complete(Assignments(me, logs).value, Receive(arrivals))
    ensures var calls, received := Assignments(me, logs).value, Receive(arrivals);
            |MessagesRaw(calls, received)| == |SignaturesRaw(calls, received)| == |Own(me, logs)|
    ensures var calls, received := Assignments(me, logs).value, Receive(arrivals);
            var batch := RelayBatch(s, MessagesRaw(calls, received), SignaturesRaw(calls, received));
            batch.Some? ==>
              && |batch.value| == |Own(me, logs)|
              && forall k :: 0 <= k < |batch.value| ==>
                   var log := Own(me, logs)[k];
                   && log.event.SignaturesCollected? && Addressed(s, batch.value[k])
                   && Carries(node, batch.value[k], log.event.messageHash, log.event.count % TWO_32)
  {
    var calls, received := Assignments(me, logs).value, Receive(arrivals);
    var messagesRaw, signaturesRaw := MessagesRaw(calls, received), SignaturesRaw(calls, received);
    ReceivedAnswers(me, logs, node, arrivals);
    var own := Own(me, logs);
    if RelayBatch(s, messagesRaw, signaturesRaw).Some? {
      forall k | 0 <= k < |own|
        ensures Addressed(s, RelayBatch(s, messagesRaw, signaturesRaw).value[k])
        ensures Carries(node, RelayBatch(s, messagesRaw, signaturesRaw).value[k], own[k].event.messageHash,
                        own[k].event.count % TWO_32)
      {
        RelayCarries(s, node, messagesRaw, signaturesRaw, k, own[k].event.messageHash, own[k].event.count);
      }
    }
  }

  /** Whatever the order of arrival, what is joined are the node's answers for the own logs. */
  lemma {:induction false} ReceivedAnswers(me: Address, logs: seq<Log>, node: Node, arrivals: seq<Arrival>)
    requires Assignments(me, logs).Some?
    requires Honest(node, Assignments(me, logs).value, arrivals)
    requires Complete(Assignments(me, logs).value, Receive(arrivals))
    ensures var calls, received := Assignments(me, logs).value, Receive(arrivals);
            AnswersFor(node, Own(me, logs), MessagesRaw(calls, received), SignaturesRaw(calls, received))
    ensures forall k :: 0 <= k < |Own(me, logs)| ==> Own(me, logs)[k].event.SignaturesCollected?
  {
    var found := Collect(Map(logs, log => SignaturesPayload(me, log))).value;
    AssignmentsAreOwn(me, logs, found);
    ArrivalOrderIrrelevant(node, Assignments(me, logs).value, arrivals);
  }

  /** A withdraw batch can be built exactly from messages of 116 octets and signatures of 65. */
  lemma {:induction false} RelayBatchIff(
    s: Settings, messagesRaw: seq<Option<seq<byte>>>, signaturesRaw: seq<seq<Option<seq<byte>>>>)
    requires |messagesRaw| == |signaturesRaw|
    ensures RelayBatch(s, messagesRaw, signaturesRaw).Some? <==>
            forall k :: 0 <= k < |messagesRaw| ==>
              && messagesRaw[k].Some? && |messagesRaw[k].value| == 116
              && forall j :: 0 <= j < |signaturesRaw[k]| ==> signaturesRaw[k][j].Some? && |signaturesRaw[k][j].value| == 65
  {
    forall k | 0 <= k < |signaturesRaw|
      ensures SplitAll(signaturesRaw[k]).Some? <==>
              forall j :: 0 <= j < |signaturesRaw[k]| ==> signaturesRaw[k][j].Some? && |signaturesRaw[k][j].value| == 65
    {
      SplitAllIff(signaturesRaw[k]);
    }
    var messages, signatures := Collect(messagesRaw), Collect(Map(signaturesRaw, SplitAll));
    assert forall k :: 0 <= k < |signaturesRaw| ==> Map(signaturesRaw, SplitAll)[k] == SplitAll(signaturesRaw[k]);
    if messages.Some? && signatures.Some? {
      var built := Map(Zip(messages.value, signatures.value), (p: (seq<byte>, seq<Sig.Signature>)) => WithdrawTransaction(s, p.0, p.1));
      forall k | 0 <= k < |messagesRaw| ensures built[k].Some? <==> |messagesRaw[k].value| == 116 {
        assert Zip(messages.value, signatures.value)[k] == (messages.value[k], signatures.value[k]);
      }
    }
  }

  lemma {:induction false} SplitAllIff(raw: seq<Option<seq<byte>>>)
    ensures SplitAll(raw).Some? <==> forall j :: 0 <= j < |raw| ==> raw[j].Some? && |raw[j].value| == 65
  {
    var split := Map(raw, (r: Option<seq<byte>>) => if r.None? then None else Sig.FromBytes(r.value));
    forall j | 0 <= j < |raw| ensures split[j].Some? <==> raw[j].Some? && |raw[j].value| == 65 {
    }
  }

  /** The logs can be assigned exactly when all of them are announcements of collected signatures. */
  lemma {:induction false} AssignmentsIff(me: Address, logs: seq<Log>)
    ensures Assignments(me, logs).Some? <==> forall i :: 0 <= i < |logs| ==> logs[i].event.SignaturesCollected?
  {
    var found := Map(logs, log => SignaturesPayload(me, log));
    forall i | 0 <= i < |logs| ensures found[i].Some? <==> logs[i].event.SignaturesCollected? {
    }
  }

  lemma {:induction false} RelayCarries(
    s: Settings, node: Node, messagesRaw: seq<Option<seq<byte>>>, signaturesRaw: seq<seq<Option<seq<byte>>>>,
    k: nat, hash: Digest, count: uint256)
    requires |messagesRaw| == |signaturesRaw| && k < |messagesRaw|
    requires RelayBatch(s, messagesRaw, signaturesRaw).Some?
    requires messagesRaw[k] == node(MessageQuery(hash))
    requires |signaturesRaw[k]| == count % TWO_32
    requires forall j :: 0 <= j < |signaturesRaw[k]| ==> signaturesRaw[k][j] == node(SignatureQuery(hash, j))
    ensures |RelayBatch(s, messagesRaw, signaturesRaw).value| == |messagesRaw|
    ensures Addressed(s, RelayBatch(s, messagesRaw, signaturesRaw).value[k])
    ensures Carries(node, RelayBatch(s, messagesRaw, signaturesRaw).value[k], hash, count % TWO_32)
  {
    var messages, signatures := Collect(messagesRaw).value, Collect(Map(signaturesRaw, SplitAll)).value;
    var tx := RelayBatch(s, messagesRaw, signaturesRaw).value[k];
    assert Some(tx) == WithdrawTransaction(s, messages[k], signatures[k]);
    assert Some(signatures[k]) == SplitAll(signaturesRaw[k]);
    SplitCarries(signaturesRaw[k], signatures[k]);
  }

  lemma {:induction false} SplitCarries(raw: seq<Option<seq<byte>>>, sigs: seq<Sig.Signature>)
    requires SplitAll(raw) == Some(sigs)
    ensures var parts := PartsOf(sigs);
            && |parts.vs| == |raw| && |parts.rs| == |raw| && |parts.ss| == |raw|
            && forall j :: 0 <= j < |raw| ==>
                 raw[j].Some? && Sig.FromBytes(raw[j].value) == Some(Sig.Signature(parts.vs[j], parts.rs[j], parts.ss[j]))
  {
  }
}
