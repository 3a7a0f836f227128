/** From a withdrawal on the foreign chain to its payment on the home chain. */
module EndToEnd {
  import opened Wrappers
  import opened Bytes
  import opened Evm
  import opened SignatureCheck
  import opened Signing
  import opened Message
  import opened Payloads
  import Sig = Signature
  import F = Foreign
  import H = Home
  import B = Batches
  import N = Nonce
  import P = Pipeline

  /** The foreign node answers queries with the views of the contract. */
  ghost predicate Serves(node: B.Node, s: F.State) {
    && (forall hash :: node(B.MessageQuery(hash)) == Some(F.MessageView(s, hash)))
    && (forall hash, j: nat :: node(B.SignatureQuery(hash, j)) == F.SignatureView(s, hash, j))
  }

  /** The collection under `hash` was announced by the contract. */
  predicate Collected(s: F.State, hash: Digest) {
    F.Announcements(s.events, hash) > 0
  }

  /** One validator set and one threshold throughout the run. */
  ghost predicate Constant(run: seq<F.Transaction>, auth: Authority) {
    forall i :: 0 <= i < |run| ==> run[i].authority == auth
  }

  /** What the contract holds for the message and signatures a relayed transaction carries. */
  lemma {:induction false} CarriedIsHeld(rec: Recover, s: F.State, hash: Digest, node: B.Node, tx: N.Transaction, n: nat)
    requires F.AllSound(rec, s) && Serves(node, s) && B.Carries(node, tx, hash, n)
    ensures hash in s.signatures && F.Sound(rec, hash, s.signatures[hash]) && n <= |F.SignersOf(s, hash)|
    ensures tx.data.message == s.signatures[hash].message && |tx.data.message| == MESSAGE_LENGTH
    ensures tx.data.parts.Complete() == n
  {
    assert node(B.MessageQuery(hash)) == Some(F.MessageView(s, hash));
    if n > 0 {
      assert node(B.SignatureQuery(hash, n - 1)) == F.SignatureView(s, hash, n - 1);
    }
  }

  /** A relayed signature recovers, on the signed digest, the validator that submitted it. */
  lemma {:induction false} RelayedSignersAreCollected(
    rec: Recover, s: F.State, hash: Digest, node: B.Node, tx: N.Transaction, n: nat)
    requires F.AllSound(rec, s) && Serves(node, s) && B.Carries(node, tx, hash, n)
    ensures n <= |F.SignersOf(s, hash)| && tx.data.parts.Complete() == n
    ensures Recovered(rec, HashMessage(tx.data.message), tx.data.parts, n) == F.SignersOf(s, hash)[..n]
  {
    CarriedIsHeld(rec, s, hash, node, tx, n);
    var c, parts := s.signatures[hash], tx.data.parts;
    var signers := Recovered(rec, HashMessage(c.message), parts, n);
    forall j | 0 <= j < n ensures signers[j] == c.signed[..n][j] {
      assert F.SignatureView(s, hash, j) == Some(c.signatures[j]);
      assert node(B.SignatureQuery(hash, j)) == Some(c.signatures[j]);
      Sig.SplitsAgree(c.signatures[j], []);
      assert RecoverSigner(rec, c.signatures[j], c.message) == Some(c.signed[j]);
    }
  }

  /**
   * For every run of the foreign bridge, whatever its validators and its threshold were: the home bridge,
   * with whatever validators and threshold it has, accepts the relayed message and signatures exactly
   * when enough of them are relayed and the first ones come from validators of the home bridge. Both
   * forms of its check agree.
   */
  lemma {:induction false} RelayedQuorumIff(
    rec: Recover, bridge: Address, run: seq<F.Transaction>, hash: Digest, node: B.Node, tx: N.Transaction, n: nat, home: Authority)
    requires Serves(node, F.Run(rec, F.Deployed(bridge), run)) && B.Carries(node, tx, hash, n)
    ensures var signers := F.SignersOf(F.Run(rec, F.Deployed(bridge), run), hash);
            var accepted := ContractVerdict(rec, tx.data.message, tx.data.parts, home.active, home.required);
            && n <= |signers|
            && (accepted <==>
                  home.required <= n && forall i :: 0 <= i < home.required ==> signers[i] in home.active && signers[i] != 0)
            && (accepted <==>
                  ListVerdict(rec, tx.data.message, tx.data.parts, home.active, home.required) == Returned(true))
  {
    var s := F.Run(rec, F.Deployed(bridge), run);
    F.RunKeepsSound(rec, F.Deployed(bridge), run, hash);
    CarriedIsHeld(rec, s, hash, node, tx, n);
    RelayedSignersAreCollected(rec, s, hash, node, tx, n);
    HardCodedDigestAgrees(tx.data.message);
    if home.required <= n {
      FirstSigners(rec, HashMessage(tx.data.message), tx.data.parts, F.SignersOf(s, hash), n, home);
    }
  }

  lemma {:induction false} FirstSigners(rec: Recover, digest: Digest, parts: Parts, signers: seq<Address>, n: nat, home: Authority)
    requires n <= parts.Complete() && n <= |signers| && home.required <= n && Distinct(signers)
    requires Recovered(rec, digest, parts, n) == signers[..n]
    ensures Quorum(Recovered(rec, digest, parts, home.required), home.active) <==>
            forall i :: 0 <= i < home.required ==> signers[i] in home.active && signers[i] != 0
  {
    var first := Recovered(rec, digest, parts, home.required);
    forall i | 0 <= i < home.required ensures first[i] == signers[i] {
      assert Recovered(rec, digest, parts, n)[i] == signers[..n][i];
    }
  }

  /** With one validator set, every signer is one of it. */
  lemma {:induction false} SignersAreValidators(rec: Recover, bridge: Address, run: seq<F.Transaction>, auth: Authority, hash: Digest)
    requires Constant(run, auth)
    ensures var s := F.Run(rec, F.Deployed(bridge), run);
            && F.AllSound(rec, s)
            && (forall a :: a in F.SignersOf(s, hash) ==> a in auth.active)
            && (Collected(s, hash) ==> auth.required <= |F.SignersOf(s, hash)|)
  {
    F.RunKeepsSound(rec, F.Deployed(bridge), run, hash);
    var s := F.Run(rec, F.Deployed(bridge), run);
    forall a | a in F.SignersOf(s, hash) ensures a in auth.active {
      assert F.SignedIn(run, a, hash);
    }
  }

  /**
   * Collect implies withdraw. With one unchanged validator set without the zero address and one
   * threshold on both chains: once the foreign bridge has announced a collection, everything the relayer
   * asks for is there; and if the message has 116 octets, what it then relays passes the home bridge's
   * quorum check, in both of its forms.
   */
  lemma {:induction false} CollectImpliesWithdraw(
    rec: Recover, bridge: Address, run: seq<F.Transaction>, auth: Authority, hash: Digest, node: B.Node)
    requires Constant(run, auth) && 0 !in auth.active
    requires Collected(F.Run(rec, F.Deployed(bridge), run), hash) && Serves(node, F.Run(rec, F.Deployed(bridge), run))
    ensures node(B.MessageQuery(hash)).Some?
    ensures forall j :: 0 <= j < auth.required ==>
              node(B.SignatureQuery(hash, j)).Some? && Sig.FromBytes(node(B.SignatureQuery(hash, j)).value).Some?
    ensures forall tx :: B.Carries(node, tx, hash, auth.required) ==>
              && ContractVerdict(rec, tx.data.message, tx.data.parts, auth.active, auth.required)
              && ListVerdict(rec, tx.data.message, tx.data.parts, auth.active, auth.required) == Returned(true)
  {
    SignersAreValidators(rec, bridge, run, auth, hash);
    CollectedIsHeld(rec, F.Run(rec, F.Deployed(bridge), run), hash, node, auth.required);
    forall tx | B.Carries(node, tx, hash, auth.required)
      ensures ContractVerdict(rec, tx.data.message, tx.data.parts, auth.active, auth.required)
      ensures ListVerdict(rec, tx.data.message, tx.data.parts, auth.active, auth.required) == Returned(true)
    {
      RelayedQuorumIff(rec, bridge, run, hash, node, tx, auth.required, auth);
    }
  }

  /** Held signatures can be fetched, and they have 65 octets. */
  lemma {:induction false} CollectedIsHeld(rec: Recover, s: F.State, hash: Digest, node: B.Node, n: nat)
    requires F.AllSound(rec, s) && Serves(node, s) && n <= |F.SignersOf(s, hash)|
    ensures node(B.MessageQuery(hash)).Some?
    ensures forall j :: 0 <= j < n ==>
              node(B.SignatureQuery(hash, j)).Some? && Sig.FromBytes(node(B.SignatureQuery(hash, j)).value).Some?
  {
    assert node(B.MessageQuery(hash)) == Some(F.MessageView(s, hash));
    forall j | 0 <= j < n
      ensures node(B.SignatureQuery(hash, j)).Some? && Sig.FromBytes(node(B.SignatureQuery(hash, j)).value).Some?
    {
      var c := s.signatures[hash];
      assert F.Sound(rec, hash, c);
      assert node(B.SignatureQuery(hash, j)) == F.SignatureView(s, hash, j) == Some(c.signatures[j]);
      assert RecoverSigner(rec, c.signatures[j], c.message) == Some(c.signed[j]);
    }
  }

  /**
   * From the process to the contract: in every reachable state of the relayer, if the foreign node serves
   * what the foreign bridge holds, every withdraw transaction the home node has taken for a log that
   * counts the threshold passes the home bridge's quorum check.
   */
  lemma {:induction false} TakenWithdrawsPass(
    rec: Recover, bridge: Address, run: seq<F.Transaction>, auth: Authority, v: P.View, s: P.System, d: P.Done)
    requires Constant(run, auth) && 0 !in auth.active && auth.required < B.TWO_32
    requires Serves(v.node, F.Run(rec, F.Deployed(bridge), run)) && P.Reachable(v, s)
    ensures d in s.handled && d.kind.Relays? && d.log.event.SignaturesCollected? && d.log.event.count == auth.required ==>
              var tx := d.transaction;
              && tx.data.WithdrawCall?
              && ContractVerdict(rec, tx.data.message, tx.data.parts, auth.active, auth.required)
              && ListVerdict(rec, tx.data.message, tx.data.parts, auth.active, auth.required) == Returned(true)
  {
    if d in s.handled && d.kind.Relays? && d.log.event.SignaturesCollected? && d.log.event.count == auth.required {
      P.TakenWithdrawCarries(v, s, d);
      CarriedPasses(rec, bridge, run, auth, v.node, d.transaction, d.log.event.messageHash);
    }
  }

  lemma {:induction false} CarriedPasses(
    rec: Recover, bridge: Address, run: seq<F.Transaction>, auth: Authority, node: B.Node, tx: N.Transaction, hash: Digest)
    requires Constant(run, auth) && 0 !in auth.active
    requires Serves(node, F.Run(rec, F.Deployed(bridge), run)) && B.Carries(node, tx, hash, auth.required)
    ensures ContractVerdict(rec, tx.data.message, tx.data.parts, auth.active, auth.required)
    ensures ListVerdict(rec, tx.data.message, tx.data.parts, auth.active, auth.required) == Returned(true)
    ensures Decode(tx.data.message).Some? && |tx.data.message| == MESSAGE_LENGTH
  {
    SignersAreValidators(rec, bridge, run, auth, hash);
    RelayedQuorumIff(rec, bridge, run, hash, node, tx, auth.required, auth);
  }

  /** The relayed transaction, as the home bridge receives it. */
  function RequestOf(sender: Address, tx: N.Transaction, after: seq<byte>, answers: Option<Authority>): H.Request
    requires tx.data.WithdrawCall?
  {
    H.Request(sender, tx.gasPrice, tx.data.parts, tx.data.message, after, answers)
  }

  /**
   * The gas price the relayer sends at always satisfies the guard of the charging form, whoever sends
   * the transaction.
   */
  lemma {:induction false} RelayedGasPriceAccepted(
    node: B.Node, tx: N.Transaction, hash: Digest, n: nat, sender: Address, after: seq<byte>, answers: Option<Authority>)
    requires B.Carries(node, tx, hash, n)
    ensures var q := RequestOf(sender, tx, after, answers); q.gasPrice == q.HomeGasPrice()
  {
    GettersAgree(tx.data.message, after);
  }

  /**
   * The relayed transaction, executed on a home bridge of the plain form whose balance covers it and that
   * has not paid this foreign transaction yet, pays the recipient named in the message exactly the
   * value named there.
   */
  lemma {:induction false} RelayedWithdrawPays(
    rec: Recover, bridge: Address, run: seq<F.Transaction>, auth: Authority, hash: Digest, node: B.Node, tx: N.Transaction,
    self: Address, h: H.State, sender: Address, after: seq<byte>)
    requires Constant(run, auth) && 0 !in auth.active
    requires Serves(node, F.Run(rec, F.Deployed(bridge), run)) && B.Carries(node, tx, hash, auth.required)
    requires var m := Decode(tx.data.message).value;
             AddressOf(m.recipient) != self && m.sidenetTransactionHash !in h.withdraws && m.value <= h.balance
    ensures var m := Decode(tx.data.message).value;
            var q := RequestOf(sender, tx, after, Some(auth));
            var end := H.Exec(rec, H.Terms(self, H.Plain), h, H.Withdraw(q, H.QUIET, H.QUIET));
            && end.Some?
            && end.value.payouts == h.payouts + [H.Payout(AddressOf(m.recipient), m.value)]
            && end.value.balance == h.balance - m.value
            && end.value.withdraws == h.withdraws + {m.sidenetTransactionHash}
  {
    CarriedPasses(rec, bridge, run, auth, node, tx, hash);
    GettersAgree(tx.data.message, after);
    PlainPays(rec, H.Terms(self, H.Plain), h, RequestOf(sender, tx, after, Some(auth)));
  }

  /**
   * From the log to the payment: `confirm` is what a validator submits for a withdraw log, and `tx` what is
   * relayed for the collection of that very message. Executed on a home bridge of the plain form, it pays
   * the withdrawer of the log the amount of the log, and marks the transaction the log is from.
   */
  lemma {:induction false} WithdrawalReachesRecipient(
    rec: Recover, bridge: Address, run: seq<F.Transaction>, auth: Authority, sign: B.Sign, log: Log, confirm: N.Transaction,
    node: B.Node, tx: N.Transaction, self: Address, h: H.State, sender: Address, after: seq<byte>)
    requires Constant(run, auth) && 0 !in auth.active && Serves(node, F.Run(rec, F.Deployed(bridge), run))
    requires B.ConfirmsWithdraw(sign, log, confirm) && B.Carries(node, tx, Keccak(confirm.data.message), auth.required)
    requires AddressOf(log.event.withdrawer) != self && log.transactionHash.value !in h.withdraws
    requires log.event.amount <= h.balance
    ensures var q := RequestOf(sender, tx, after, Some(auth));
            var end := H.Exec(rec, H.Terms(self, H.Plain), h, H.Withdraw(q, H.QUIET, H.QUIET));
            && end.Some?
            && end.value.payouts == h.payouts + [H.Payout(AddressOf(log.event.withdrawer), log.event.amount)]
            && end.value.balance == h.balance - log.event.amount
            && end.value.withdraws == h.withdraws + {log.transactionHash.value}
  {
    var hash := Keccak(confirm.data.message);
    SignersAreValidators(rec, bridge, run, auth, hash);
    CarriedIsHeld(rec, F.Run(rec, F.Deployed(bridge), run), hash, node, tx, auth.required);
    assert tx.data.message == confirm.data.message;
    RelayedWithdrawPays(rec, bridge, run, auth, hash, node, tx, self, h, sender, after);
  }

  lemma {:induction false} PlainPays(rec: Recover, terms: H.Terms, h: H.State, q: H.Request)
    requires terms.form.Plain? && H.Authorised(rec, terms, q)
    requires q.Recipient() != terms.self && q.Hash() !in h.withdraws && q.Value() <= h.balance
    ensures var end := H.Exec(rec, terms, h, H.Withdraw(q, H.QUIET, H.QUIET));
            && end.Some? && end.value.balance == h.balance - q.Value()
            && end.value.payouts == h.payouts + [H.Payout(q.Recipient(), q.Value())]
            && end.value.withdraws == h.withdraws + {q.Hash()}
  {
    H.PayQuietly(rec, terms, h.(withdraws := h.withdraws + {q.Hash()}), H.ToRecipient(terms.form, q));
  }

  /**
   * On a home bridge of the charging form it goes through exactly when the value covers the relay cost and
   * the balance covers the value; the recipient then gets the value less the cost and the sender the
   * cost.
   */
  lemma {:induction false} RelayedChargingWithdrawPays(
    rec: Recover, bridge: Address, run: seq<F.Transaction>, auth: Authority, hash: Digest, node: B.Node, tx: N.Transaction,
    self: Address, gas: uint256, h: H.State, sender: Address, after: seq<byte>)
    requires Constant(run, auth) && 0 !in auth.active
    requires Serves(node, F.Run(rec, F.Deployed(bridge), run)) && B.Carries(node, tx, hash, auth.required)
    requires var m := Decode(tx.data.message).value;
             AddressOf(m.recipient) != self && m.sidenetTransactionHash !in h.withdraws && h.balance < TWO_256
    ensures var m := Decode(tx.data.message).value;
            var cost := gas * m.mainnetGasPrice % TWO_256;
            var form := H.Charging(gas, auth);
            var q := RequestOf(sender, tx, after, None);
            var end := H.Exec(rec, H.Terms(self, form), h, H.Withdraw(q, H.QUIET, H.QUIET));
            && (end.Some? <==> cost <= m.value <= h.balance)
            && (end.Some? ==>
                  && end.value.payouts ==
                     h.payouts + [H.Payout(AddressOf(m.recipient), m.value - cost), H.Payout(sender, cost)]
                  && end.value.withdraws == h.withdraws + {m.sidenetTransactionHash})
  {
    var q := RequestOf(sender, tx, after, None);
    CarriedAuthorised(rec, bridge, run, auth, hash, node, tx, H.Terms(self, H.Charging(gas, auth)), q);
    ChargingPaysMessage(rec, self, gas, auth, h, q, Decode(tx.data.message).value);
  }

  lemma {:induction false} CarriedAuthorised(
    rec: Recover, bridge: Address, run: seq<F.Transaction>, auth: Authority, hash: Digest, node: B.Node, tx: N.Transaction,
    terms: H.Terms, q: H.Request)
    requires Constant(run, auth) && 0 !in auth.active
    requires Serves(node, F.Run(rec, F.Deployed(bridge), run)) && B.Carries(node, tx, hash, auth.required)
    requires terms.form.Charging? && terms.form.authorities == auth
    requires q == RequestOf(q.sender, tx, q.after, None)
    ensures H.Authorised(rec, terms, q)
    ensures var m := Decode(tx.data.message).value;
            && q.Recipient() == AddressOf(m.recipient) && q.Value() == m.value
            && q.Hash() == m.sidenetTransactionHash && q.HomeGasPrice() == m.mainnetGasPrice
  {
    CarriedPasses(rec, bridge, run, auth, node, tx, hash);
    GettersAgree(tx.data.message, q.after);
  }

  lemma {:induction false} ChargingPaysMessage(
    rec: Recover, self: Address, gas: uint256, auth: Authority, h: H.State, q: H.Request, m: MessageToMainnet)
    requires H.Authorised(rec, H.Terms(self, H.Charging(gas, auth)), q)
    requires q.Recipient() == AddressOf(m.recipient) && q.Value() == m.value
    requires q.Hash() == m.sidenetTransactionHash && q.HomeGasPrice() == m.mainnetGasPrice
    requires AddressOf(m.recipient) != self && m.sidenetTransactionHash !in h.withdraws && h.balance < TWO_256
    ensures var cost := gas * m.mainnetGasPrice % TWO_256;
            var end := H.Exec(rec, H.Terms(self, H.Charging(gas, auth)), h, H.Withdraw(q, H.QUIET, H.QUIET));
            && (end.Some? <==> cost <= m.value <= h.balance)
            && (end.Some? ==>
                  && end.value.payouts ==
                     h.payouts + [H.Payout(AddressOf(m.recipient), m.value - cost), H.Payout(q.sender, cost)]
                  && end.value.withdraws == h.withdraws + {m.sidenetTransactionHash})
  {
    var terms := H.Terms(self, H.Charging(gas, auth));
    CostAtPrice(gas, q, m.mainnetGasPrice);
    H.ChargingCompletesIff(rec, terms, h, q);
    H.ChargingPays(rec, terms, h, q);
  }

  lemma {:induction false} CostAtPrice(gas: uint256, q: H.Request, price: uint256)
    requires q.HomeGasPrice() == price
    ensures H.Cost(gas, q) == gas * price % TWO_256
  {
  }

  /**
   * The length matters: for every message of another length there is an account whose signature the
   * foreign bridge collects and the home bridge refuses, because it checks the digest of another length.
   */
  lemma {:induction false} OtherLengthIsStuck(bridge: Address, message: seq<byte>, signature: seq<byte>)
    requires |message| != 116 && |signature| == 65
    ensures var rec: Recover := (d, v, r, s) => if d == HashMessage(message) then 1 else 0;
            var s := F.Submit(rec, F.Deployed(bridge), 1, Authority({1}, 1), signature, message);
            && s.Some? && Collected(s.value, Keccak(message))
            && forall parts :: !ContractVerdict(rec, message, parts, {1}, 1)
  {
    var rec: Recover := (d, v, r, s) => if d == HashMessage(message) then 1 else 0;
    F.StepCollects(rec, F.Deployed(bridge), F.Transaction(1, Authority({1}, 1), F.SubmitSignature(signature, message)), Keccak(message));
    HardCodedDigestAgrees(message);
    forall parts ensures !ContractVerdict(rec, message, parts, {1}, 1) {
      if 1 <= parts.Complete() {
        assert Recovered(rec, HashMessage116(message), parts, 1)[0] == 0;
      }
    }
  }
}
