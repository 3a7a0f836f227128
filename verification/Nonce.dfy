/** Sending transactions from one account with a shared nonce, `NonceCheck` (bridge/src/bridge/nonce.rs). */
module Nonce {
  import opened Wrappers
  import opened Bytes
  import opened Evm
  import opened SignatureCheck
  import opened Payloads

  datatype Transaction = Transaction(
    to: Address, gas: uint256, gasPrice: uint256, value: uint256, data: Payload, nonce: uint256)

  datatype Phase =
    | Start
    | Reacquire
    | NonceRequest
    | NonceKnown(nonce: uint256)
    | TransactionRequest
    | Sent
    | Aborted

  datatype Sender = Sender(phase: Phase, transaction: Transaction)

  /** Answers of the node; `NonceTooLow` and `AlreadyImported` are its two special refusals. */
  datatype Answer =
    | Silence
    | TransactionCount(count: uint256)
    | Accepted
    | NonceTooLow
    | AlreadyImported
    | Error
    | SigningFailed

  function Next(nonce: uint256): uint256 {
    if nonce + 1 == TWO_256 then 0 else nonce + 1
  }

  function Begin(tx: Transaction): Sender {
    Sender(Start, tx)
  }

  function Rank(phase: Phase): nat {
    match phase
    case Start => 2
    case Reacquire => 2
    case NonceKnown(_) => 1
    case _ => 0
  }

  /**
   * One call of `poll` with the shared nonce in `cell`, answered by `env`. `Sent` is a transaction
   * accepted or reported already imported; `Aborted` is any other error.
   */
  function PollSender(s: Sender, cell: uint256, env: seq<Answer>): (Sender, uint256)
    decreases |env|, Rank(s.phase)
  {
    match s.phase
    case Start => PollSender(s.(phase := NonceKnown(cell)), Next(cell), env)
    case Reacquire => PollSender(s.(phase := NonceRequest), cell, env)
    case NonceKnown(n) =>
      if env != [] && env[0].SigningFailed? then (Sender(Aborted, s.transaction.(nonce := n)), cell)
      else PollSender(Sender(TransactionRequest, s.transaction.(nonce := n)), cell, env)
    case NonceRequest =>
      if env == [] || env[0].Silence? then (s, cell)
      else if env[0].TransactionCount? then PollSender(s.(phase := NonceKnown(env[0].count)), env[0].count, env[1..])
      else (s.(phase := Aborted), cell)
    case TransactionRequest =>
      if env == [] || env[0].Silence? then (s, cell)
      else if env[0].Accepted? || env[0].AlreadyImported? then (s.(phase := Sent), cell)
      else if env[0].NonceTooLow? then PollSender(s.(phase := Reacquire), cell, env[1..])
      else (s.(phase := Aborted), cell)
    case Sent => (s, cell)
    case Aborted => (s, cell)
  }

  /** The nonce shared by every sender of an account. */
  class NonceCell {
    var nonce: uint256

    constructor ()
      ensures nonce == 0
    {
      nonce := 0;
    }
  }

  class NonceCheck {
    const node: NonceCell
    var phase: Phase
    var transaction: Transaction

    ghost function Value(): Sender
      reads this
    {
      Sender(phase, transaction)
    }

    constructor (node: NonceCell, transaction: Transaction)
      ensures this.node == node && Value() == Begin(transaction)
    {
      this.node, this.transaction, phase := node, transaction, Start;
    }

    /** The loop of `poll`; it returns when a request is unanswered or the transaction is settled. */
    method Poll(env: seq<Answer>)
      modifies this, node
      ensures (Value(), node.nonce) == PollSender(old(Value()), old(node.nonce), env)
    {
      var i := 0;
      while phase != Sent && phase != Aborted
        invariant 0 <= i <= |env|
        invariant PollSender(Value(), node.nonce, env[i..]) == PollSender(old(Value()), old(node.nonce), env)
        decreases |env| - i, Rank(phase), phase != Sent && phase != Aborted
      {
        match phase {
          case Start =>
            phase := NonceKnown(node.nonce);
            node.nonce := Next(node.nonce);
          case Reacquire =>
            phase := NonceRequest;
          case NonceKnown(n) =>
            transaction := transaction.(nonce := n);
            phase := if i < |env| && env[i].SigningFailed? then Aborted else TransactionRequest;
          case NonceRequest =>
            if i == |env| || env[i].Silence? {
              return;
            }
            if env[i].TransactionCount? {
              node.nonce := env[i].count;
              phase := NonceKnown(env[i].count);
              i := i + 1;
            } else {
              phase := Aborted;
            }
          case TransactionRequest =>
            if i == |env| || env[i].Silence? {
              return;
            }
            if env[i].NonceTooLow? {
              phase := Reacquire;
              i := i + 1;
            } else {
              phase := if env[i].Accepted? || env[i].AlreadyImported? then Sent else Aborted;
            }
        }
      }
    }
  }

  /** Whatever happens, retries included, only the nonce of the transaction changes. */
  lemma {:induction false} OnlyNonceChanges(s: Sender, cell: uint256, env: seq<Answer>)
    ensures var (t, _) := PollSender(s, cell, env);
            t.transaction == s.transaction.(nonce := t.transaction.nonce)
    ensures var (t, _) := PollSender(s, cell, env); Rank(t.phase) == 0
    decreases |env|, Rank(s.phase)
  {
    match s.phase
    case Start => OnlyNonceChanges(s.(phase := NonceKnown(cell)), Next(cell), env);
    case Reacquire => OnlyNonceChanges(s.(phase := NonceRequest), cell, env);
    case NonceKnown(n) =>
      OnlyNonceChanges(Sender(TransactionRequest, s.transaction.(nonce := n)), cell, env);
    case NonceRequest =>
      if env != [] && env[0].TransactionCount? {
        OnlyNonceChanges(s.(phase := NonceKnown(env[0].count)), env[0].count, env[1..]);
      }
    case TransactionRequest =>
      if env != [] && env[0].NonceTooLow? {
        OnlyNonceChanges(s.(phase := Reacquire), cell, env[1..]);
      }
    case _ =>
  }

  /* Which answers settle a transaction. */

  /** The node took the transaction, now or before. */
  predicate Taken(a: Answer) {
    a.Accepted? || a.AlreadyImported?
  }

  /** The answer leads on to the next request: a refused nonce to a refetch, a count to another try. */
  predicate LeadsOn(sending: bool, a: Answer) {
    if sending then a.NonceTooLow? else a.TransactionCount?
  }

  /**
   * The i-th answer is reached: requests to send and for the count alternate, starting with one to send
   * if `sending`, and all answers before lead on.
   */
  ghost predicate Reached(sending: bool, env: seq<Answer>, i: nat) {
    i < |env| && forall j :: 0 <= j < i ==> LeadsOn(sending == (j % 2 == 0), env[j])
  }

  /** The i-th answer is to a request to send. */
  predicate ToSend(sending: bool, i: nat) {
    sending == (i % 2 == 0)
  }

  /** The i-th answer is reached and says that the node took the transaction. */
  ghost predicate TakenAt(sending: bool, env: seq<Answer>, i: nat) {
    Reached(sending, env, i) && ToSend(sending, i) && Taken(env[i])
  }

  /** The i-th answer is reached and refuses for good: anything but silence, acceptance, and what leads on. */
  ghost predicate RefusedAt(sending: bool, env: seq<Answer>, i: nat) {
    && Reached(sending, env, i) && !env[i].Silence? && !LeadsOn(ToSend(sending, i), env[i])
    && !(ToSend(sending, i) && Taken(env[i]))
  }

  /** The node took the transaction, after any number of retries. */
  ghost predicate IsTaken(sending: bool, env: seq<Answer>) {
    exists i: nat :: TakenAt(sending, env, i)
  }

  /** A request was refused for good. */
  ghost predicate IsRefused(sending: bool, env: seq<Answer>) {
    exists i: nat :: RefusedAt(sending, env, i)
  }

  lemma {:induction false} ReachedLater(sending: bool, env: seq<Answer>, i: nat)
    requires env != [] && LeadsOn(sending, env[0])
    ensures Reached(sending, env, i + 1) <==> Reached(!sending, env[1..], i)
    ensures TakenAt(sending, env, i + 1) <==> TakenAt(!sending, env[1..], i)
    ensures RefusedAt(sending, env, i + 1) <==> RefusedAt(!sending, env[1..], i)
  {
    if Reached(!sending, env[1..], i) {
      forall j | 0 <= j < i + 1 ensures LeadsOn(sending == (j % 2 == 0), env[j]) {
        if j > 0 {
          assert LeadsOn(!sending == ((j - 1) % 2 == 0), env[1..][j - 1]);
        }
      }
    }
    if Reached(sending, env, i + 1) {
      forall j | 0 <= j < i ensures LeadsOn(!sending == (j % 2 == 0), env[1..][j]) {
        assert LeadsOn(sending == ((j + 1) % 2 == 0), env[j + 1]);
      }
    }
  }

  /** An answer that leads on decides nothing itself. */
  lemma {:induction false} LaterDecides(sending: bool, env: seq<Answer>)
    requires env != [] && LeadsOn(sending, env[0])
    ensures IsTaken(sending, env) <==> IsTaken(!sending, env[1..])
    ensures IsRefused(sending, env) <==> IsRefused(!sending, env[1..])
  {
    if IsTaken(sending, env) {
      var i: nat :| TakenAt(sending, env, i);
      ReachedLater(sending, env, i - 1);
    }
    if IsTaken(!sending, env[1..]) {
      var i: nat :| TakenAt(!sending, env[1..], i);
      ReachedLater(sending, env, i);
    }
    if IsRefused(sending, env) {
      var i: nat :| RefusedAt(sending, env, i);
      ReachedLater(sending, env, i - 1);
    }
    if IsRefused(!sending, env[1..]) {
      var i: nat :| RefusedAt(!sending, env[1..], i);
      ReachedLater(sending, env, i);
    }
  }

  lemma {:induction false} FirstLeadsOn(sending: bool, env: seq<Answer>, i: nat)
    requires Reached(sending, env, i)
    ensures i == 0 || LeadsOn(sending, env[0])
  {
    assert i > 0 ==> LeadsOn(sending == (0 % 2 == 0), env[0]);
  }

  /** The first answer decides if it does not lead on. */
  lemma {:induction false} FirstDecides(sending: bool, env: seq<Answer>)
    requires env == [] || !LeadsOn(sending, env[0])
    ensures IsTaken(sending, env) <==> env != [] && sending && Taken(env[0])
    ensures IsRefused(sending, env) <==> env != [] && !env[0].Silence? && !(sending && Taken(env[0]))
  {
    forall i: nat | Reached(sending, env, i) ensures i == 0 {
      FirstLeadsOn(sending, env, i);
    }
    assert ToSend(sending, 0) == sending;
    if env != [] {
      assert TakenAt(sending, env, 0) <==> sending && Taken(env[0]);
      assert RefusedAt(sending, env, 0) <==> !env[0].Silence? && !(sending && Taken(env[0]));
    }
  }

  /**
   * How a poll ends, told from the answers alone: with a sent transaction exactly when the node took it,
   * after any number of retries, and with an error exactly when a request was refused for good. Else the
   * sender keeps waiting.
   */
  lemma {:induction false} PollOutcome(s: Sender, cell: uint256, env: seq<Answer>)
    requires s.phase in {Start, NonceRequest, TransactionRequest}
    ensures var (t, _) := PollSender(s, cell, env);
            && (t.phase == Sent <==> IsTaken(s.phase != NonceRequest, env))
            && (t.phase == Aborted <==> IsRefused(s.phase != NonceRequest, env))
            && t.phase in {NonceRequest, TransactionRequest, Sent, Aborted}
    decreases |env|
  {
    if s.phase == NonceRequest {
      CountOutcome(s, cell, env);
    } else if s.phase == Start {
      KnownOutcome(s.(phase := NonceKnown(cell)), Next(cell), env);
    } else {
      SendOutcome(s, cell, env);
    }
  }

  lemma {:induction false} KnownOutcome(s: Sender, cell: uint256, env: seq<Answer>)
    requires s.phase.NonceKnown?
    ensures var (t, _) := PollSender(s, cell, env);
            && (t.phase == Sent <==> IsTaken(true, env)) && (t.phase == Aborted <==> IsRefused(true, env))
            && t.phase in {NonceRequest, TransactionRequest, Sent, Aborted}
    decreases |env|, 2
  {
    if env != [] && env[0].SigningFailed? {
      FirstDecides(true, env);
    } else {
      SendOutcome(Sender(TransactionRequest, s.transaction.(nonce := s.phase.nonce)), cell, env);
    }
  }

  lemma {:induction false} SendOutcome(s: Sender, cell: uint256, env: seq<Answer>)
    requires s.phase == TransactionRequest
    ensures var (t, _) := PollSender(s, cell, env);
            && (t.phase == Sent <==> IsTaken(true, env)) && (t.phase == Aborted <==> IsRefused(true, env))
            && t.phase in {NonceRequest, TransactionRequest, Sent, Aborted}
    decreases |env|, 1
  {
    if env != [] && env[0].NonceTooLow? {
      LaterDecides(true, env);
      CountOutcome(s.(phase := NonceRequest), cell, env[1..]);
      assert PollSender(s, cell, env) == PollSender(s.(phase := Reacquire), cell, env[1..]);
    } else {
      FirstDecides(true, env);
    }
  }

  lemma {:induction false} CountOutcome(s: Sender, cell: uint256, env: seq<Answer>)
    requires s.phase == NonceRequest
    ensures var (t, _) := PollSender(s, cell, env);
            && (t.phase == Sent <==> IsTaken(false, env)) && (t.phase == Aborted <==> IsRefused(false, env))
            && t.phase in {NonceRequest, TransactionRequest, Sent, Aborted}
    decreases |env|, 0
  {
    if env != [] && env[0].TransactionCount? {
      LaterDecides(false, env);
      KnownOutcome(s.(phase := NonceKnown(env[0].count)), env[0].count, env[1..]);
    } else {
      FirstDecides(false, env);
    }
  }

  /** A sender is polled, or a new one is created. */
  datatype Move = PollOne(index: nat, env: seq<Answer>) | Spawn(transaction: Transaction)

  datatype Pool = Pool(senders: seq<Sender>, cell: uint256)

  function Step(p: Pool, m: Move): Pool {
    match m
    case Spawn(tx) => p.(senders := p.senders + [Begin(tx)])
    case PollOne(i, env) =>
      if i >= |p.senders| then p
      else
        var (s, cell) := PollSender(p.senders[i], p.cell, env);
        Pool(p.senders[i := s], cell)
  }

  function Run(p: Pool, moves: seq<Move>): Pool
    decreases |moves|
  {
    if moves == [] then p else Run(Step(p, moves[0]), moves[1..])
  }

  /** No transaction is refused for its nonce, so no sender refetches. */
  ghost predicate NoRefetch(moves: seq<Move>) {
    forall i, j :: 0 <= i < |moves| && moves[i].PollOne? && 0 <= j < |moves[i].env| ==> !moves[i].env[j].NonceTooLow?
  }

  function Nth(first: uint256, j: nat): uint256 {
    (first + j) % TWO_256
  }

  /** `order` lists the senders that took a nonce, in the order they did. */
  ghost predicate Allocated(p: Pool, first: uint256, order: seq<nat>) {
    && Distinct(order)
    && (forall j :: 0 <= j < |order| ==> order[j] < |p.senders| && p.senders[order[j]].transaction.nonce == Nth(first, j))
    && (forall i :: 0 <= i < |p.senders| ==>
          if i in order then p.senders[i].phase in {TransactionRequest, Sent, Aborted} else p.senders[i].phase == Start)
    && p.cell == Nth(first, |order|)
  }

  lemma {:induction false} PollWithoutRefetch(s: Sender, cell: uint256, env: seq<Answer>)
    requires s.phase in {Start, TransactionRequest, Sent, Aborted}
    requires forall j :: 0 <= j < |env| ==> !env[j].NonceTooLow?
    ensures var (t, c) := PollSender(s, cell, env);
            && t.phase in {TransactionRequest, Sent, Aborted}
            && (s.phase == Start ==> t.transaction.nonce == cell && c == Next(cell))
            && (s.phase != Start ==> t.transaction == s.transaction && c == cell)
  {
    if s.phase == Start {
      var known := s.(phase := NonceKnown(cell));
      assert PollSender(s, cell, env) == PollSender(known, Next(cell), env);
      if env == [] || !env[0].SigningFailed? {
        var asking := Sender(TransactionRequest, s.transaction.(nonce := cell));
        assert PollSender(known, Next(cell), env) == PollSender(asking, Next(cell), env);
      }
    }
  }

  /**
   * For every interleaving without refetches, the nonces taken are the initial one and its
   * successors, one per sender, in the order the senders were first polled.
   */
  lemma {:induction false} NoncesContiguous(p: Pool, first: uint256, order: seq<nat>, moves: seq<Move>)
    returns (end: seq<nat>)
    requires NoRefetch(moves) && Allocated(p, first, order)
    ensures Allocated(Run(p, moves), first, end) && order <= end
    decreases |moves|
  {
    end := order;
    if moves != [] {
      var next := AllocateStep(p, first, order, moves[0]);
      assert NoRefetch(moves[1..]) by {
        assert forall i :: 0 <= i < |moves[1..]| ==> moves[1..][i] == moves[i + 1];
      }
      end := NoncesContiguous(Step(p, moves[0]), first, next, moves[1..]);
    }
  }

  lemma {:induction false} AllocateStep(p: Pool, first: uint256, order: seq<nat>, m: Move) returns (next: seq<nat>)
    requires NoRefetch([m]) && Allocated(p, first, order)
    ensures Allocated(Step(p, m), first, next) && order <= next
  {
    next := order;
    if m.PollOne? && m.index < |p.senders| {
      forall j | 0 <= j < |m.env| ensures !m.env[j].NonceTooLow? {
        assert [m][0].env[j] == m.env[j];
      }
      PollWithoutRefetch(p.senders[m.index], p.cell, m.env);
      if m.index !in order {
        next := order + [m.index];
        NthNext(first, |order|);
      }
    }
  }

  /** The nonces of a contiguous allocation differ exactly while fewer than 2^256 + 1 were taken. */
  lemma {:induction false} NoncesDistinct(p: Pool, first: uint256, order: seq<nat>)
    requires Allocated(p, first, order)
    ensures (forall i, j :: 0 <= i < j < |order| ==>
               p.senders[order[i]].transaction.nonce != p.senders[order[j]].transaction.nonce)
            <==> |order| <= TWO_256
  {
    if |order| > TWO_256 {
      assert Nth(first, 0) == Nth(first, TWO_256);
      assert p.senders[order[0]].transaction.nonce == p.senders[order[TWO_256]].transaction.nonce;
    } else {
      forall i, j | 0 <= i < j < |order|
        ensures p.senders[order[i]].transaction.nonce != p.senders[order[j]].transaction.nonce
      {
        NthDistinct(first, i, j);
      }
    }
  }

  lemma {:induction false} NthNext(first: uint256, j: nat)
    ensures Nth(first, j + 1) == Next(Nth(first, j))
  {
  }

  lemma {:induction false} NthDistinct(first: uint256, i: nat, j: nat)
    requires i < j < i + TWO_256
    ensures Nth(first, i) != Nth(first, j)
  {
  }

  /* With refetches. */

  /** The count the node answers last during a poll, if the poll refetches. */
  function LastCount(phase: Phase, env: seq<Answer>): Option<uint256>
    decreases |env|, Rank(phase)
  {
    match phase
    case Start => if env != [] && env[0].SigningFailed? then None else LastCount(TransactionRequest, env)
    case Reacquire => LastCount(NonceRequest, env)
    case NonceKnown(_) => if env != [] && env[0].SigningFailed? then None else LastCount(TransactionRequest, env)
    case NonceRequest =>
      if env == [] || !env[0].TransactionCount? then None
      else
        var later := LastCount(NonceKnown(env[0].count), env[1..]);
        if later.Some? then later else Some(env[0].count)
    case TransactionRequest => if env == [] || !env[0].NonceTooLow? then None else LastCount(Reacquire, env[1..])
    case _ => None
  }

  /** The nonce a sender has after a poll: the count answered last, else the shared nonce if it starts, else its own. */
  function NonceAfter(s: Sender, cell: uint256, env: seq<Answer>): uint256 {
    var count := LastCount(s.phase, env);
    if count.Some? then count.value else
    match s.phase
    case Start => cell
    case NonceKnown(n) => n
    case _ => s.transaction.nonce
  }

  /** A refetched nonce is stored for the others without being advanced; only a start advances it. */
  lemma {:induction false} PollTakes(s: Sender, cell: uint256, env: seq<Answer>)
    ensures var (t, c) := PollSender(s, cell, env);
            && t.transaction.nonce == NonceAfter(s, cell, env)
            && c == (if LastCount(s.phase, env).Some? then t.transaction.nonce
                     else if s.phase == Start then Next(cell) else cell)
    decreases |env|, Rank(s.phase)
  {
    match s.phase
    case Start => PollTakes(s.(phase := NonceKnown(cell)), Next(cell), env);
    case Reacquire => PollTakes(s.(phase := NonceRequest), cell, env);
    case NonceKnown(n) =>
      if env == [] || !env[0].SigningFailed? {
        PollTakes(Sender(TransactionRequest, s.transaction.(nonce := n)), cell, env);
      }
    case NonceRequest =>
      if env != [] && env[0].TransactionCount? {
        PollTakes(s.(phase := NonceKnown(env[0].count)), env[0].count, env[1..]);
      }
    case TransactionRequest =>
      if env != [] && env[0].NonceTooLow? {
        PollTakes(s.(phase := Reacquire), cell, env[1..]);
      }
    case _ =>
  }

  /** The sender's transaction is with the node under its nonce. */
  predicate Holds(s: Sender) {
    s.phase in {TransactionRequest, Sent}
  }

  ghost predicate DistinctNonces(p: Pool) {
    forall i, j :: 0 <= i < j < |p.senders| && Holds(p.senders[i]) && Holds(p.senders[j]) ==>
      p.senders[i].transaction.nonce != p.senders[j].transaction.nonce
  }

  /** Some sender other than `i` holds the nonce. */
  ghost predicate InUse(p: Pool, i: nat, nonce: uint256) {
    exists j :: 0 <= j < |p.senders| && j != i && Holds(p.senders[j]) && p.senders[j].transaction.nonce == nonce
  }

  /** The states senders are in between polls. */
  ghost predicate BetweenPolls(p: Pool) {
    forall i :: 0 <= i < |p.senders| ==> p.senders[i].phase in {Start, NonceRequest, TransactionRequest, Sent, Aborted}
  }

  /** The move has a sender end up holding a nonce that is in use: the shared one, or the count it refetched. */
  ghost predicate Reuses(p: Pool, m: Move) {
    && m.PollOne? && m.index < |p.senders|
    && Holds(Step(p, m).senders[m.index])
    && InUse(p, m.index, NonceAfter(p.senders[m.index], p.cell, m.env))
  }

  /** One move keeps the nonces distinct exactly when it does not reuse one, whatever is refetched. */
  lemma {:induction false} DistinctStep(p: Pool, m: Move)
    requires BetweenPolls(p) && DistinctNonces(p)
    ensures BetweenPolls(Step(p, m))
    ensures DistinctNonces(Step(p, m)) <==> !Reuses(p, m)
  {
    if m.PollOne? && m.index < |p.senders| {
      PollTakes(p.senders[m.index], p.cell, m.env);
      PollSettles(p.senders[m.index], p.cell, m.env);
      var q := Step(p, m);
      if Reuses(p, m) {
        var j :| 0 <= j < |p.senders| && j != m.index && Holds(p.senders[j])
                 && p.senders[j].transaction.nonce == q.senders[m.index].transaction.nonce;
        assert q.senders[j] == p.senders[j];
      } else {
        forall i, j | 0 <= i < j < |q.senders| && Holds(q.senders[i]) && Holds(q.senders[j])
          ensures q.senders[i].transaction.nonce != q.senders[j].transaction.nonce
        {
          assert i != m.index ==> q.senders[i] == p.senders[i];
          assert j != m.index ==> q.senders[j] == p.senders[j];
        }
      }
    }
  }

  lemma {:induction false} PollSettles(s: Sender, cell: uint256, env: seq<Answer>)
    ensures PollSender(s, cell, env).0.phase in {NonceRequest, TransactionRequest, Sent, Aborted}
    decreases |env|, Rank(s.phase)
  {
    match s.phase
    case Start => PollSettles(s.(phase := NonceKnown(cell)), Next(cell), env);
    case Reacquire => PollSettles(s.(phase := NonceRequest), cell, env);
    case NonceKnown(n) =>
      if env == [] || !env[0].SigningFailed? {
        PollSettles(Sender(TransactionRequest, s.transaction.(nonce := n)), cell, env);
      }
    case NonceRequest =>
      if env != [] && env[0].TransactionCount? {
        PollSettles(s.(phase := NonceKnown(env[0].count)), env[0].count, env[1..]);
      }
    case TransactionRequest =>
      if env != [] && env[0].NonceTooLow? {
        PollSettles(s.(phase := Reacquire), cell, env[1..]);
      }
    case _ =>
  }

  ghost predicate AlwaysDistinct(p: Pool, moves: seq<Move>)
    decreases |moves|
  {
    DistinctNonces(p) && (moves == [] || AlwaysDistinct(Step(p, moves[0]), moves[1..]))
  }

  ghost predicate NeverReuses(p: Pool, moves: seq<Move>)
    decreases |moves|
  {
    moves == [] || (!Reuses(p, moves[0]) && NeverReuses(Step(p, moves[0]), moves[1..]))
  }

  /**
   * For every interleaving, with any refetches and retries: the nonces held stay pairwise distinct
   * throughout exactly when no sender ever ends a poll with a nonce in use, which is the shared one
   * when it starts and the count answered last when it refetches.
   */
  lemma {:induction false} DistinctIffNeverReuses(p: Pool, moves: seq<Move>)
    requires BetweenPolls(p) && DistinctNonces(p)
    ensures AlwaysDistinct(p, moves) <==> NeverReuses(p, moves)
    decreases |moves|
  {
    if moves != [] {
      DistinctStep(p, moves[0]);
      if !Reuses(p, moves[0]) {
        DistinctIffNeverReuses(Step(p, moves[0]), moves[1..]);
      }
    }
  }

  /** No move starts a sender or refetches. */
  ghost predicate Quiet(p: Pool, moves: seq<Move>)
    decreases |moves|
  {
    moves == [] ||
    (&& (moves[0].PollOne? && moves[0].index < |p.senders| ==>
           var s := p.senders[moves[0].index]; s.phase != Start && LastCount(s.phase, moves[0].env).None?)
     && Quiet(Step(p, moves[0]), moves[1..]))
  }

  lemma {:induction false} QuietKeepsNonces(p: Pool, moves: seq<Move>)
    requires BetweenPolls(p) && Quiet(p, moves)
    ensures var q := Run(p, moves);
            && BetweenPolls(q) && q.cell == p.cell && |p.senders| <= |q.senders|
            && forall i :: 0 <= i < |p.senders| ==>
                 && q.senders[i].transaction.nonce == p.senders[i].transaction.nonce
                 && (q.senders[i].phase == Start <==> p.senders[i].phase == Start)
    decreases |moves|
  {
    if moves != [] {
      var m := moves[0];
      if m.PollOne? && m.index < |p.senders| {
        PollTakes(p.senders[m.index], p.cell, m.env);
        PollSettles(p.senders[m.index], p.cell, m.env);
      }
      QuietKeepsNonces(Step(p, m), moves[1..]);
    }
  }

  /**
   * After a poll that refetched, whatever it was answered, the next sender to start always takes the
   * very nonce of the sender that refetched; so unless one of the two loses it, it is used twice.
   */
  lemma {:induction false} RefetchedNonceIsReused(
    p: Pool, i: nat, env: seq<Answer>, between: seq<Move>, j: nat, later: seq<Answer>)
    requires BetweenPolls(p) && i < |p.senders| && LastCount(p.senders[i].phase, env).Some?
    requires Quiet(Step(p, PollOne(i, env)), between)
    requires var q := Run(Step(p, PollOne(i, env)), between);
             j < |q.senders| && q.senders[j].phase == Start && LastCount(Start, later).None?
    ensures var count := LastCount(p.senders[i].phase, env).value;
            var q := Step(Run(Step(p, PollOne(i, env)), between), PollOne(j, later));
            && i != j && i < |q.senders|
            && q.senders[i].transaction.nonce == count && q.senders[j].transaction.nonce == count
            && (Holds(q.senders[i]) && Holds(q.senders[j]) ==> !DistinctNonces(q))
  {
    PollTakes(p.senders[i], p.cell, env);
    PollSettles(p.senders[i], p.cell, env);
    var first := Step(p, PollOne(i, env));
    QuietKeepsNonces(first, between);
    var q := Run(first, between);
    assert q.senders[i].phase != Start;
    PollTakes(q.senders[j], q.cell, later);
  }
}
