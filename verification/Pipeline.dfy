/**
 * One validator process: three log streams feeding three relays that send nonce-managed transactions,
 * the merged event stream, and the database file, as an arbitrary interleaving on one thread. It may
 * stop at any error and be started again from its file.
 */
module Pipeline {
  import opened Wrappers
  import opened Bytes
  import opened Evm
  import opened Payloads
  import opened Signing
  import Message
  import Sig = Signature
  import LS = LogStream
  import N = Nonce
  import D = Database
  import B = Batches
  import U = Funding

  datatype Kind = Deposits | Relays | Confirms

  /** One value for each of the three relays. */
  datatype Trio<T> = Trio(deposits: T, relays: T, confirms: T) {
    function At(k: Kind): T {
      match k
      case Deposits => deposits
      case Relays => relays
      case Confirms => confirms
    }

    function With(k: Kind, v: T): Trio<T> {
      match k
      case Deposits => this.(deposits := v)
      case Relays => this.(relays := v)
      case Confirms => this.(confirms := v)
    }
  }

  /** A transaction on its way, with the log it is for. */
  datatype Job = Job(log: Log, sender: N.Sender)

  /** A transaction the node has accepted or reported already imported, and the log it was for. */
  datatype Done = Done(kind: Kind, log: Log, transaction: N.Transaction)

  datatype Phase =
    | Idle
    | Fetching(logs: seq<Log>, block: uint64)
    | Sending(jobs: seq<Job>, block: uint64)
    | Yielding(checked: Option<uint64>)

  datatype Component = Component(stream: LS.Stream<Log>, phase: Phase)

  /** `held` is the event yielded to `Bridge` and not persisted yet; `handled` is what the nodes have taken. */
  datatype System = System(
    parts: Trio<Component>, foreignNonce: uint256, homeNonce: uint256, held: Option<(Kind, uint64)>,
    db: D.Database, file: seq<byte>, halted: bool, handled: set<Done>)

  datatype Setup = Setup(me: Address, confirmations: Trio<uint64>, settings: Trio<B.Settings>, sign: B.Sign)

  /**
   * A step, with what the outside has to say in it: answers to the log stream, the recorded balance and
   * gas price, joined answers to view calls, replies to a transaction. `Stop` is any other error.
   */
  datatype Event =
    | PollLogs(kind: Kind, answers: seq<LS.Response<Log>>, balance: Option<nat>, gasPrice: uint64)
    | Fetched(kind: Kind, messages: seq<Option<seq<byte>>>, signatures: seq<seq<Option<seq<byte>>>>,
              balance: Option<nat>, gasPrice: uint64)
    | PollJob(kind: Kind, index: nat, replies: seq<N.Answer>)
    | Finish(kind: Kind)
    | Emit(kind: Kind)
    | Rearm(kind: Kind)
    | Persist(writable: bool)
    | Stop
    | Restart(foreignNonce: uint256, homeNonce: uint256)

  /** The withdraw relay leaves logs to the authorities responsible for them. */
  predicate Mine(me: Address, k: Kind, log: Log) {
    k.Relays? ==> log.event.SignaturesCollected? && log.event.authority == me
  }

  /** The transactions of a deposit-relay or withdraw-confirm batch. */
  function Batch(setup: Setup, k: Kind, gasPrice: uint64, logs: seq<Log>): (r: Option<seq<N.Transaction>>)
    ensures r.Some? ==> |r.value| == |logs|
  {
    if k.Deposits? then B.DepositBatch(setup.settings.deposits, gasPrice, logs)
    else B.ConfirmBatch(setup.settings.confirms, gasPrice, setup.sign, logs)
  }

  function Jobs(logs: seq<Log>, txs: seq<N.Transaction>): (jobs: seq<Job>)
    requires |logs| == |txs|
    ensures |jobs| == |logs|
    ensures forall i :: 0 <= i < |jobs| ==> jobs[i] == Job(logs[i], N.Begin(txs[i]))
  {
    seq(|logs|, i requires 0 <= i < |logs| => Job(logs[i], N.Begin(txs[i])))
  }

  function CheckOf(k: Kind, block: uint64): D.Checked {
    match k
    case Deposits => D.DepositRelay(block)
    case Relays => D.WithdrawRelay(block)
    case Confirms => D.WithdrawConfirm(block)
  }

  function Checkpoint(db: D.Database, k: Kind): uint64 {
    D.CheckpointOf(db, CheckOf(k, 0))
  }

  /** A process starting from a loaded database. */
  function Boot(
    setup: Setup, db: D.Database, file: seq<byte>, foreignNonce: uint256, homeNonce: uint256, handled: set<Done>): System
  {
    var c := setup.confirmations;
    System(Trio(Component(LS.Start(db.depositRelay, c.deposits), Idle),
                Component(LS.Start(db.withdrawRelay, c.relays), Idle),
                Component(LS.Start(db.withdrawConfirm, c.confirms), Idle)),
           foreignNonce, homeNonce, None, db, file, false, handled)
  }

  function NonceOf(s: System, k: Kind): uint256 {
    if k.Relays? then s.homeNonce else s.foreignNonce
  }

  function WithNonce(s: System, k: Kind, nonce: uint256): System {
    if k.Relays? then s.(homeNonce := nonce) else s.(foreignNonce := nonce)
  }

  function WithPart(s: System, k: Kind, c: Component): System {
    s.(parts := s.parts.With(k, c))
  }

  function Halt(s: System): System {
    s.(halted := true)
  }

  /** Sending a batch, if its transactions could be built and the balance covers it. */
  function Send(
    setup: Setup, s: System, k: Kind, stream: LS.Stream<Log>, block: uint64, logs: seq<Log>,
    txs: Option<seq<N.Transaction>>, balance: Option<nat>, gasPrice: uint64): System
    requires txs.Some? ==> |txs.value| == |logs|
  {
    if txs.None? || !U.Funded(balance, setup.settings.At(k).gas, gasPrice, |logs|) then Halt(s)
    else WithPart(s, k, Component(stream, Sending(Jobs(logs, txs.value), block)))
  }

  /** The relay's step on its log stream. */
  function OnLogs(
    setup: Setup, s: System, k: Kind, answers: seq<LS.Response<Log>>, balance: Option<nat>, gasPrice: uint64): System
  {
    var c := s.parts.At(k);
    var (stream, r) := LS.Poll(c.stream, answers);
    if !k.Relays? && balance.None? then s
    else if r.NotReady? then WithPart(s, k, c.(stream := stream))
    else if r.Failed? then Halt(s)
    else if !k.Relays? then
      Send(setup, s, k, stream, r.value.to, r.value.logs, Batch(setup, k, gasPrice, r.value.logs), balance, gasPrice)
    else if B.Assignments(setup.me, r.value.logs).None? then Halt(s)
    else WithPart(s, k, Component(stream, Fetching(B.Own(setup.me, r.value.logs), r.value.to)))
  }

  /** Messages and signatures have been fetched: one answer per call. */
  function OnFetched(
    setup: Setup, s: System, k: Kind, messages: seq<Option<seq<byte>>>, signatures: seq<seq<Option<seq<byte>>>>,
    balance: Option<nat>, gasPrice: uint64): System
    requires s.parts.At(k).phase.Fetching?
  {
    var c := s.parts.At(k);
    if balance.None? || |messages| != |c.phase.logs| || |signatures| != |c.phase.logs| then s
    else
      Send(setup, s, k, c.stream, c.phase.block, c.phase.logs,
           B.RelayBatch(setup.settings.relays, messages, signatures), balance, gasPrice)
  }

  function OnJob(s: System, k: Kind, i: nat, replies: seq<N.Answer>): System
    requires s.parts.At(k).phase.Sending? && i < |s.parts.At(k).phase.jobs|
  {
    var c := s.parts.At(k);
    var job := c.phase.jobs[i];
    var (sender, nonce) := N.PollSender(job.sender, NonceOf(s, k), replies);
    if sender.phase == N.Aborted then Halt(s)
    else
      var t := WithPart(s, k, c.(phase := c.phase.(jobs := c.phase.jobs[i := job.(sender := sender)])));
      var u := WithNonce(t, k, nonce);
      if sender.phase == N.Sent then u.(handled := u.handled + {Done(k, job.log, sender.transaction)}) else u
  }

  predicate AllSent(jobs: seq<Job>) {
    forall i :: 0 <= i < |jobs| ==> jobs[i].sender.phase == N.Sent
  }

  /** One step of a running process; events that do not apply do nothing. */
  function Advance(setup: Setup, s: System, e: Event): System {
    match e
    case PollLogs(k, answers, balance, gasPrice) =>
      if s.parts.At(k).phase.Idle? then OnLogs(setup, s, k, answers, balance, gasPrice) else s
    case Fetched(k, messages, signatures, balance, gasPrice) =>
      if s.parts.At(k).phase.Fetching? then OnFetched(setup, s, k, messages, signatures, balance, gasPrice) else s
    case PollJob(k, i, replies) =>
      var c := s.parts.At(k);
      if c.phase.Sending? && i < |c.phase.jobs| then OnJob(s, k, i, replies) else s
    case Finish(k) =>
      var c := s.parts.At(k);
      if c.phase.Sending? && AllSent(c.phase.jobs) then WithPart(s, k, c.(phase := Yielding(Some(c.phase.block)))) else s
    case Emit(k) =>
      var c := s.parts.At(k);
      if s.held.None? && c.phase.Yielding? && c.phase.checked.Some? then
        WithPart(s, k, c.(phase := Yielding(None))).(held := Some((k, c.phase.checked.value)))
      else s
    case Rearm(k) =>
      var c := s.parts.At(k);
      if c.phase == Yielding(None) then WithPart(s, k, c.(phase := Idle)) else s
    case Persist(writable) =>
      if s.held.None? then s
      else
        var db := D.Record(s.db, CheckOf(s.held.value.0, s.held.value.1));
        if writable then s.(db := db, file := D.Overwrite(s.file, D.Print(db)), held := None)
        else Halt(s.(db := db))
    case Stop => Halt(s)
    case Restart(_, _) => s
  }

  /** A halted process only moves again when it is restarted from its file. */
  ghost function Step(setup: Setup, s: System, e: Event): System {
    if e.Restart? then
      match D.Load(s.file)
      case None => Halt(s)
      case Some(db) => Boot(setup, db, s.file, e.foreignNonce, e.homeNonce, s.handled)
    else if s.halted then s
    else Advance(setup, s, e)
  }

  ghost function Run(setup: Setup, s: System, events: seq<Event>): System
    decreases |events|
  {
    if events == [] then s else Run(setup, Step(setup, s, events[0]), events[1..])
  }

  /* The chains. */

  /** For each relay, the logs matching its filter, block by block; confirmed blocks do not change. */
  type Chain = (Kind, nat) -> seq<Log>

  function Blocks(chain: Chain, k: Kind): nat -> seq<Log> {
    (b: nat) => chain(k, b)
  }

  /** What the claims are about: the process, the chains, the foreign node, and the checkpoints before the first start. */
  datatype View = View(setup: Setup, chain: Chain, node: B.Node, start: Trio<uint64>)

  /**
   * The nodes are honest: requests for logs are answered from the chain, and calls of the foreign bridge's
   * views by what it holds.
   */
  ghost predicate HonestStep(v: View, s: System, e: Event) {
    && (e.PollLogs? && !s.halted && s.parts.At(e.kind).phase.Idle? ==>
          LS.Answered(Blocks(v.chain, e.kind), s.parts.At(e.kind).stream, e.answers))
    && (e.Fetched? && !s.halted && s.parts.At(e.kind).phase.Fetching? ==>
          B.AnswersFor(v.node, s.parts.At(e.kind).phase.logs, e.messages, e.signatures))
  }

  ghost predicate HonestRun(v: View, s: System, events: seq<Event>)
    decreases |events|
  {
    events == [] || (HonestStep(v, s, events[0]) && HonestRun(v, Step(v.setup, s, events[0]), events[1..]))
  }

  lemma {:induction false} RunConcat(v: View, s: System, a: seq<Event>, b: seq<Event>)
    ensures Run(v.setup, s, a + b) == Run(v.setup, Run(v.setup, s, a), b)
    ensures HonestRun(v, s, a + b) <==> HonestRun(v, s, a) && HonestRun(v, Run(v.setup, s, a), b)
    decreases |a|
  {
    if a == [] {
      assert a + b == b;
    } else {
      assert (a + b)[1..] == a[1..] + b;
      RunConcat(v, Step(v.setup, s, a[0]), a[1..], b);
    }
  }

  lemma {:induction false} RunOne(v: View, s: System, e: Event)
    ensures Run(v.setup, s, [e]) == Step(v.setup, s, e)
    ensures HonestRun(v, s, [e]) <==> HonestStep(v, s, e)
  {
    assert [e][1..] == [];
    var t := Step(v.setup, s, e);
    assert Run(v.setup, t, []) == t && HonestRun(v, t, []);
  }

  lemma {:induction false} InChainLogs(blocks: nat -> seq<Log>, from: nat, to: nat, b: nat, log: Log)
    requires from <= b <= to && log in blocks(b)
    ensures log in LS.ChainLogs(blocks, from, to)
    decreases b - from
  {
    if from < b {
      InChainLogs(blocks, from + 1, to, b, log);
    }
  }

  lemma {:induction false} FromChainLogs(blocks: nat -> seq<Log>, from: nat, to: nat, log: Log) returns (b: nat)
    requires log in LS.ChainLogs(blocks, from, to)
    ensures from <= b <= to && log in blocks(b)
    decreases 1 + to - from
  {
    if log in blocks(from) {
      b := from;
    } else {
      b := FromChainLogs(blocks, from + 1, to, log);
    }
  }

  lemma {:induction false} InOwn(me: Address, logs: seq<Log>, log: Log)
    ensures log in B.Own(me, logs) <==> log in logs && log.event.SignaturesCollected? && log.event.authority == me
    decreases |logs|
  {
    if logs != [] {
      InOwn(me, logs[..|logs| - 1], log);
    }
  }

  /* What the transactions carry. */

  /** The log is on the relay's chain. */
  ghost predicate Logged(v: View, k: Kind, log: Log) {
    exists b: nat :: log in v.chain(k, b)
  }

  /**
   * The transaction is the one for this log of the chain, to the contract and with the gas limit configured
   * for the relay: it confirms the order the log asks for, or submits the message the log asks for with
   * a signature of its digest, or carries the message and all signatures that the foreign bridge holds
   * for the log.
   */
  ghost predicate Content(v: View, k: Kind, log: Log, tx: N.Transaction) {
    && Logged(v, k, log) && B.Addressed(v.setup.settings.At(k), tx)
    && match k
       case Deposits => B.ConfirmsDeposit(log, tx)
       case Confirms => B.ConfirmsWithdraw(v.setup.sign, log, tx)
       case Relays =>
         && log.event.SignaturesCollected? && log.event.authority == v.setup.me
         && B.Carries(v.node, tx, log.event.messageHash, log.event.count % B.TWO_32)
  }

  ghost predicate AllContent(v: View, k: Kind, logs: seq<Log>, txs: seq<N.Transaction>) {
    |logs| == |txs| && forall i :: 0 <= i < |logs| ==> Content(v, k, logs[i], txs[i])
  }

  lemma {:induction false} BatchContent(v: View, k: Kind, gasPrice: uint64, logs: seq<Log>)
    requires !k.Relays? && Batch(v.setup, k, gasPrice, logs).Some?
    requires forall i :: 0 <= i < |logs| ==> Logged(v, k, logs[i])
    ensures AllContent(v, k, logs, Batch(v.setup, k, gasPrice, logs).value)
  {
    if k.Deposits? {
      B.DepositBatchMatches(v.setup.settings.deposits, gasPrice, logs);
    } else {
      B.ConfirmBatchPairs(v.setup.settings.confirms, gasPrice, v.setup.sign, logs);
    }
  }

  lemma {:induction false} FetchedContent(
    v: View, logs: seq<Log>, messages: seq<Option<seq<byte>>>, signatures: seq<seq<Option<seq<byte>>>>)
    requires forall i :: 0 <= i < |logs| ==> Mine(v.setup.me, Relays, logs[i]) && Logged(v, Relays, logs[i])
    requires B.AnswersFor(v.node, logs, messages, signatures)
    requires B.RelayBatch(v.setup.settings.relays, messages, signatures).Some?
    ensures AllContent(v, Relays, logs, B.RelayBatch(v.setup.settings.relays, messages, signatures).value)
  {
    var txs := B.RelayBatch(v.setup.settings.relays, messages, signatures).value;
    forall i | 0 <= i < |logs| ensures Content(v, Relays, logs[i], txs[i]) {
      assert Mine(v.setup.me, Relays, logs[i]) && Logged(v, Relays, logs[i]);
      B.RelayCarries(v.setup.settings.relays, v.node, messages, signatures, i, logs[i].event.messageHash, logs[i].event.count);
    }
  }

  /* No checkpoint is ahead of the work. */

  /** The nodes have taken a transaction for this log. */
  ghost predicate Handled(done: set<Done>, k: Kind, log: Log) {
    exists tx :: Done(k, log, tx) in done
  }

  /** Every log after the start up to block `n` that this validator must handle is handled or in `rest`. */
  ghost predicate CoveredOr(v: View, k: Kind, n: nat, handled: set<Done>, rest: seq<Log>) {
    forall b: nat, log :: v.start.At(k) < b <= n && log in v.chain(k, b) && Mine(v.setup.me, k, log) ==>
      Handled(handled, k, log) || log in rest
  }

  ghost predicate Covered(v: View, k: Kind, n: nat, handled: set<Done>) {
    CoveredOr(v, k, n, handled, [])
  }

  ghost predicate JobOk(v: View, k: Kind, job: Job, handled: set<Done>) {
    && Content(v, k, job.log, job.sender.transaction)
    && (job.sender.phase == N.Sent ==> Done(k, job.log, job.sender.transaction) in handled)
  }

  ghost predicate JobsOk(v: View, k: Kind, jobs: seq<Job>, handled: set<Done>) {
    forall i :: 0 <= i < |jobs| ==> JobOk(v, k, jobs[i], handled)
  }

  function LogsOf(jobs: seq<Job>): (logs: seq<Log>)
    ensures |logs| == |jobs|
    ensures forall i :: 0 <= i < |jobs| ==> logs[i] == jobs[i].log
  {
    seq(|jobs|, i requires 0 <= i < |jobs| => jobs[i].log)
  }

  ghost predicate PhaseOk(v: View, k: Kind, c: Component, handled: set<Done>) {
    match c.phase
    case Idle => Covered(v, k, c.stream.after, handled)
    case Fetching(logs, block) =>
      && k.Relays?
      && block == c.stream.after
      && (forall i :: 0 <= i < |logs| ==> Mine(v.setup.me, Relays, logs[i]) && Logged(v, Relays, logs[i]))
      && CoveredOr(v, k, block, handled, logs)
    case Sending(jobs, block) =>
      && block == c.stream.after
      && JobsOk(v, k, jobs, handled)
      && CoveredOr(v, k, block, handled, LogsOf(jobs))
    case Yielding(checked) =>
      (checked.Some? ==> checked.value == c.stream.after) && Covered(v, k, c.stream.after, handled)
  }

  ghost predicate PartOk(v: View, k: Kind, c: Component, checkpoint: uint64, handled: set<Done>) {
    && LS.Valid(c.stream) && c.stream.confirmations == v.setup.confirmations.At(k)
    && checkpoint <= c.stream.after && PhaseOk(v, k, c, handled)
  }

  /** `d` is an earlier state of the same database. */
  ghost predicate Older(d: D.Database, db: D.Database) {
    && d.(depositRelay := db.depositRelay, withdrawRelay := db.withdrawRelay, withdrawConfirm := db.withdrawConfirm) == db
    && forall k: Kind :: Checkpoint(d, k) <= Checkpoint(db, k)
  }

  ghost predicate DatabaseOk(v: View, db: D.Database, handled: set<Done>) {
    forall k: Kind :: Covered(v, k, Checkpoint(db, k), handled)
  }

  ghost predicate HeldOk(v: View, s: System) {
    s.held.Some? ==>
      var (k, b) := s.held.value;
      Checkpoint(s.db, k) <= b <= s.parts.At(k).stream.after && Covered(v, k, b, s.handled)
  }

  /** `disk` is what the file holds: the database in memory, or an older one after a failed write. */
  ghost predicate DiskOk(v: View, s: System, disk: D.Database) {
    && s.file == D.Print(disk)
    && Older(disk, s.db)
    && DatabaseOk(v, disk, s.handled)
    && (!s.halted ==> disk == s.db)
  }

  ghost predicate PartsOk(v: View, s: System) {
    forall k: Kind :: PartOk(v, k, s.parts.At(k), Checkpoint(s.db, k), s.handled)
  }

  /** Everything the nodes have taken is the transaction of its log. */
  ghost predicate DoneOk(v: View, handled: set<Done>) {
    forall d :: d in handled ==> Content(v, d.kind, d.log, d.transaction)
  }

  ghost predicate Ok(v: View, s: System, disk: D.Database) {
    && PartsOk(v, s)
    && HeldOk(v, s)
    && DatabaseOk(v, s.db, s.handled)
    && DiskOk(v, s, disk)
    && DoneOk(v, s.handled)
  }

  /** Replacing one part by a good one keeps the system good. */
  lemma {:induction false} PartReplaced(v: View, s: System, disk: D.Database, k: Kind, c: Component)
    requires Ok(v, s, disk)
    requires PartOk(v, k, c, Checkpoint(s.db, k), s.handled) && s.parts.At(k).stream.after <= c.stream.after
    ensures Ok(v, WithPart(s, k, c), disk)
  {
  }

  lemma {:induction false} HandledGrows(v: View, s: System, disk: D.Database, done: Done)
    requires Ok(v, s, disk) && Content(v, done.kind, done.log, done.transaction)
    ensures Ok(v, s.(handled := s.handled + {done}), disk)
  {
    var t := s.(handled := s.handled + {done});
    forall k: Kind, n: nat, rest | CoveredOr(v, k, n, s.handled, rest) ensures CoveredOr(v, k, n, t.handled, rest) {
      CoverGrows(v, k, n, s.handled, t.handled, rest);
    }
    forall k: Kind ensures PartOk(v, k, t.parts.At(k), Checkpoint(t.db, k), t.handled) {
      assert PartOk(v, k, s.parts.At(k), Checkpoint(s.db, k), s.handled);
      PartGrows(v, k, s.parts.At(k), s.handled, t.handled);
    }
  }

  lemma {:induction false} CoverGrows(v: View, k: Kind, n: nat, h: set<Done>, g: set<Done>, rest: seq<Log>)
    requires CoveredOr(v, k, n, h, rest) && h <= g
    ensures CoveredOr(v, k, n, g, rest)
  {
    forall b: nat, log | v.start.At(k) < b <= n && log in v.chain(k, b) && Mine(v.setup.me, k, log)
      ensures Handled(g, k, log) || log in rest
    {
      HandledStays(h, g, k, log);
    }
  }

  lemma {:induction false} HandledStays(h: set<Done>, g: set<Done>, k: Kind, log: Log)
    requires h <= g
    ensures Handled(h, k, log) ==> Handled(g, k, log)
  {
    if Handled(h, k, log) {
      var tx :| Done(k, log, tx) in h;
      assert Done(k, log, tx) in g;
    }
  }

  lemma {:induction false} PartGrows(v: View, k: Kind, c: Component, h: set<Done>, g: set<Done>)
    requires PhaseOk(v, k, c, h) && h <= g
    ensures PhaseOk(v, k, c, g)
  {
    match c.phase
    case Sending(jobs, block) =>
      CoverGrows(v, k, block, h, g, LogsOf(jobs));
      forall i | 0 <= i < |jobs| ensures JobOk(v, k, jobs[i], g) {
        assert JobOk(v, k, jobs[i], h);
      }
    case Fetching(logs, block) => CoverGrows(v, k, block, h, g, logs);
    case _ => CoverGrows(v, k, c.stream.after, h, g, []);
  }

  /** A new item from the stream: what it brings is exactly what was not covered yet. */
  lemma {:induction false} ItemCovered(
    v: View, k: Kind, after: uint64, item: LS.Item<Log>, handled: set<Done>, own: seq<Log>)
    requires Covered(v, k, after, handled) && item.from == after + 1 && item.from <= item.to
    requires item.logs == LS.ChainLogs(Blocks(v.chain, k), item.from, item.to)
    requires own == if k.Relays? then B.Own(v.setup.me, item.logs) else item.logs
    ensures CoveredOr(v, k, item.to, handled, own)
  {
    forall b: nat, log | v.start.At(k) < b <= item.to && log in v.chain(k, b) && Mine(v.setup.me, k, log)
      ensures Handled(handled, k, log) || log in own
    {
      if b > after {
        ItemHasLog(v, k, item, b, log);
        if k.Relays? {
          InOwn(v.setup.me, item.logs, log);
        }
      }
    }
  }

  lemma {:induction false} ItemHasLog(v: View, k: Kind, item: LS.Item<Log>, b: nat, log: Log)
    requires item.from <= b <= item.to && log in v.chain(k, b)
    requires item.logs == LS.ChainLogs(Blocks(v.chain, k), item.from, item.to)
    ensures log in item.logs
  {
    InChainLogs(Blocks(v.chain, k), item.from, item.to, b, log);
  }

  lemma {:induction false} ItemLogged(v: View, k: Kind, item: LS.Item<Log>)
    requires item.logs == LS.ChainLogs(Blocks(v.chain, k), item.from, item.to)
    ensures forall i :: 0 <= i < |item.logs| ==> Logged(v, k, item.logs[i])
  {
    forall i | 0 <= i < |item.logs| ensures Logged(v, k, item.logs[i]) {
      var b := FromChainLogs(Blocks(v.chain, k), item.from, item.to, item.logs[i]);
      assert item.logs[i] in v.chain(k, b);
    }
  }

  lemma {:induction false} SendOk(
    v: View, s: System, disk: D.Database, k: Kind, stream: LS.Stream<Log>, logs: seq<Log>,
    txs: Option<seq<N.Transaction>>, balance: Option<nat>, gasPrice: uint64)
    requires Ok(v, s, disk) && !s.halted
    requires LS.Valid(stream) && stream.confirmations == v.setup.confirmations.At(k)
    requires s.parts.At(k).stream.after <= stream.after
    requires CoveredOr(v, k, stream.after, s.handled, logs)
    requires txs.Some? ==> AllContent(v, k, logs, txs.value)
    ensures Ok(v, Send(v.setup, s, k, stream, stream.after, logs, txs, balance, gasPrice), disk)
  {
    if txs.Some? && U.Funded(balance, v.setup.settings.At(k).gas, gasPrice, |logs|) {
      var jobs := Jobs(logs, txs.value);
      assert LogsOf(jobs) == logs;
      forall i | 0 <= i < |jobs| ensures JobOk(v, k, jobs[i], s.handled) {
        assert Content(v, k, logs[i], txs.value[i]);
      }
      assert PartOk(v, k, s.parts.At(k), Checkpoint(s.db, k), s.handled);
      PartReplaced(v, s, disk, k, Component(stream, Sending(jobs, stream.after)));
    }
  }

  lemma {:induction false} OnLogsOk(
    v: View, s: System, disk: D.Database, k: Kind, answers: seq<LS.Response<Log>>, balance: Option<nat>, gasPrice: uint64)
    requires Ok(v, s, disk) && s.parts.At(k).phase.Idle? && !s.halted
    requires HonestStep(v, s, PollLogs(k, answers, balance, gasPrice))
    ensures Ok(v, OnLogs(v.setup, s, k, answers, balance, gasPrice), disk)
  {
    var c := s.parts.At(k);
    assert PartOk(v, k, c, Checkpoint(s.db, k), s.handled);
    var (stream, r) := LS.Poll(c.stream, answers);
    LS.PollAdvances(c.stream, answers);
    LS.PollYieldsChain(Blocks(v.chain, k), c.stream, answers);
    if k.Relays? || balance.Some? {
      if r.NotReady? {
        PartReplaced(v, s, disk, k, c.(stream := stream));
      } else if r.Ready? {
        OnItemOk(v, s, disk, k, stream, r.value, balance, gasPrice);
      }
    }
  }

  lemma {:induction false} OnItemOk(
    v: View, s: System, disk: D.Database, k: Kind, stream: LS.Stream<Log>, item: LS.Item<Log>, balance: Option<nat>, gasPrice: uint64)
    requires Ok(v, s, disk) && s.parts.At(k).phase.Idle? && !s.halted
    requires LS.Valid(stream) && stream.after == item.to && stream.confirmations == v.setup.confirmations.At(k)
    requires item.from == s.parts.At(k).stream.after + 1 && item.from <= item.to
    requires item.logs == LS.ChainLogs(Blocks(v.chain, k), item.from, item.to)
    ensures !k.Relays? ==>
              Ok(v, Send(v.setup, s, k, stream, item.to, item.logs, Batch(v.setup, k, gasPrice, item.logs), balance, gasPrice), disk)
    ensures k.Relays? ==> Ok(v, WithPart(s, k, Component(stream, Fetching(B.Own(v.setup.me, item.logs), item.to))), disk)
  {
    var c := s.parts.At(k);
    assert PartOk(v, k, c, Checkpoint(s.db, k), s.handled);
    var own := if k.Relays? then B.Own(v.setup.me, item.logs) else item.logs;
    ItemCovered(v, k, c.stream.after, item, s.handled, own);
    ItemLogged(v, k, item);
    if k.Relays? {
      forall i | 0 <= i < |own| ensures Mine(v.setup.me, Relays, own[i]) && Logged(v, Relays, own[i]) {
        InOwn(v.setup.me, item.logs, own[i]);
      }
      PartReplaced(v, s, disk, k, Component(stream, Fetching(own, item.to)));
    } else {
      var txs := Batch(v.setup, k, gasPrice, item.logs);
      if txs.Some? {
        BatchContent(v, k, gasPrice, item.logs);
      }
      SendOk(v, s, disk, k, stream, item.logs, txs, balance, gasPrice);
    }
  }

  lemma {:induction false} OnFetchedOk(
    v: View, s: System, disk: D.Database, k: Kind, messages: seq<Option<seq<byte>>>,
    signatures: seq<seq<Option<seq<byte>>>>, balance: Option<nat>, gasPrice: uint64)
    requires Ok(v, s, disk) && s.parts.At(k).phase.Fetching? && !s.halted
    requires B.AnswersFor(v.node, s.parts.At(k).phase.logs, messages, signatures)
    ensures Ok(v, OnFetched(v.setup, s, k, messages, signatures, balance, gasPrice), disk)
  {
    var c := s.parts.At(k);
    assert PartOk(v, k, c, Checkpoint(s.db, k), s.handled);
    var txs := B.RelayBatch(v.setup.settings.relays, messages, signatures);
    if txs.Some? {
      FetchedContent(v, c.phase.logs, messages, signatures);
    }
    SendOk(v, s, disk, k, c.stream, c.phase.logs, txs, balance, gasPrice);
  }

  lemma {:induction false} OnJobOk(v: View, s: System, disk: D.Database, k: Kind, i: nat, replies: seq<N.Answer>)
    requires Ok(v, s, disk) && !s.halted
    requires s.parts.At(k).phase.Sending? && i < |s.parts.At(k).phase.jobs|
    ensures Ok(v, OnJob(s, k, i, replies), disk)
  {
    var c := s.parts.At(k);
    var job := c.phase.jobs[i];
    var (sender, nonce) := N.PollSender(job.sender, NonceOf(s, k), replies);
    assert PartOk(v, k, c, Checkpoint(s.db, k), s.handled);
    assert JobOk(v, k, job, s.handled);
    N.OnlyNonceChanges(job.sender, NonceOf(s, k), replies);
    assert Content(v, k, job.log, sender.transaction);
    if sender.phase != N.Aborted {
      var g := s;
      if sender.phase == N.Sent {
        g := s.(handled := s.handled + {Done(k, job.log, sender.transaction)});
        HandledGrows(v, s, disk, Done(k, job.log, sender.transaction));
        assert Done(k, job.log, sender.transaction) in g.handled;
      }
      JobReplaced(v, g, disk, k, i, job.(sender := sender));
    }
  }

  lemma {:induction false} JobReplaced(v: View, s: System, disk: D.Database, k: Kind, i: nat, job: Job)
    requires Ok(v, s, disk) && s.parts.At(k).phase.Sending? && i < |s.parts.At(k).phase.jobs|
    requires job.log == s.parts.At(k).phase.jobs[i].log && JobOk(v, k, job, s.handled)
    ensures var c := s.parts.At(k);
            Ok(v, WithPart(s, k, c.(phase := c.phase.(jobs := c.phase.jobs[i := job]))), disk)
  {
    var c := s.parts.At(k);
    assert PartOk(v, k, c, Checkpoint(s.db, k), s.handled);
    var jobs := c.phase.jobs[i := job];
    assert LogsOf(jobs) == LogsOf(c.phase.jobs);
    forall j | 0 <= j < |jobs| ensures JobOk(v, k, jobs[j], s.handled) {
      assert j != i ==> JobOk(v, k, c.phase.jobs[j], s.handled);
    }
    PartReplaced(v, s, disk, k, c.(phase := c.phase.(jobs := jobs)));
  }

  lemma {:induction false} AllSentCovers(v: View, k: Kind, c: Component, handled: set<Done>)
    requires PhaseOk(v, k, c, handled) && c.phase.Sending? && AllSent(c.phase.jobs)
    ensures Covered(v, k, c.stream.after, handled)
  {
    var jobs := c.phase.jobs;
    forall b: nat, log | v.start.At(k) < b <= c.stream.after && log in v.chain(k, b) && Mine(v.setup.me, k, log)
      ensures Handled(handled, k, log)
    {
      if log in LogsOf(jobs) {
        var i :| 0 <= i < |jobs| && LogsOf(jobs)[i] == log;
        assert JobOk(v, k, jobs[i], handled);
        assert Done(k, log, jobs[i].sender.transaction) in handled;
      }
    }
  }

  /** Recording the held event in the database in memory. */
  lemma {:induction false} RecordOk(v: View, s: System, disk: D.Database, k: Kind, b: uint64)
    requires Ok(v, s, disk) && s.held == Some((k, b))
    ensures var db := D.Record(s.db, CheckOf(k, b));
            && PartsOk(v, s.(db := db, held := None)) && DatabaseOk(v, db, s.handled)
            && Older(s.db, db) && HeldOk(v, s.(db := db))
  {
    var db := D.Record(s.db, CheckOf(k, b));
    forall j: Kind
      ensures Checkpoint(db, j) == (if j == k then b else Checkpoint(s.db, j))
      ensures Covered(v, j, Checkpoint(db, j), s.handled)
    {
    }
    forall j: Kind ensures PartOk(v, j, s.parts.At(j), Checkpoint(db, j), s.handled) {
      assert PartOk(v, j, s.parts.At(j), Checkpoint(s.db, j), s.handled);
    }
  }

  /** A save overwrites the file completely, because no checkpoint goes back. */
  lemma {:induction false} SaveOverwrites(db: D.Database, k: Kind, b: uint64)
    requires Checkpoint(db, k) <= b
    ensures D.Overwrite(D.Print(db), D.Print(D.Record(db, CheckOf(k, b)))) == D.Print(D.Record(db, CheckOf(k, b)))
  {
    D.PrintGrows(db, CheckOf(k, b));
    D.SaveIsExactIff(D.Print(db), D.Record(db, CheckOf(k, b)));
  }

  /** Persisting the held event, if the file can be written or not. */
  lemma {:induction false} PersistOk(v: View, s: System, disk: D.Database, writable: bool) returns (disk': D.Database)
    requires Ok(v, s, disk) && !s.halted && s.held.Some?
    ensures Ok(v, Advance(v.setup, s, Persist(writable)), disk')
  {
    var (k, b) := s.held.value;
    RecordOk(v, s, disk, k, b);
    if writable {
      SaveOverwrites(s.db, k, b);
      disk' := D.Record(s.db, CheckOf(k, b));
    } else {
      disk' := disk;
    }
  }

  lemma {:induction false} StepOk(v: View, s: System, disk: D.Database, e: Event) returns (disk': D.Database)
    requires Ok(v, s, disk) && HonestStep(v, s, e)
    ensures Ok(v, Step(v.setup, s, e), disk')
  {
    disk' := disk;
    if e.Restart? {
      D.LoadPrinted(disk);
      BootOk(v, disk, s.file, e.foreignNonce, e.homeNonce, s.handled);
    } else if !s.halted {
      match e
      case PollLogs(k, answers, balance, gasPrice) =>
        if s.parts.At(k).phase.Idle? {
          OnLogsOk(v, s, disk, k, answers, balance, gasPrice);
        }
      case Fetched(k, messages, signatures, balance, gasPrice) =>
        if s.parts.At(k).phase.Fetching? {
          OnFetchedOk(v, s, disk, k, messages, signatures, balance, gasPrice);
        }
      case PollJob(k, i, replies) =>
        if s.parts.At(k).phase.Sending? && i < |s.parts.At(k).phase.jobs| {
          OnJobOk(v, s, disk, k, i, replies);
        }
      case Persist(writable) =>
        if s.held.Some? {
          disk' := PersistOk(v, s, disk, writable);
        }
      case Stop =>
      case _ => PhaseStepOk(v, s, disk, e);
    }
  }

  lemma {:induction false} BootOk(
    v: View, db: D.Database, file: seq<byte>, foreignNonce: uint256, homeNonce: uint256, handled: set<Done>)
    requires file == D.Print(db) && DatabaseOk(v, db, handled) && DoneOk(v, handled)
    ensures Ok(v, Boot(v.setup, db, file, foreignNonce, homeNonce, handled), db)
  {
    var s := Boot(v.setup, db, file, foreignNonce, homeNonce, handled);
    forall k: Kind ensures PartOk(v, k, s.parts.At(k), Checkpoint(db, k), handled) {
      assert Covered(v, k, Checkpoint(db, k), handled);
      assert s.parts.At(k).stream.after == Checkpoint(db, k);
    }
  }

  lemma {:induction false} PhaseStepOk(v: View, s: System, disk: D.Database, e: Event)
    requires Ok(v, s, disk) && !s.halted
    requires e.Finish? || e.Emit? || e.Rearm?
    ensures Ok(v, Advance(v.setup, s, e), disk)
  {
    var k := e.kind;
    var c := s.parts.At(k);
    assert PartOk(v, k, c, Checkpoint(s.db, k), s.handled);
    match e
    case Finish(_) =>
      if c.phase.Sending? && AllSent(c.phase.jobs) {
        AllSentCovers(v, k, c, s.handled);
        PartReplaced(v, s, disk, k, c.(phase := Yielding(Some(c.phase.block))));
      }
    case Emit(_) =>
      if s.held.None? && c.phase.Yielding? && c.phase.checked.Some? {
        PartReplaced(v, s, disk, k, c.(phase := Yielding(None)));
      }
    case Rearm(_) =>
      if c.phase == Yielding(None) {
        PartReplaced(v, s, disk, k, c.(phase := Idle));
      }
  }

  lemma {:induction false} RunOk(v: View, s: System, disk: D.Database, events: seq<Event>)
    returns (end: D.Database)
    requires Ok(v, s, disk) && HonestRun(v, s, events)
    ensures Ok(v, Run(v.setup, s, events), end)
    decreases |events|
  {
    end := disk;
    if events != [] {
      var next := StepOk(v, s, disk, events[0]);
      end := RunOk(v, Step(v.setup, s, events[0]), next, events[1..]);
    }
  }

  /* What the nodes have taken. */

  /**
   * In state `s` the event polls the pending transaction of `d.log`, and its replies say that the node took
   * it, which then is `d.transaction`: the one built for the log, under the nonce it was last given.
   */
  ghost predicate TakenBy(s: System, e: Event, d: Done) {
    && e.PollJob? && e.kind == d.kind && !s.halted
    && s.parts.At(d.kind).phase.Sending? && e.index < |s.parts.At(d.kind).phase.jobs|
    && var job := s.parts.At(d.kind).phase.jobs[e.index];
       && job.log == d.log && job.sender.phase != N.Sent
       && N.IsTaken(job.sender.phase != N.NonceRequest, e.replies)
       && d.transaction ==
          job.sender.transaction.(nonce := N.NonceAfter(job.sender, NonceOf(s, d.kind), e.replies))
  }

  ghost predicate TakenDuring(setup: Setup, s: System, events: seq<Event>, d: Done)
    decreases |events|
  {
    events != [] && (TakenBy(s, events[0], d) || TakenDuring(setup, Step(setup, s, events[0]), events[1..], d))
  }

  ghost predicate SenderOk(k: Kind, job: Job, handled: set<Done>) {
    && job.sender.phase in {N.Start, N.NonceRequest, N.TransactionRequest, N.Sent}
    && (job.sender.phase == N.Sent ==> Done(k, job.log, job.sender.transaction) in handled)
  }

  /** Between steps every transaction is not begun, waits for an answer, or has been taken. */
  ghost predicate SendersOk(s: System) {
    forall k: Kind :: PartSendersOk(k, s.parts.At(k), s.handled)
  }

  ghost predicate PartSendersOk(k: Kind, c: Component, handled: set<Done>) {
    c.phase.Sending? ==> forall i :: 0 <= i < |c.phase.jobs| ==> SenderOk(k, c.phase.jobs[i], handled)
  }

  /**
   * Polling a transaction adds it to what the nodes have taken exactly when the replies say so, and
   * ends the process exactly when a request was refused for good.
   */
  lemma {:induction false} JobOutcome(s: System, k: Kind, i: nat, replies: seq<N.Answer>)
    requires SendersOk(s) && !s.halted && s.parts.At(k).phase.Sending? && i < |s.parts.At(k).phase.jobs|
    ensures var job, t := s.parts.At(k).phase.jobs[i], OnJob(s, k, i, replies);
            && (forall d :: d in t.handled <==> d in s.handled || TakenBy(s, PollJob(k, i, replies), d))
            && (t.halted <==> job.sender.phase != N.Sent && N.IsRefused(job.sender.phase != N.NonceRequest, replies))
  {
    var job := s.parts.At(k).phase.jobs[i];
    assert PartSendersOk(k, s.parts.At(k), s.handled) && SenderOk(k, job, s.handled);
    if job.sender.phase != N.Sent {
      N.PollOutcome(job.sender, NonceOf(s, k), replies);
      N.OnlyNonceChanges(job.sender, NonceOf(s, k), replies);
      N.PollTakes(job.sender, NonceOf(s, k), replies);
    }
  }

  lemma {:induction false} JobKeepsSenders(s: System, k: Kind, i: nat, replies: seq<N.Answer>)
    requires SendersOk(s) && !s.halted && s.parts.At(k).phase.Sending? && i < |s.parts.At(k).phase.jobs|
    ensures SendersOk(OnJob(s, k, i, replies))
  {
    var job := s.parts.At(k).phase.jobs[i];
    assert PartSendersOk(k, s.parts.At(k), s.handled) && SenderOk(k, job, s.handled);
    if job.sender.phase != N.Sent {
      N.PollOutcome(job.sender, NonceOf(s, k), replies);
    }
    var t := OnJob(s, k, i, replies);
    forall j: Kind ensures PartSendersOk(j, t.parts.At(j), t.handled) {
      assert PartSendersOk(j, s.parts.At(j), s.handled);
    }
  }

  lemma {:induction false} PartKeepsSenders(s: System, k: Kind, c: Component)
    requires SendersOk(s) && PartSendersOk(k, c, s.handled)
    ensures SendersOk(WithPart(s, k, c))
  {
    forall j: Kind ensures PartSendersOk(j, WithPart(s, k, c).parts.At(j), s.handled) {
      assert PartSendersOk(j, s.parts.At(j), s.handled);
    }
  }

  ghost predicate TakesNothing(s: System, t: System) {
    SendersOk(t) && t.handled == s.handled
  }

  lemma {:induction false} SendTakesNothing(
    setup: Setup, s: System, k: Kind, stream: LS.Stream<Log>, block: uint64, logs: seq<Log>,
    txs: Option<seq<N.Transaction>>, balance: Option<nat>, gasPrice: uint64)
    requires SendersOk(s) && (txs.Some? ==> |txs.value| == |logs|)
    ensures TakesNothing(s, Send(setup, s, k, stream, block, logs, txs, balance, gasPrice))
  {
    if txs.Some? {
      PartKeepsSenders(s, k, Component(stream, Sending(Jobs(logs, txs.value), block)));
    }
  }

  lemma {:induction false} LogsTakeNothing(setup: Setup, s: System, e: Event)
    requires SendersOk(s) && e.PollLogs?
    ensures TakesNothing(s, Advance(setup, s, e))
  {
    var k, c := e.kind, s.parts.At(e.kind);
    if c.phase.Idle? {
      var (stream, r) := LS.Poll(c.stream, e.answers);
      PartKeepsSenders(s, k, c.(stream := stream));
      if r.Ready? && k.Relays? {
        PartKeepsSenders(s, k, Component(stream, Fetching(B.Own(setup.me, r.value.logs), r.value.to)));
      } else if r.Ready? {
        SendTakesNothing(setup, s, k, stream, r.value.to, r.value.logs,
                         Batch(setup, k, e.gasPrice, r.value.logs), e.balance, e.gasPrice);
      }
    }
  }

  lemma {:induction false} FetchingTakesNothing(setup: Setup, s: System, e: Event)
    requires SendersOk(s) && e.Fetched?
    ensures TakesNothing(s, Advance(setup, s, e))
  {
    var c := s.parts.At(e.kind);
    if c.phase.Fetching? && |e.messages| == |c.phase.logs| && |e.signatures| == |c.phase.logs| {
      SendTakesNothing(setup, s, e.kind, c.stream, c.phase.block, c.phase.logs,
                       B.RelayBatch(setup.settings.relays, e.messages, e.signatures), e.balance, e.gasPrice);
    }
  }

  lemma {:induction false} PhaseTakesNothing(setup: Setup, s: System, e: Event)
    requires SendersOk(s) && (e.Finish? || e.Emit? || e.Rearm?)
    ensures TakesNothing(s, Advance(setup, s, e))
  {
    PartKeepsSenders(s, e.kind, s.parts.At(e.kind).(phase := Idle));
    PartKeepsSenders(s, e.kind, s.parts.At(e.kind).(phase := Yielding(None)));
    if s.parts.At(e.kind).phase.Sending? {
      PartKeepsSenders(s, e.kind, s.parts.At(e.kind).(phase := Yielding(Some(s.parts.At(e.kind).phase.block))));
    }
  }

  lemma {:induction false} SavingTakesNothing(setup: Setup, s: System, e: Event)
    requires SendersOk(s) && (e.Persist? || e.Stop? || e.Restart?)
    ensures TakesNothing(s, Advance(setup, s, e))
  {
  }

  lemma {:induction false} RestartTakesNothing(setup: Setup, s: System, e: Event)
    requires SendersOk(s) && e.Restart?
    ensures TakesNothing(s, Step(setup, s, e))
  {
  }

  /** One step adds to what the nodes have taken exactly the transaction that its replies say they took. */
  lemma {:induction false} StepTakes(setup: Setup, s: System, e: Event)
    requires SendersOk(s)
    ensures SendersOk(Step(setup, s, e))
    ensures forall d :: d in Step(setup, s, e).handled <==> d in s.handled || TakenBy(s, e, d)
  {
    if e.Restart? {
      RestartTakesNothing(setup, s, e);
    } else if !s.halted {
      assert Step(setup, s, e) == Advance(setup, s, e);
      match e
      case PollLogs(_, _, _, _) => LogsTakeNothing(setup, s, e);
      case Fetched(_, _, _, _, _) => FetchingTakesNothing(setup, s, e);
      case PollJob(k, i, replies) =>
        if s.parts.At(k).phase.Sending? && i < |s.parts.At(k).phase.jobs| {
          JobOutcome(s, k, i, replies);
          JobKeepsSenders(s, k, i, replies);
          assert Advance(setup, s, e) == OnJob(s, k, i, replies);
        }
      case Finish(_) => PhaseTakesNothing(setup, s, e);
      case Emit(_) => PhaseTakesNothing(setup, s, e);
      case Rearm(_) => PhaseTakesNothing(setup, s, e);
      case _ => SavingTakesNothing(setup, s, e);
    }
  }

  /** A run adds to what the nodes have taken exactly the transactions that replies of the run say they took. */
  lemma {:induction false} RunTakes(setup: Setup, s: System, events: seq<Event>)
    requires SendersOk(s)
    ensures var t := Run(setup, s, events);
            SendersOk(t) && forall d :: d in t.handled <==> d in s.handled || TakenDuring(setup, s, events, d)
    decreases |events|
  {
    if events != [] {
      StepTakes(setup, s, events[0]);
      RunTakes(setup, Step(setup, s, events[0]), events[1..]);
    }
  }

  /** The checkpoints of a database. */
  function Checkpoints(db: D.Database): Trio<uint64> {
    Trio(db.depositRelay, db.withdrawRelay, db.withdrawConfirm)
  }

  /** The process as first started from a database that was saved before. */
  function FirstBoot(setup: Setup, db: D.Database, foreignNonce: uint256, homeNonce: uint256): System {
    Boot(setup, db, D.Print(db), foreignNonce, homeNonce, {})
  }

  lemma {:induction false} ReachableOk(
    v: View, db: D.Database, foreignNonce: uint256, homeNonce: uint256, events: seq<Event>) returns (disk: D.Database)
    requires v.start == Checkpoints(db) && HonestRun(v, FirstBoot(v.setup, db, foreignNonce, homeNonce), events)
    ensures Ok(v, Run(v.setup, FirstBoot(v.setup, db, foreignNonce, homeNonce), events), disk)
  {
    assert DatabaseOk(v, db, {});
    BootOk(v, db, D.Print(db), foreignNonce, homeNonce, {});
    disk := RunOk(v, FirstBoot(v.setup, db, foreignNonce, homeNonce), db, events);
  }

  /**
   * In every state reachable by any interleaving of steps, errors and restarts: the file can be loaded;
   * for its checkpoints and those in memory alike, every log since the first start up to the
   * checkpoint that this validator must handle has had a transaction accepted by the node or reported
   * imported, which means that the answers it got during the run say so; and while the process runs, the
   * file is exactly the printed database.
   */
  lemma {:induction false} CheckpointNeverAhead(
    v: View, db: D.Database, foreignNonce: uint256, homeNonce: uint256, events: seq<Event>)
    requires v.start == Checkpoints(db) && HonestRun(v, FirstBoot(v.setup, db, foreignNonce, homeNonce), events)
    ensures var end := Run(v.setup, FirstBoot(v.setup, db, foreignNonce, homeNonce), events);
            && D.Load(end.file).Some?
            && DatabaseOk(v, D.Load(end.file).value, end.handled)
            && DatabaseOk(v, end.db, end.handled)
            && Older(D.Load(end.file).value, end.db)
            && (!end.halted ==> end.file == D.Print(end.db))
            && forall d :: d in end.handled <==>
                 TakenDuring(v.setup, FirstBoot(v.setup, db, foreignNonce, homeNonce), events, d)
  {
    var disk := ReachableOk(v, db, foreignNonce, homeNonce, events);
    D.LoadPrinted(disk);
    RunTakes(v.setup, FirstBoot(v.setup, db, foreignNonce, homeNonce), events);
  }

  /**
   * In every reachable state, whatever was retried: every transaction on its way and every transaction
   * the nodes have taken is the one for its own log.
   */
  lemma {:induction false} TransactionsMatchLogs(
    v: View, db: D.Database, foreignNonce: uint256, homeNonce: uint256, events: seq<Event>)
    requires v.start == Checkpoints(db) && HonestRun(v, FirstBoot(v.setup, db, foreignNonce, homeNonce), events)
    ensures var end := Run(v.setup, FirstBoot(v.setup, db, foreignNonce, homeNonce), events);
            && (forall d :: d in end.handled ==> Content(v, d.kind, d.log, d.transaction))
            && (forall k: Kind, i :: end.parts.At(k).phase.Sending? && 0 <= i < |end.parts.At(k).phase.jobs| ==>
                  var job := end.parts.At(k).phase.jobs[i]; Content(v, k, job.log, job.sender.transaction))
  {
    var disk := ReachableOk(v, db, foreignNonce, homeNonce, events);
    var end := Run(v.setup, FirstBoot(v.setup, db, foreignNonce, homeNonce), events);
    forall k: Kind, i | end.parts.At(k).phase.Sending? && 0 <= i < |end.parts.At(k).phase.jobs|
      ensures var job := end.parts.At(k).phase.jobs[i]; Content(v, k, job.log, job.sender.transaction)
    {
      assert PartOk(v, k, end.parts.At(k), Checkpoint(end.db, k), end.handled);
      assert JobOk(v, k, end.parts.At(k).phase.jobs[i], end.handled);
    }
  }

  /** The process can be in this state: some honest run leads there from some saved database. */
  ghost predicate Reachable(v: View, s: System) {
    exists db, foreignNonce, homeNonce, events ::
      && v.start == Checkpoints(db)
      && HonestRun(v, FirstBoot(v.setup, db, foreignNonce, homeNonce), events)
      && s == Run(v.setup, FirstBoot(v.setup, db, foreignNonce, homeNonce), events)
  }

  lemma {:induction false} TakenIsContent(v: View, s: System, d: Done)
    requires Reachable(v, s) && d in s.handled
    ensures Content(v, d.kind, d.log, d.transaction)
  {
    var db, foreignNonce, homeNonce, events :|
      && v.start == Checkpoints(db)
      && HonestRun(v, FirstBoot(v.setup, db, foreignNonce, homeNonce), events)
      && s == Run(v.setup, FirstBoot(v.setup, db, foreignNonce, homeNonce), events);
    TransactionsMatchLogs(v, db, foreignNonce, homeNonce, events);
  }

  /** A withdraw the home node has taken carries what the foreign bridge holds for its log. */
  lemma {:induction false} TakenWithdrawCarries(v: View, s: System, d: Done)
    requires Reachable(v, s) && d in s.handled && d.kind.Relays?
    ensures d.log.event.SignaturesCollected?
    ensures B.Carries(v.node, d.transaction, d.log.event.messageHash, d.log.event.count % B.TWO_32)
    ensures d.log.event.count < B.TWO_32 ==> B.Carries(v.node, d.transaction, d.log.event.messageHash, d.log.event.count)
  {
    TakenIsContent(v, s, d);
    SmallCount(d.log);
  }

  lemma {:induction false} SmallCount(log: Log)
    requires log.event.SignaturesCollected?
    ensures log.event.count < B.TWO_32 ==> log.event.count % B.TWO_32 == log.event.count
  {
  }
}
