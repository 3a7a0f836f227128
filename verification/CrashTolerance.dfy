/**
 * Many validators relaying home deposits to one foreign bridge: honest ones run the relayer process,
 * fail and restart at will; the others send what they like; transactions are executed in any order,
 * any number of times, or never.
 */
module CrashTolerance {
  import opened Wrappers
  import opened Bytes
  import opened Evm
  import opened SignatureCheck
  import opened Payloads
  import F = Foreign
  import P = Pipeline
  import N = Nonce
  import D = Database
  import B = Batches

  /** `history` is what the foreign bridge was asked so far; `pool` the deposit confirmations sent to the network. */
  datatype World = World(nodes: map<Address, P.System>, pool: set<(Address, F.Order)>, history: seq<F.Transaction>)

  datatype Move =
    | Process(validator: Address, event: P.Event)
    | Broadcast(validator: Address, job: nat)
    | Forge(sender: Address, order: F.Order)
    | Execute(sender: Address, order: F.Order, authority: Authority, recipientAccepts: bool)
    | OtherCall(tx: F.Transaction)

  /**
   * What stays the same: signature recovery, the foreign bridge's address and answers, the chains, and the
   * configuration, keys and first checkpoints of the validators.
   */
  datatype Rules = Rules(
    rec: Recover, bridge: Address, node: B.Node, chain: P.Chain, confirmations: P.Trio<uint64>,
    settings: P.Trio<B.Settings>, sign: Address -> B.Sign, start: P.Trio<uint64>)

  function SetupOf(r: Rules, validator: Address): P.Setup {
    P.Setup(validator, r.confirmations, r.settings, r.sign(validator))
  }

  function ViewOf(r: Rules, validator: Address): P.View {
    P.View(SetupOf(r, validator), r.chain, r.node, r.start)
  }

  function Contract(r: Rules, w: World): F.State {
    F.Run(r.rec, F.Deployed(r.bridge), w.history)
  }

  /** A move is possible: processes exist, broadcasts are jobs being sent, only others forge, execution is of something sent. */
  ghost predicate Possible(r: Rules, w: World, m: Move) {
    match m
    case Process(v, e) => v in w.nodes && P.HonestStep(ViewOf(r, v), w.nodes[v], e)
    case Broadcast(v, i) =>
      && v in w.nodes
      && var phase := w.nodes[v].parts.deposits.phase;
         phase.Sending? && i < |phase.jobs| && phase.jobs[i].sender.transaction.data.DepositCall?
    case Forge(sender, _) => sender !in w.nodes
    case Execute(sender, order, _, _) => (sender, order) in w.pool
    case OtherCall(tx) => !tx.call.ConfirmDeposit?
  }

  ghost function Step(r: Rules, w: World, m: Move): World
    requires Possible(r, w, m)
  {
    match m
    case Process(v, e) => w.(nodes := w.nodes[v := P.Step(SetupOf(r, v), w.nodes[v], e)])
    case Broadcast(v, i) =>
      w.(pool := w.pool + {(v, w.nodes[v].parts.deposits.phase.jobs[i].sender.transaction.data.order)})
    case Forge(sender, order) => w.(pool := w.pool + {(sender, order)})
    case Execute(sender, order, authority, accepts) =>
      w.(history := w.history + [F.Transaction(sender, authority, F.ConfirmDeposit(order, accepts))])
    case OtherCall(tx) => w.(history := w.history + [tx])
  }

  ghost predicate PossibleRun(r: Rules, w: World, moves: seq<Move>)
    decreases |moves|
  {
    moves == [] || (Possible(r, w, moves[0]) && PossibleRun(r, Step(r, w, moves[0]), moves[1..]))
  }

  ghost function Run(r: Rules, w: World, moves: seq<Move>): World
    requires PossibleRun(r, w, moves)
    decreases |moves|
  {
    if moves == [] then w else Run(r, Step(r, w, moves[0]), moves[1..])
  }

  /* What honest processes send. */

  /** The order was made on the home chain. */
  ghost predicate Made(r: Rules, order: F.Order) {
    exists b: nat, log :: log in r.chain(P.Deposits, b) && B.IsOrderOf(log, order)
  }

  ghost predicate NodeOk(r: Rules, v: Address, s: P.System) {
    exists disk :: P.Ok(ViewOf(r, v), s, disk)
  }

  ghost predicate AllNodes(ok: (Address, P.System) -> bool, nodes: map<Address, P.System>) {
    forall v :: v in nodes ==> ok(v, nodes[v])
  }

  ghost function Okay(r: Rules): (Address, P.System) -> bool {
    (v: Address, s: P.System) => NodeOk(r, v, s)
  }

  ghost predicate NodesOk(r: Rules, nodes: map<Address, P.System>) {
    AllNodes(Okay(r), nodes)
  }

  /** Everything an honest validator has in the pool is genuine, and only what is in the pool is executed. */
  ghost predicate PoolOk(r: Rules, honest: set<Address>, pool: set<(Address, F.Order)>, history: seq<F.Transaction>) {
    && (forall a, order :: (a, order) in pool && a in honest ==> Made(r, order))
    && (forall i :: 0 <= i < |history| && history[i].call.ConfirmDeposit? ==>
          (history[i].sender, history[i].call.order) in pool)
  }

  ghost predicate WorldOk(r: Rules, w: World) {
    NodesOk(r, w.nodes) && PoolOk(r, w.nodes.Keys, w.pool, w.history)
  }

  lemma {:induction false} ProcessOk(r: Rules, v: Address, s: P.System, e: P.Event)
    requires NodeOk(r, v, s) && P.HonestStep(ViewOf(r, v), s, e)
    ensures NodeOk(r, v, P.Step(SetupOf(r, v), s, e))
  {
    var view := ViewOf(r, v);
    var disk :| P.Ok(view, s, disk);
    var next := P.StepOk(view, s, disk, e);
  }

  lemma {:induction false} BroadcastOk(r: Rules, v: Address, s: P.System, i: nat)
    requires NodeOk(r, v, s) && s.parts.deposits.phase.Sending? && i < |s.parts.deposits.phase.jobs|
    ensures var data := s.parts.deposits.phase.jobs[i].sender.transaction.data;
            data.DepositCall? && Made(r, data.order)
  {
    var view, job := ViewOf(r, v), s.parts.deposits.phase.jobs[i];
    var disk :| P.Ok(view, s, disk);
    assert P.PartOk(view, P.Deposits, s.parts.At(P.Deposits), P.Checkpoint(s.db, P.Deposits), s.handled);
    assert P.JobOk(view, P.Deposits, job, s.handled);
    assert P.Logged(view, P.Deposits, job.log);
  }

  lemma {:induction false} NodeReplaced(ok: (Address, P.System) -> bool, nodes: map<Address, P.System>, v: Address, s: P.System)
    requires AllNodes(ok, nodes) && v in nodes && ok(v, s)
    ensures AllNodes(ok, nodes[v := s]) && nodes[v := s].Keys == nodes.Keys
  {
  }

  lemma {:induction false} PoolGrows(
    r: Rules, honest: set<Address>, pool: set<(Address, F.Order)>, history: seq<F.Transaction>, a: Address, order: F.Order)
    requires PoolOk(r, honest, pool, history) && (a in honest ==> Made(r, order))
    ensures PoolOk(r, honest, pool + {(a, order)}, history)
  {
  }

  lemma {:induction false} HistoryGrows(
    r: Rules, honest: set<Address>, pool: set<(Address, F.Order)>, history: seq<F.Transaction>, tx: F.Transaction)
    requires PoolOk(r, honest, pool, history) && (tx.call.ConfirmDeposit? ==> (tx.sender, tx.call.order) in pool)
    ensures PoolOk(r, honest, pool, history + [tx])
  {
  }

  lemma {:induction false} StepOk(r: Rules, w: World, m: Move)
    requires WorldOk(r, w) && Possible(r, w, m)
    ensures WorldOk(r, Step(r, w, m)) && Step(r, w, m).nodes.Keys == w.nodes.Keys
  {
    match m
    case Process(v, e) =>
      ProcessOk(r, v, w.nodes[v], e);
      NodeReplaced(Okay(r), w.nodes, v, P.Step(SetupOf(r, v), w.nodes[v], e));
    case Broadcast(v, i) =>
      BroadcastOk(r, v, w.nodes[v], i);
      PoolGrows(r, w.nodes.Keys, w.pool, w.history, v,
                w.nodes[v].parts.deposits.phase.jobs[i].sender.transaction.data.order);
    case Forge(sender, order) => PoolGrows(r, w.nodes.Keys, w.pool, w.history, sender, order);
    case Execute(sender, order, authority, accepts) =>
      HistoryGrows(r, w.nodes.Keys, w.pool, w.history,
                   F.Transaction(sender, authority, F.ConfirmDeposit(order, accepts)));
    case OtherCall(tx) => HistoryGrows(r, w.nodes.Keys, w.pool, w.history, tx);
  }

  lemma {:induction false} RunOk(r: Rules, w: World, moves: seq<Move>)
    requires WorldOk(r, w) && PossibleRun(r, w, moves)
    ensures WorldOk(r, Run(r, w, moves)) && Run(r, w, moves).nodes.Keys == w.nodes.Keys
    decreases |moves|
  {
    if moves != [] {
      StepOk(r, w, moves[0]);
      RunOk(r, Step(r, w, moves[0]), moves[1..]);
    }
  }

  /** Every process freshly started from its own database, all with the same initial checkpoints. */
  ghost predicate Fresh(r: Rules, w: World, dbs: map<Address, D.Database>) {
    && w.pool == {} && w.history == [] && w.nodes.Keys == dbs.Keys
    && forall v :: v in dbs ==>
         && P.Checkpoints(dbs[v]) == r.start
         && w.nodes[v] == P.FirstBoot(SetupOf(r, v), dbs[v], 0, 0)
  }

  lemma {:induction false} FreshOk(r: Rules, w: World, dbs: map<Address, D.Database>)
    requires Fresh(r, w, dbs)
    ensures WorldOk(r, w)
  {
    forall v | v in w.nodes ensures NodeOk(r, v, w.nodes[v]) {
      BootNodeOk(r, v, dbs[v]);
    }
  }

  lemma {:induction false} BootNodeOk(r: Rules, v: Address, db: D.Database)
    requires P.Checkpoints(db) == r.start
    ensures NodeOk(r, v, P.FirstBoot(SetupOf(r, v), db, 0, 0))
  {
    assert P.HonestRun(ViewOf(r, v), P.FirstBoot(SetupOf(r, v), db, 0, 0), []);
    var disk := P.ReachableOk(ViewOf(r, v), db, 0, 0, []);
  }

  /** The validators during the run: those running the process, and at most `faulty` besides. */
  ghost predicate ValidatorsWithin(w: World, honest: set<Address>, faulty: set<Address>) {
    forall i :: 0 <= i < |w.history| ==> w.history[i].authority.active <= honest + faulty
  }

  /**
   * The order has been paid once if it has `n` confirmers and not at all otherwise; the confirmers are
   * distinct and relayed it; and if fewer than `n` validators are not honest, a paid order was made on
   * the home chain.
   */
  ghost predicate OrderSafe(r: Rules, w: World, n: nat, faulty: set<Address>, order: F.Order) {
    var t := Contract(r, w);
    && F.Payments(t.events, order) == (if |F.Confirmers(t, order)| >= n then 1 else 0)
    && |Elements(F.Confirmers(t, order))| == |F.Confirmers(t, order)|
    && (forall a :: a in F.Confirmers(t, order) ==> (a, order) in w.pool)
    && (F.Payments(t.events, order) == 1 && ValidatorsWithin(w, w.nodes.Keys, faulty) && |faulty| < n ==> Made(r, order))
  }

  /**
   * What a process has on disk can be loaded, no checkpoint in it is ahead of the work done, and every
   * transaction the nodes have taken is the one for its own log.
   */
  ghost predicate DiskSafe(r: Rules, v: Address, s: P.System) {
    var disk := D.Load(s.file);
    disk.Some? && P.DatabaseOk(ViewOf(r, v), disk.value, s.handled) && P.DoneOk(ViewOf(r, v), s.handled)
  }

  /**
   * For any number of processes that fail and restart from their files at any point, in any
   * interleaving, and with a fixed threshold `n`: every order is safe and so is every file.
   */
  lemma {:induction false} CrashTolerantDeposits(
    r: Rules, w: World, dbs: map<Address, D.Database>, moves: seq<Move>, n: nat, faulty: set<Address>, order: F.Order)
    requires Fresh(r, w, dbs) && PossibleRun(r, w, moves) && n > 0
    requires F.FixedThreshold(Run(r, w, moves).history, n)
    ensures OrderSafe(r, Run(r, w, moves), n, faulty, order)
    ensures forall v :: v in dbs ==> v in Run(r, w, moves).nodes && DiskSafe(r, v, Run(r, w, moves).nodes[v])
  {
    FreshOk(r, w, dbs);
    RunOk(r, w, moves);
    OkIsSafe(r, Run(r, w, moves), n, faulty, order);
  }

  lemma {:induction false} OkIsSafe(r: Rules, w: World, n: nat, faulty: set<Address>, order: F.Order)
    requires WorldOk(r, w) && F.FixedThreshold(w.history, n) && n > 0
    ensures OrderSafe(r, w, n, faulty, order)
    ensures forall v :: v in w.nodes ==> DiskSafe(r, v, w.nodes[v])
  {
    F.DepositSafety(r.rec, r.bridge, w.history, n, order);
    ConfirmersInPool(r, w, n, order);
    if |F.Confirmers(Contract(r, w), order)| >= n && ValidatorsWithin(w, w.nodes.Keys, faulty) && |faulty| < n {
      QuorumHasHonest(r, w, n, faulty, order);
    }
    forall v | v in w.nodes ensures DiskSafe(r, v, w.nodes[v]) {
      NodeDiskSafe(r, v, w.nodes[v]);
    }
  }

  lemma {:induction false} NodeDiskSafe(r: Rules, v: Address, s: P.System)
    requires NodeOk(r, v, s)
    ensures DiskSafe(r, v, s)
  {
    var disk :| P.Ok(ViewOf(r, v), s, disk);
    D.LoadPrinted(disk);
  }

  lemma {:induction false} ConfirmersInPool(r: Rules, w: World, n: nat, order: F.Order)
    requires WorldOk(r, w) && F.FixedThreshold(w.history, n) && n > 0
    ensures forall a :: a in F.Confirmers(Contract(r, w), order) ==> (a, order) in w.pool
  {
    F.DepositSafety(r.rec, r.bridge, w.history, n, order);
    forall a | a in F.Confirmers(Contract(r, w), order) ensures (a, order) in w.pool {
      assert F.Relayed(w.history, a, order);
    }
  }

  /** More confirmers than dishonest validators: one of them is honest, and honest ones relay real deposits. */
  lemma {:induction false} QuorumHasHonest(r: Rules, w: World, n: nat, faulty: set<Address>, order: F.Order)
    requires WorldOk(r, w) && F.FixedThreshold(w.history, n) && n > 0
    requires ValidatorsWithin(w, w.nodes.Keys, faulty) && |faulty| < n
    requires |F.Confirmers(Contract(r, w), order)| >= n
    ensures Made(r, order)
  {
    var confirmers := F.Confirmers(Contract(r, w), order);
    F.DepositSafety(r.rec, r.bridge, w.history, n, order);
    ConfirmersInPool(r, w, n, order);
    if !Made(r, order) {
      forall a | a in confirmers ensures a in faulty {
        assert F.Relayed(w.history, a, order);
        assert a !in w.nodes;
      }
      SubsetOfSize(Elements(confirmers), faulty);
    }
  }

  /** Executing a confirmation again, as after a restart, leaves the contract as it was. */
  lemma {:induction false} ReplayedConfirmation(r: Rules, w: World, m: Move)
    requires m.Execute? && Possible(r, w, m)
    requires m.sender in F.Confirmers(Contract(r, w), m.order)
    ensures Contract(r, Step(r, w, m)) == Contract(r, w)
  {
    var tx := F.Transaction(m.sender, m.authority, F.ConfirmDeposit(m.order, m.recipientAccepts));
    RunAppend(r.rec, F.Deployed(r.bridge), w.history, tx);
    F.ResentConfirmation(r.rec, Contract(r, w), [], tx);
  }

  lemma {:induction false} RunAppend(rec: Recover, s: F.State, txs: seq<F.Transaction>, tx: F.Transaction)
    ensures F.Run(rec, s, txs + [tx]) == F.StepOrStay(rec, F.Run(rec, s, txs), tx)
    decreases |txs|
  {
    if txs == [] {
      assert [] + [tx] == [tx];
      assert F.Run(rec, s, [tx]) == F.StepOrStay(rec, s, tx);
    } else {
      assert (txs + [tx])[1..] == txs[1..] + [tx];
      RunAppend(rec, F.StepOrStay(rec, s, txs[0]), txs[1..], tx);
    }
  }
}
