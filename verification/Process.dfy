/**
 * The assembled process: `Bridge` saving what the merged relays yield (bridge/src/bridge/mod.rs). Its
 * methods work on the objects in place and are proved to be runs of the interleaving model.
 */
module Process {
  import opened Wrappers
  import opened Bytes
  import opened SignatureCheck
  import P = Pipeline
  import R = Relays
  import opened Payloads
  import LS = LogStream
  import N = Nonce
  import D = Database

  /** The relays in these states have done what they can. */
  ghost predicate AllWaitIn(
    states: P.Trio<R.RelayState>, order: seq<P.Kind>, w: P.Trio<R.Surroundings>, streams: P.Trio<LS.Stream<Log>>,
    events: seq<P.Event>)
  {
    forall k :: k in order ==> R.WaitsIn(k, states.At(k), w.At(k), streams.At(k), events)
  }

  /** The relays that waited still do after another one is polled, which now waits too. */
  lemma {:induction false} NextWaits(
    states: P.Trio<R.RelayState>, next: P.Trio<R.RelayState>, order: seq<P.Kind>, i: nat,
    w: P.Trio<R.Surroundings>, streams: P.Trio<LS.Stream<Log>>, events: seq<P.Event>, more: seq<P.Event>)
    requires i < |order| && order[i] !in order[..i] && AllWaitIn(states, order[..i], w, streams, events)
    requires forall k: P.Kind :: k != order[i] ==> next.At(k) == states.At(k)
    requires R.WaitsIn(order[i], next.At(order[i]), w.At(order[i]), streams.At(order[i]), more)
    ensures AllWaitIn(next, order[..i + 1], w, streams, events + more)
  {
    forall k | k in order[..i + 1] ensures R.WaitsIn(k, next.At(k), w.At(k), streams.At(k), events + more) {
      R.WaitsStill(k, next.At(k), w.At(k), streams.At(k), if k == order[i] then more else events, events + more);
    }
  }

  class Process {
    const setup: P.Setup
    const relays: P.Trio<R.Relay>
    const homeNonce: N.NonceCell
    const foreignNonce: N.NonceCell
    const network: R.Network
    const bridge: D.Bridge
    ghost const initial: D.Database

    /** The relays share the network and, per chain, the nonce; nothing else is shared. */
    ghost predicate Assembled() {
      && (forall k: P.Kind ::
            var relay := relays.At(k);
            relay.setup == setup && relay.kind == k && relay.network == network
            && relay.node == (if k.Relays? then homeNonce else foreignNonce))
      && (forall j: P.Kind, k: P.Kind :: j != k ==> relays.At(j) != relays.At(k) && relays.At(j).logs != relays.At(k).logs)
      && homeNonce != foreignNonce
    }

    ghost function Objects(): set<object> {
      {bridge, network, homeNonce, foreignNonce,
       relays.deposits, relays.relays, relays.confirms,
       relays.deposits.logs, relays.relays.logs, relays.confirms.logs}
    }

    /** The objects hold the state `s`. */
    ghost predicate Holds(s: P.System)
      reads Objects()
    {
      && Assembled()
      && (forall k: P.Kind :: relays.At(k).PartOf(s))
      && bridge.database == s.db && bridge.file == s.file
    }

    /** `create_bridge`: every relay starts at the checkpoint in the database. */
    constructor (setup: P.Setup, db: D.Database)
      ensures this.setup == setup && initial == db
      ensures Left(P.FirstBoot(setup, db, 0, 0), false)
    {
      this.setup := setup;
      var home := new N.NonceCell();
      var foreign := new N.NonceCell();
      var nodes := new R.Network();
      var deposits := new R.Relay(setup, P.Deposits, foreign, nodes, db.depositRelay);
      var withdraws := new R.Relay(setup, P.Relays, home, nodes, db.withdrawRelay);
      var confirms := new R.Relay(setup, P.Confirms, foreign, nodes, db.withdrawConfirm);
      homeNonce, foreignNonce, network := home, foreign, nodes;
      relays := P.Trio(deposits, withdraws, confirms);
      bridge := new D.Bridge(db, D.Print(db));
      initial := db;
    }

    /** One relay is polled. */
    method PollRelay(k: P.Kind, w: R.Surroundings, ghost s: P.System, ghost v: P.View)
      returns (r: Polled<uint64>, ghost events: seq<P.Event>, ghost t: P.System)
      requires Holds(s) && v.setup == setup
      modifies Objects() - {bridge}
      ensures R.Ran(v, s, events, t, R.Honest(v, k, old(relays.At(k).logs.Value()), w))
      ensures t.handled == network.handled && t.db == s.db && t.file == s.file
      ensures match r
              case NotReady => Holds(t) && relays.At(k).Waits(w, old(relays.At(k).logs.Value()), events)
              case Ready(block) => t.held == Some((k, block)) && Holds(t.(held := None))
              case Failed => t.halted
      ensures P.Stop in events ==> relays.At(k).CallFailed(w)
      ensures forall j: P.Kind :: j != k ==> relays.At(j).State() == old(relays.At(j).State())
    {
      var relay := relays.At(k);
      assert relay.PartOf(s);
      r, events, t := relay.Poll(w, s, v);
      if !r.Failed? {
        forall j: P.Kind ensures relays.At(j).PartOf(t.(held := None)) {
        }
      }
    }

    /** The nodes answer the relays honestly. */
    ghost predicate HonestNodes(v: P.View, w: P.Trio<R.Surroundings>)
      reads Objects()
    {
      forall k: P.Kind :: R.Honest(v, k, relays.At(k).logs.Value(), w.At(k))
    }

    /** A step has left the process in state `t`, which is halted if it failed. */
    ghost predicate Left(t: P.System, failed: bool)
      reads Objects()
    {
      && t.handled == network.handled && t.file == bridge.file
      && (if failed then t.halted else Holds(t))
    }

    /** The checkpoint in hand is recorded and saved. */
    method Persist(k: P.Kind, block: uint64, writable: bool, ghost s: P.System) returns (ok: bool)
      requires s.held == Some((k, block)) && Holds(s.(held := None)) && !s.halted
      modifies bridge
      ensures Left(P.Step(setup, s, P.Persist(writable)), !ok) && (ok ==> writable)
    {
      assert relays.At(k).PartOf(s.(held := None));
      ok := bridge.Save(P.CheckOf(k, block), writable);
      ghost var t := P.Step(setup, s, P.Persist(writable));
      forall j: P.Kind | ok ensures relays.At(j).PartOf(t) {
        assert relays.At(j).PartOf(s.(held := None));
      }
    }

    static lemma {:induction false} PersistRan(
      v: P.View, s: P.System, events: seq<P.Event>, t: P.System, writable: bool, honest: bool)
      requires R.Ran(v, s, events, t, honest)
      ensures R.Ran(v, s, events + [P.Persist(writable)], P.Step(v.setup, t, P.Persist(writable)), honest)
      ensures P.Stop in events + [P.Persist(writable)] ==> P.Stop in events
      ensures writable ==> Saved(events + [P.Persist(writable)])
    {
      var e := P.Persist(writable);
      P.RunOne(v, t, e);
      R.RanOn(v, s, events, t, [e], P.Step(v.setup, t, e), honest);
    }

    /** One relay is polled, and what it yields is saved. */
    method PollAndSave(k: P.Kind, w: R.Surroundings, writable: bool, ghost s: P.System, ghost v: P.View)
      returns (r: Polled<()>, ghost events: seq<P.Event>, ghost t: P.System)
      requires Holds(s) && v.setup == setup
      modifies Objects()
      ensures R.Ran(v, s, events, t, R.Honest(v, k, old(relays.At(k).logs.Value()), w)) && Left(t, r.Failed?)
      ensures r.NotReady? ==> relays.At(k).Waits(w, old(relays.At(k).logs.Value()), events)
      ensures r.Ready? ==> Saved(events)
      ensures P.Stop in events ==> relays.At(k).CallFailed(w)
      ensures forall j: P.Kind :: j != k ==> relays.At(j).State() == old(relays.At(j).State())
    {
      ghost var honest := R.Honest(v, k, relays.At(k).logs.Value(), w);
      var polled;
      polled, events, t := PollRelay(k, w, s, v);
      if polled.Ready? {
        var saved := Persist(k, polled.value, writable, t);
        PersistRan(v, s, events, t, writable, honest);
        events, t := events + [P.Persist(writable)], P.Step(setup, t, P.Persist(writable));
        return if saved then Ready(()) else Failed, events, t;
      }
      r := if polled.Failed? then Failed else NotReady;
    }

    ghost function Streams(): P.Trio<LS.Stream<Log>>
      reads Objects()
    {
      P.Trio(relays.deposits.logs.Value(), relays.relays.logs.Value(), relays.confirms.logs.Value())
    }

    /** With the log streams as they were, and after these events, the relays have done what they can. */
    ghost predicate AllWait(
      order: seq<P.Kind>, w: P.Trio<R.Surroundings>, streams: P.Trio<LS.Stream<Log>>, events: seq<P.Event>)
      reads Objects()
    {
      AllWaitIn(States(), order, w, streams, events)
    }

    ghost function States(): P.Trio<R.RelayState>
      reads Objects()
    {
      P.Trio(relays.deposits.State(), relays.relays.State(), relays.confirms.State())
    }

    /** The last thing that happened was that the file was written. */
    static ghost predicate Saved(events: seq<P.Event>) {
      events != [] && events[|events| - 1] == P.Persist(true)
    }

    /**
     * The merged stream polls its relays, each at most once, in the given order until one yields, which is
     * saved. If none does, every one of them has done what it can.
     */
    method PollInOrder(order: seq<P.Kind>, w: P.Trio<R.Surroundings>, writable: bool, ghost s: P.System, ghost v: P.View)
      returns (r: Polled<()>, ghost events: seq<P.Event>, ghost t: P.System)
      requires Distinct(order) && Holds(s) && v.setup == setup && HonestNodes(v, w)
      modifies Objects()
      ensures R.Ran(v, s, events, t, true) && Left(t, r.Failed?)
      ensures r.Ready? ==> Saved(events)
      ensures r.NotReady? ==> AllWait(order, w, old(Streams()), events)
    {
      events, t := [], s;
      ghost var streams := Streams();
      assert relays.At(P.Deposits).PartOf(s);
      for i := 0 to |order|
        invariant Holds(t) && Left(t, false) && R.Ran(v, s, events, t, true)
        invariant forall k: P.Kind :: k !in order[..i] ==> relays.At(k).logs.Value() == streams.At(k)
        invariant AllWait(order[..i], w, streams, events)
      {
        var k := order[i];
        assert k !in order[..i];
        ghost var more, u, states := [], t, States();
        r, more, u := PollAndSave(k, w.At(k), writable, t, v);
        R.RanOn(v, s, events, t, more, u, true);
        if r.NotReady? {
          NextWaits(states, States(), order, i, w, streams, events, more);
        }
        events, t := events + more, u;
        if !r.NotReady? {
          return;
        }
      }
      return NotReady, events, t;
    }

    /** Doing all this since the first start has been an honest run of the process model, ending in this state. */
    ghost predicate Ran(v: P.View, history: seq<P.Event>, failed: bool)
      reads Objects()
    {
      var first := P.FirstBoot(setup, initial, 0, 0);
      P.HonestRun(v, first, history) && Left(P.Run(setup, first, history), failed)
    }

    lemma {:induction false} NewHasRan(v: P.View)
      requires Left(P.FirstBoot(setup, initial, 0, 0), false)
      ensures Ran(v, [], false)
    {
    }

    /**
     * The file can be loaded; every log since the start up to a checkpoint in it that this validator must
     * handle was taken by the node; and every transaction taken was the one for its own log.
     */
    ghost predicate FileSafe(v: P.View)
      reads bridge, network
    {
      var disk := D.Load(bridge.file);
      disk.Some? && P.DatabaseOk(v, disk.value, network.handled) && P.DoneOk(v, network.handled)
    }

    lemma {:induction false} FileNeverAhead(v: P.View, history: seq<P.Event>, failed: bool)
      requires Ran(v, history, failed) && v.setup == setup && v.start == P.Checkpoints(initial)
      ensures FileSafe(v)
    {
      P.CheckpointNeverAhead(v, initial, 0, 0, history);
      P.TransactionsMatchLogs(v, initial, 0, 0, history);
    }

    /** A poll goes on with the run of the process model. */
    method PollOn(order: seq<P.Kind>, w: P.Trio<R.Surroundings>, writable: bool, ghost v: P.View, ghost history: seq<P.Event>)
      returns (r: Polled<()>, ghost events: seq<P.Event>)
      requires Distinct(order) && v.setup == setup && Ran(v, history, false) && HonestNodes(v, w)
      modifies Objects()
      ensures Ran(v, history + events, r.Failed?)
      ensures r.Ready? ==> Saved(events)
      ensures r.NotReady? ==> AllWait(order, w, old(Streams()), events)
    {
      ghost var first := P.FirstBoot(setup, initial, 0, 0);
      ghost var t;
      r, events, t := PollInOrder(order, w, writable, P.Run(setup, first, history), v);
      P.RunConcat(v, first, history, events);
    }

    /**
     * `Bridge::poll`. After every poll, failed ones included, the file can be loaded, no checkpoint in it is
     * ahead of the work done, and the work done was the right one.
     */
    method Poll(order: seq<P.Kind>, w: P.Trio<R.Surroundings>, writable: bool, ghost v: P.View, ghost history: seq<P.Event>)
      returns (r: Polled<()>, ghost events: seq<P.Event>)
      requires Distinct(order) && v.setup == setup && v.start == P.Checkpoints(initial)
      requires Ran(v, history, false) && HonestNodes(v, w)
      modifies Objects()
      ensures Ran(v, history + events, r.Failed?) && FileSafe(v)
      ensures r.Ready? ==> Saved(events)
      ensures r.NotReady? ==> AllWait(order, w, old(Streams()), events)
    {
      r, events := PollOn(order, w, writable, v, history);
      FileNeverAhead(v, history + events, r.Failed?);
    }
  }
}
