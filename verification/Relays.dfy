/**
 * The loops of `DepositRelay::poll`, `WithdrawRelay::poll` and `WithdrawConfirm::poll`, each a run of the
 * interleaving model of the process, so that what every interleaving keeps, these loops keep.
 */
module Relays {
  import opened Wrappers
  import opened Bytes
  import opened Evm
  import opened Payloads
  import opened Funding
  import P = Pipeline
  import LS = LogStream
  import N = Nonce
  import B = Batches

  /**
   * What the outside has to say during one poll: to the log stream, about balance and gas price, to
   * the calls of the contract's views, and to the transactions woken, in the order they are.
   */
  datatype Surroundings = Surroundings(
    logs: seq<LS.Response<Log>>, balance: Option<nat>, gasPrice: uint64,
    calls: B.Query -> Polled<Option<seq<byte>>>, woken: seq<(nat, seq<N.Answer>)>)

  /** `join_all`: one result per call, in the order of the calls; a failed call fails it. */
  function JoinAll<Q, A>(calls: seq<Q>, answer: Q -> Polled<A>): (r: Polled<seq<A>>)
    ensures r.Ready? ==> |r.value| == |calls| && forall i :: 0 <= i < |calls| ==> answer(calls[i]) == Ready(r.value[i])
    ensures r.Failed? <==> exists i :: 0 <= i < |calls| && answer(calls[i]).Failed?
  {
    if calls == [] then Ready([])
    else
      var n := |calls| - 1;
      var front, last := JoinAll(calls[..n], answer), answer(calls[n]);
      if front.Failed? || last.Failed? then Failed
      else if front.NotReady? || last.NotReady? then NotReady
      else Ready(front.value + [last.value])
  }

  /** The join is ready as soon as every call is. */
  lemma {:induction false} JoinReady<Q, A>(calls: seq<Q>, answer: Q -> Polled<A>)
    ensures JoinAll(calls, answer).Ready? <==> forall i :: 0 <= i < |calls| ==> answer(calls[i]).Ready?
    decreases |calls|
  {
    if calls != [] {
      var n := |calls| - 1;
      JoinReady(calls[..n], answer);
      assert forall i :: 0 <= i < n ==> calls[..n][i] == calls[i];
      if JoinAll(calls[..n], answer).Ready? && answer(calls[n]).Ready? {
        forall i | 0 <= i < |calls| ensures answer(calls[i]).Ready? {
          assert i < n ==> answer(calls[..n][i]).Ready?;
        }
      }
    }
  }

  /** `join_all` over the joined calls of each assignment. */
  function JoinEach(calls: seq<seq<B.Query>>, answer: B.Query -> Polled<Option<seq<byte>>>):
    (r: Polled<seq<seq<Option<seq<byte>>>>>)
    ensures r.Ready? ==> |r.value| == |calls| && forall k :: 0 <= k < |calls| ==> JoinAll(calls[k], answer) == Ready(r.value[k])
  {
    JoinAll(calls, (queries: seq<B.Query>) => JoinAll(queries, answer))
  }

  lemma {:induction false} JoinEachOutcome(calls: seq<seq<B.Query>>, answer: B.Query -> Polled<Option<seq<byte>>>)
    ensures JoinEach(calls, answer).Ready? <==> forall k :: 0 <= k < |calls| ==> JoinAll(calls[k], answer).Ready?
    ensures JoinEach(calls, answer).Failed? <==> exists k :: 0 <= k < |calls| && JoinAll(calls[k], answer).Failed?
  {
    var join := (queries: seq<B.Query>) => JoinAll(queries, answer);
    assert JoinEach(calls, answer) == JoinAll(calls, join);
    JoinReady(calls, join);
  }

  /** Both joins: the messages and the signatures of every assignment. */
  function JoinBoth(calls: (seq<seq<B.Query>>, seq<B.Query>), answer: B.Query -> Polled<Option<seq<byte>>>):
    Polled<(seq<Option<seq<byte>>>, seq<seq<Option<seq<byte>>>>)>
  {
    match (JoinAll(calls.1, answer), JoinEach(calls.0, answer))
    case (Ready(messages), Ready(signatures)) => Ready((messages, signatures))
    case (Failed, _) => Failed
    case (_, Failed) => Failed
    case _ => NotReady
  }

  /** The joins fail as soon as one call fails and are ready once all are. */
  lemma {:induction false} JoinBothOutcome(
    calls: (seq<seq<B.Query>>, seq<B.Query>), answer: B.Query -> Polled<Option<seq<byte>>>)
    ensures JoinBoth(calls, answer).Ready? <==>
            && (forall k :: 0 <= k < |calls.1| ==> answer(calls.1[k]).Ready?)
            && forall k, j :: 0 <= k < |calls.0| && 0 <= j < |calls.0[k]| ==> answer(calls.0[k][j]).Ready?
    ensures JoinBoth(calls, answer).Failed? <==>
            || (exists k :: 0 <= k < |calls.1| && answer(calls.1[k]).Failed?)
            || exists k, j :: 0 <= k < |calls.0| && 0 <= j < |calls.0[k]| && answer(calls.0[k][j]).Failed?
  {
    JoinReady(calls.1, answer);
    JoinEachOutcome(calls.0, answer);
    forall k | 0 <= k < |calls.0|
      ensures JoinAll(calls.0[k], answer).Ready? <==> forall j :: 0 <= j < |calls.0[k]| ==> answer(calls.0[k][j]).Ready?
    {
      JoinReady(calls.0[k], answer);
    }
  }

  function Transactions(jobs: seq<P.Job>): (txs: seq<N.Transaction>)
    ensures |txs| == |jobs|
    ensures forall i :: 0 <= i < |jobs| ==> txs[i] == jobs[i].sender.transaction
  {
    seq(|jobs|, i requires 0 <= i < |jobs| => jobs[i].sender.transaction)
  }

  /** The calls are those for the messages and signatures of the logs. */
  ghost predicate CallsFor(calls: (seq<seq<B.Query>>, seq<B.Query>), logs: seq<Log>) {
    && |calls.0| == |logs| && |calls.1| == |logs|
    && forall k :: 0 <= k < |logs| ==>
         && logs[k].event.SignaturesCollected?
         && B.Assignment(calls.0[k], calls.1[k]) == B.AssignmentFor(logs[k].event.messageHash, logs[k].event.count)
  }

  /** The calls that have been answered were answered by `node`. */
  ghost predicate AnsweredBy(calls: B.Query -> Polled<Option<seq<byte>>>, node: B.Node) {
    forall q :: calls(q).Ready? ==> calls(q).value == node(q)
  }

  lemma {:induction false} AssignmentsFor(me: Address, logs: seq<Log>)
    requires B.Assignments(me, logs).Some?
    ensures CallsFor(B.Assignments(me, logs).value, B.Own(me, logs))
  {
    var found := B.Collect(B.Map(logs, log => B.SignaturesPayload(me, log))).value;
    B.AssignmentsAreOwn(me, logs, found);
  }

  lemma {:induction false} JoinedSignatures(
    node: B.Node, answer: B.Query -> Polled<Option<seq<byte>>>, hash: Digest, count: uint256, raw: seq<Option<seq<byte>>>)
    requires AnsweredBy(answer, node) && JoinAll(B.AssignmentFor(hash, count).signatures, answer) == Ready(raw)
    ensures |raw| == count % B.TWO_32
    ensures forall j :: 0 <= j < |raw| ==> raw[j] == node(B.SignatureQuery(hash, j))
  {
    var queries := B.AssignmentFor(hash, count).signatures;
    forall j | 0 <= j < |raw| ensures raw[j] == node(B.SignatureQuery(hash, j)) {
      assert queries[j] == B.SignatureQuery(hash, j) && answer(queries[j]) == Ready(raw[j]);
    }
  }

  /** Joined answers of a node are its answers for the logs the calls were made for. */
  lemma {:induction false} JoinedAnswers(
    node: B.Node, answer: B.Query -> Polled<Option<seq<byte>>>, calls: (seq<seq<B.Query>>, seq<B.Query>),
    logs: seq<Log>, messages: seq<Option<seq<byte>>>, signatures: seq<seq<Option<seq<byte>>>>)
    requires CallsFor(calls, logs)
    requires JoinBoth(calls, answer) == Ready((messages, signatures))
    ensures |messages| == |logs| && |signatures| == |logs|
    ensures AnsweredBy(answer, node) ==> B.AnswersFor(node, logs, messages, signatures)
  {
    forall k | 0 <= k < |logs| && AnsweredBy(answer, node)
      ensures messages[k] == node(B.MessageQuery(logs[k].event.messageHash))
      ensures |signatures[k]| == logs[k].event.count % B.TWO_32
      ensures forall j :: 0 <= j < |signatures[k]| ==> signatures[k][j] == node(B.SignatureQuery(logs[k].event.messageHash, j))
    {
      var hash, count := logs[k].event.messageHash, logs[k].event.count;
      assert B.Assignment(calls.0[k], calls.1[k]) == B.AssignmentFor(hash, count);
      assert answer(calls.1[k]) == Ready(messages[k]) && JoinAll(calls.0[k], answer) == Ready(signatures[k]);
      JoinedSignatures(node, answer, hash, count, signatures[k]);
    }
  }

  /* Polling. */

  /** The nodes are honest during a poll: about the logs of the chain and about what the foreign bridge holds. */
  ghost predicate Honest(v: P.View, kind: P.Kind, stream: LS.Stream<Log>, w: Surroundings) {
    LS.Answered(P.Blocks(v.chain, kind), stream, w.logs) && AnsweredBy(w.calls, v.node)
  }

  /** The relays of other kinds and the nonces of other accounts are untouched. */
  ghost predicate OthersKept(kind: P.Kind, s: P.System, t: P.System) {
    && t.db == s.db && t.file == s.file
    && (forall k: P.Kind :: k != kind ==> t.parts.At(k) == s.parts.At(k))
    && (if kind.Relays? then t.foreignNonce == s.foreignNonce else t.homeNonce == s.homeNonce)
  }

  /** How far a poll can still get. */
  function Rank(phase: P.Phase): nat {
    match phase
    case Yielding(None) => 4
    case Idle => 3
    case Fetching(_, _) => 2
    case Sending(_, _) => 1
    case Yielding(Some(_)) => 0
  }

  /** Every transaction woken has been polled. */
  ghost predicate Woken(kind: P.Kind, count: nat, woken: seq<(nat, seq<N.Answer>)>, events: seq<P.Event>) {
    forall p :: 0 <= p < |woken| && woken[p].0 < count ==> P.PollJob(kind, woken[p].0, woken[p].1) in events
  }

  lemma {:induction false} WokenNext(
    kind: P.Kind, count: nat, woken: seq<(nat, seq<N.Answer>)>, p: nat, events: seq<P.Event>, more: seq<P.Event>)
    requires p < |woken| && Woken(kind, count, woken[..p], events)
    requires forall e :: e in events ==> e in more
    requires woken[p].0 < count ==> P.PollJob(kind, woken[p].0, woken[p].1) in more
    ensures Woken(kind, count, woken[..p + 1], more)
  {
  }

  /** What belongs to one relay alone. */
  datatype RelayState = RelayState(logs: LS.Stream<Log>, phase: P.Phase, calls: (seq<seq<B.Query>>, seq<B.Query>))

  /** What a relay in this state waits for is not there: the balance, the logs, a call or a transaction. */
  ghost predicate WaitsIn(kind: P.Kind, state: RelayState, w: Surroundings, stream: LS.Stream<Log>, events: seq<P.Event>) {
    match state.phase
    case Idle => (!kind.Relays? && w.balance.None?) || LS.Poll(stream, w.logs).1.NotReady?
    case Fetching(_, _) => w.balance.None? || JoinBoth(state.calls, w.calls).NotReady?
    case Sending(jobs, _) => !P.AllSent(jobs) && Woken(kind, |jobs|, w.woken, events)
    case Yielding(_) => false
  }

  lemma {:induction false} WaitsStill(
    kind: P.Kind, state: RelayState, w: Surroundings, stream: LS.Stream<Log>, events: seq<P.Event>, more: seq<P.Event>)
    requires WaitsIn(kind, state, w, stream, events) && forall e :: e in events ==> e in more
    ensures WaitsIn(kind, state, w, stream, more)
  {
  }

  /** What the nodes have taken so far, from all relays of the process. */
  class Network {
    ghost var handled: set<P.Done>

    constructor ()
      ensures handled == {}
    {
      handled := {};
    }
  }

  class Relay {
    const setup: P.Setup
    const kind: P.Kind
    const logs: LS.LogStream<Log>
    const node: N.NonceCell
    const network: Network
    var phase: P.Phase
    var calls: (seq<seq<B.Query>>, seq<B.Query>)

    /** This relay is the part of its kind of the process `s`, which runs and holds no event. */
    ghost predicate PartOf(s: P.System)
      reads this, logs, node, network
    {
      && s.parts.At(kind) == P.Component(logs.Value(), phase)
      && P.NonceOf(s, kind) == node.nonce
      && s.handled == network.handled
      && !s.halted && s.held.None?
      && (phase.Fetching? ==> kind.Relays? && CallsFor(calls, phase.logs))
    }

    /** The process went from `s` to `t`: it failed, or this relay is still part of it. */
    ghost predicate Moved(s: P.System, t: P.System, go: Polled<()>)
      reads this, logs, node, network
    {
      && OthersKept(kind, s, t) && t.handled == network.handled
      && (if go.Failed? then t.halted else PartOf(t))
    }

    ghost function State(): RelayState
      reads this, logs
    {
      RelayState(logs.Value(), phase, calls)
    }

    /** There is nothing more to do in these surroundings, with the log stream as it was and after these events. */
    ghost predicate Waits(w: Surroundings, stream: LS.Stream<Log>, events: seq<P.Event>)
      reads this, logs
    {
      WaitsIn(kind, State(), w, stream, events)
    }

    ghost predicate CallFailed(w: Surroundings)
      reads this
    {
      JoinBoth(calls, w.calls).Failed?
    }

    constructor (setup: P.Setup, kind: P.Kind, node: N.NonceCell, network: Network, after: uint64)
      ensures this.setup == setup && this.kind == kind && this.node == node && this.network == network && fresh(logs)
      ensures logs.Value() == LS.Start(after, setup.confirmations.At(kind)) && phase == P.Idle
    {
      this.setup, this.kind := setup, kind;
      this.node, this.network := node, network;
      logs := new LS.LogStream<Log>(after, setup.confirmations.At(kind));
      phase, calls := P.Idle, ([], []);
    }

    /** The state `Wait`. A batch that is sent costs at most the balance it was checked against. */
    method AwaitLogs(w: Surroundings, ghost s: P.System, ghost v: P.View)
      returns (go: Polled<()>, ghost events: seq<P.Event>)
      requires PartOf(s) && phase.Idle? && v.setup == setup
      modifies this, logs
      ensures Moved(s, P.Run(setup, s, events), go)
      ensures Honest(v, kind, old(logs.Value()), w) ==> P.HonestRun(v, s, events)
      ensures go.NotReady? ==> Waits(w, old(logs.Value()), events)
      ensures go.Ready? ==> if kind.Relays? then phase.Fetching? else phase.Sending?
      ensures P.Stop !in events
      ensures go.Ready? && !kind.Relays? ==>
                && P.Batch(setup, kind, w.gasPrice, P.LogsOf(phase.jobs)) == Some(Transactions(phase.jobs))
                && w.balance.Some? && MaxFee(Transactions(phase.jobs)) <= w.balance.value
    {
      if !kind.Relays? && w.balance.None? {
        return NotReady, [];
      }
      var polled := logs.PollOnce(w.logs);
      if polled.Ready? {
        var item := polled.value;
        if kind.Relays? {
          var found := B.Assignments(setup.me, item.logs);
          if found.None? {
            go := Failed;
          } else {
            AssignmentsFor(setup.me, item.logs);
            calls := found.value;
            phase := P.Fetching(B.Own(setup.me, item.logs), item.to);
            go := Ready(());
          }
        } else {
          var batch := P.Batch(setup, kind, w.gasPrice, item.logs);
          if batch.None? || !Funded(w.balance, setup.settings.At(kind).gas, w.gasPrice, |item.logs|) {
            go := Failed;
          } else {
            FeeOfBatch(setup, kind, w.gasPrice, item.logs);
            phase := P.Sending(P.Jobs(item.logs, batch.value), item.to);
            go := Ready(());
          }
        }
      } else {
        go := if polled.Failed? then Failed else NotReady;
      }
      events := [P.PollLogs(kind, w.logs, w.balance, w.gasPrice)];
      P.RunOne(v, s, events[0]);
    }

    /** The state `FetchMessagesSignatures`: the joined answers, paired by position. */
    method AwaitFetched(w: Surroundings, ghost s: P.System, ghost v: P.View)
      returns (go: Polled<()>, ghost events: seq<P.Event>)
      requires PartOf(s) && phase.Fetching? && v.setup == setup
      modifies this`phase
      ensures Moved(s, P.Run(setup, s, events), go)
      ensures AnsweredBy(w.calls, v.node) ==> P.HonestRun(v, s, events)
      ensures go.NotReady? ==> Waits(w, logs.Value(), events) && phase.Fetching?
      ensures P.Stop in events ==> go.Failed? && CallFailed(w)
      ensures go.Ready? ==>
                && phase.Sending? && w.balance.Some?
                && BalanceRequired(setup.settings.relays.gas, w.gasPrice, |phase.jobs|) <= w.balance.value
    {
      if w.balance.None? {
        return NotReady, [];
      }
      match JoinBoth(calls, w.calls) {
        case NotReady =>
          return NotReady, [];
        case Failed =>
          P.RunOne(v, s, P.Stop);
          return Failed, [P.Stop];
        case Ready((messages, signatures)) =>
          JoinedAnswers(v.node, w.calls, calls, phase.logs, messages, signatures);
          events := [P.Fetched(kind, messages, signatures, w.balance, w.gasPrice)];
          P.RunOne(v, s, events[0]);
          go := SendFetched(w, messages, signatures, s);
      }
    }

    /** Sending the fetched messages and signatures, if the balance covers it. */
    method SendFetched(
      w: Surroundings, messages: seq<Option<seq<byte>>>, signatures: seq<seq<Option<seq<byte>>>>, ghost s: P.System)
      returns (go: Polled<()>)
      requires PartOf(s) && phase.Fetching? && w.balance.Some?
      requires |messages| == |phase.logs| && |signatures| == |phase.logs|
      modifies this`phase
      ensures Moved(s, P.Step(setup, s, P.Fetched(kind, messages, signatures, w.balance, w.gasPrice)), go)
      ensures if go.Ready? then phase.Sending? else go.Failed?
      ensures go.Ready? ==> BalanceRequired(setup.settings.relays.gas, w.gasPrice, |phase.jobs|) <= w.balance.value
    {
      var batch := B.RelayBatch(setup.settings.relays, messages, signatures);
      if batch.None? || !Funded(w.balance, setup.settings.relays.gas, w.gasPrice, |messages|) {
        return Failed;
      }
      phase := P.Sending(P.Jobs(phase.logs, batch.value), phase.block);
      return Ready(());
    }

    /** One woken transaction. */
    method PollJob(i: nat, replies: seq<N.Answer>, ghost s: P.System)
      returns (go: Polled<()>)
      requires PartOf(s) && phase.Sending? && i < |phase.jobs|
      modifies this, node, network
      ensures Moved(s, P.Step(setup, s, P.PollJob(kind, i, replies)), go)
      ensures !go.Failed? ==> phase.Sending? && |phase.jobs| == old(|phase.jobs|) && phase.block == old(phase.block)
    {
      var job := phase.jobs[i];
      var (sender, nonce) := N.PollSender(job.sender, node.nonce, replies);
      if sender.phase == N.Aborted {
        return Failed;
      }
      node.nonce := nonce;
      phase := phase.(jobs := phase.jobs[i := job.(sender := sender)]);
      if sender.phase == N.Sent {
        network.handled := network.handled + {P.Done(kind, job.log, sender.transaction)};
      }
      return Ready(());
    }

    /** All woken transactions, up to one that fails. */
    method PollWoken(w: Surroundings, ghost s: P.System, ghost v: P.View)
      returns (ok: bool, ghost events: seq<P.Event>, ghost t: P.System)
      requires PartOf(s) && phase.Sending? && v.setup == setup
      modifies this, node, network
      ensures Ran(v, s, events, t, true) && P.Stop !in events
      ensures Moved(s, t, if ok then Ready(()) else Failed)
      ensures ok ==>
                && phase.Sending? && phase.block == old(phase.block)
                && Woken(kind, |phase.jobs|, w.woken, events)
    {
      events, t := [], s;
      for p := 0 to |w.woken|
        invariant phase.Sending? && phase.block == old(phase.block)
        invariant PartOf(t) && OthersKept(kind, s, t)
        invariant Ran(v, s, events, t, true)
        invariant Woken(kind, |phase.jobs|, w.woken[..p], events) && P.Stop !in events
      {
        var (i, replies) := w.woken[p];
        ghost var e := P.PollJob(kind, i, replies);
        WokenNext(kind, |phase.jobs|, w.woken, p, events, if i < |phase.jobs| then events + [e] else events);
        if i < |phase.jobs| {
          StepRan(v, s, events, t, e);
          var go := PollJob(i, replies, t);
          t, events := P.Step(setup, t, e), events + [e];
          if go.Failed? {
            return false, events, t;
          }
        }
      }
      assert w.woken[..|w.woken|] == w.woken;
      ok := true;
    }

    /** The states `RelayDeposits`, `RelayWithdraws` and `ConfirmWithdraws`: the checkpoint waits for every transaction. */
    method AwaitSent(w: Surroundings, ghost s: P.System, ghost v: P.View)
      returns (go: Polled<()>, ghost events: seq<P.Event>)
      requires PartOf(s) && phase.Sending? && v.setup == setup
      modifies this, node, network
      ensures Moved(s, P.Run(setup, s, events), go)
      ensures P.HonestRun(v, s, events)
      ensures go.NotReady? ==> Waits(w, logs.Value(), events) && phase.Sending?
      ensures go.Ready? ==> phase == P.Yielding(Some(old(phase.block)))
      ensures P.Stop !in events
    {
      var ok;
      ghost var t;
      ok, events, t := PollWoken(w, s, v);
      if !ok {
        return Failed, events;
      }
      if !P.AllSent(phase.jobs) {
        return NotReady, events;
      }
      StepRan(v, s, events, t, P.Finish(kind));
      events := events + [P.Finish(kind)];
      phase := P.Yielding(Some(phase.block));
      return Ready(()), events;
    }

    /** The state `Yield`: the checkpoint is taken out and yielded once. */
    method Take(ghost s: P.System, ghost v: P.View) returns (block: Option<uint64>, ghost events: seq<P.Event>)
      requires PartOf(s) && phase.Yielding? && v.setup == setup
      modifies this`phase
      ensures block == old(phase.checked) && P.HonestRun(v, s, events) && P.Stop !in events
      ensures var t := P.Run(setup, s, events);
              && OthersKept(kind, s, t)
              && (block.Some? ==> t.held == Some((kind, block.value)) && PartOf(t.(held := None)))
              && (block.None? ==> phase.Idle? && PartOf(t))
    {
      block := phase.checked;
      if block.None? {
        phase := P.Idle;
        events := [P.Rearm(kind)];
      } else {
        phase := P.Yielding(None);
        events := [P.Emit(kind)];
      }
      P.RunOne(v, s, events[0]);
    }

    /** The process is in state `t` after a poll of this relay with result `r`. */
    ghost predicate Result(r: Polled<uint64>, t: P.System)
      reads this, logs, node, network
    {
      match r
      case NotReady => PartOf(t)
      case Ready(block) => t.held == Some((kind, block)) && PartOf(t.(held := None))
      case Failed => t.halted
    }

    /**
     * `poll`. It is a run of the process, honest if the nodes are: if it yields a checkpoint, that is the
     * event the process now holds; if it fails, the process has halted, and from a failed call only if there
     * is one; and otherwise there is nothing more to do.
     */
    method Poll(w: Surroundings, ghost s: P.System, ghost v: P.View)
      returns (r: Polled<uint64>, ghost events: seq<P.Event>, ghost t: P.System)
      requires PartOf(s) && v.setup == setup
      modifies this, logs, node, network
      ensures Ran(v, s, events, t, Honest(v, kind, old(logs.Value()), w))
      ensures OthersKept(kind, s, t) && t.handled == network.handled && Result(r, t)
      ensures r.NotReady? ==> Waits(w, old(logs.Value()), events)
      ensures P.Stop in events ==> CallFailed(w)
    {
      events, t := [], s;
      ghost var stream, honest := logs.Value(), Honest(v, kind, logs.Value(), w);
      while true
        invariant PartOf(t) && OthersKept(kind, s, t)
        invariant Ran(v, s, events, t, honest) && P.Stop !in events
        invariant Rank(phase) >= 3 ==> logs.Value() == stream
        decreases Rank(phase)
      {
        var on;
        ghost var more, u;
        on, r, more, u := PollState(w, t, v, stream, honest);
        RanOn(v, s, events, t, more, u, honest);
        if !on {
          if r.NotReady? {
            WaitsStill(kind, State(), w, stream, more, events + more);
          }
          return r, events + more, u;
        }
        events, t := events + more, u;
      }
    }

    /** One round of the loop of `poll`: it either goes on in a later state or gives the result. */
    method PollState(w: Surroundings, ghost s: P.System, ghost v: P.View, ghost stream: LS.Stream<Log>, ghost honest: bool)
      returns (on: bool, r: Polled<uint64>, ghost events: seq<P.Event>, ghost t: P.System)
      requires PartOf(s) && v.setup == setup
      requires honest ==> Honest(v, kind, stream, w)
      requires Rank(phase) >= 3 ==> logs.Value() == stream
      modifies this, logs, node, network
      ensures Ran(v, s, events, t, honest) && OthersKept(kind, s, t) && t.handled == network.handled
      ensures on ==> PartOf(t) && Rank(phase) < Rank(old(phase)) && P.Stop !in events
      ensures on && Rank(phase) >= 3 ==> logs.Value() == stream
      ensures !on ==> Result(r, t)
      ensures !on && r.NotReady? ==> Waits(w, stream, events)
      ensures P.Stop in events ==> CallFailed(w)
    {
      if phase.Yielding? {
        var block;
        block, events := Take(s, v);
        on, r := block.None?, if block.None? then NotReady else Ready(block.value);
      } else {
        var go;
        if phase.Idle? {
          go, events := AwaitLogs(w, s, v);
        } else if phase.Fetching? {
          go, events := AwaitFetched(w, s, v);
        } else {
          go, events := AwaitSent(w, s, v);
        }
        on, r := go.Ready?, if go.Failed? then Failed else NotReady;
      }
      t := P.Run(setup, s, events);
    }
  }

  /** The events lead from `s` to `t`, in an honest run if the nodes are honest. */
  ghost predicate Ran(v: P.View, s: P.System, events: seq<P.Event>, t: P.System, honest: bool) {
    t == P.Run(v.setup, s, events) && (honest ==> P.HonestRun(v, s, events))
  }

  /** Steps that ask no node for logs or views are honest. */
  lemma {:induction false} StepRan(v: P.View, s: P.System, events: seq<P.Event>, t: P.System, e: P.Event)
    requires Ran(v, s, events, t, true) && !e.PollLogs? && !e.Fetched?
    ensures Ran(v, s, events + [e], P.Step(v.setup, t, e), true)
  {
    P.RunConcat(v, s, events, [e]);
    P.RunOne(v, t, e);
  }

  lemma {:induction false} RanOn(
    v: P.View, s: P.System, events: seq<P.Event>, t: P.System, more: seq<P.Event>, u: P.System, honest: bool)
    requires Ran(v, s, events, t, honest) && Ran(v, t, more, u, honest)
    ensures Ran(v, s, events + more, u, honest)
  {
    P.RunConcat(v, s, events, more);
  }

  /** A batch that passes the check costs at most the balance. */
  lemma {:induction false} FeeOfBatch(setup: P.Setup, kind: P.Kind, gasPrice: uint64, logs: seq<Log>)
    requires !kind.Relays? && P.Batch(setup, kind, gasPrice, logs).Some?
    ensures var txs := P.Batch(setup, kind, gasPrice, logs).value;
            && P.LogsOf(P.Jobs(logs, txs)) == logs && Transactions(P.Jobs(logs, txs)) == txs
            && MaxFee(txs) == BalanceRequired(setup.settings.At(kind).gas, gasPrice, |txs|)
  {
    var txs, gas := P.Batch(setup, kind, gasPrice, logs).value, setup.settings.At(kind).gas;
    if kind.Deposits? {
      B.DepositBatchMatches(setup.settings.deposits, gasPrice, logs);
    } else {
      B.ConfirmBatchPairs(setup.settings.confirms, gasPrice, setup.sign, logs);
    }
    assert SameGas(txs, gas) && SamePrice(txs, gasPrice);
    MaxFeeOfGas(txs, gas);
    TotalOfPrice(txs, gasPrice);
    Reassociate(gas, gasPrice, |txs|);
  }
}
