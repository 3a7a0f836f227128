/**
 * A round of one relay that nothing disturbs: from an item of the log stream to the checkpoint on disk.
 */
module Rounds {
  import opened Wrappers
  import opened Bytes
  import opened Evm
  import opened Payloads
  import opened Pipeline
  import LS = LogStream
  import N = Nonce
  import D = Database
  import B = Batches
  import U = Funding

  /** The transactions polled one after the other. */
  function PollsFrom(k: Kind, i: nat, replies: seq<seq<N.Answer>>): seq<Event>
    requires i <= |replies|
    decreases |replies| - i
  {
    if i == |replies| then [] else [PollJob(k, i, replies[i])] + PollsFrom(k, i + 1, replies)
  }

  /** Up to transaction `i` all have been taken, and none after it has been begun. */
  ghost predicate SentUpTo(c: Component, i: nat) {
    && c.phase.Sending? && i <= |c.phase.jobs|
    && forall j :: 0 <= j < |c.phase.jobs| ==> c.phase.jobs[j].sender.phase == if j < i then N.Sent else N.Start
  }

  /** The nodes take every transaction, after any number of retries. */
  ghost predicate AllTaken(replies: seq<seq<N.Answer>>) {
    forall i :: 0 <= i < |replies| ==> N.IsTaken(true, replies[i])
  }

  /** The process runs on, with the same database, file and other relays, and holds no event. */
  ghost predicate Undisturbed(k: Kind, s: System, t: System) {
    && !t.halted && t.held.None? && t.db == s.db && t.file == s.file
    && forall j: Kind :: j != k ==> t.parts.At(j) == s.parts.At(j)
  }

  lemma {:induction false} SentInTurn(v: View, s: System, k: Kind, i: nat, replies: seq<seq<N.Answer>>)
    requires !s.halted && s.held.None? && SentUpTo(s.parts.At(k), i)
    requires |replies| == |s.parts.At(k).phase.jobs| && AllTaken(replies)
    ensures var c, t := s.parts.At(k), Run(v.setup, s, PollsFrom(k, i, replies));
            && Undisturbed(k, s, t) && SentUpTo(t.parts.At(k), |replies|)
            && t.parts.At(k).stream == c.stream && t.parts.At(k).phase.block == c.phase.block
            && LogsOf(t.parts.At(k).phase.jobs) == LogsOf(c.phase.jobs)
    decreases |replies| - i
  {
    if i < |replies| {
      NextSent(v, s, k, i, replies[i]);
      SentInTurn(v, Step(v.setup, s, PollJob(k, i, replies[i])), k, i + 1, replies);
    }
  }

  lemma {:induction false} NextSent(v: View, s: System, k: Kind, i: nat, replies: seq<N.Answer>)
    requires !s.halted && s.held.None? && SentUpTo(s.parts.At(k), i) && i < |s.parts.At(k).phase.jobs|
    requires N.IsTaken(true, replies)
    ensures var c, t := s.parts.At(k), Step(v.setup, s, PollJob(k, i, replies));
            && Undisturbed(k, s, t) && SentUpTo(t.parts.At(k), i + 1)
            && t.parts.At(k).stream == c.stream && t.parts.At(k).phase.block == c.phase.block
            && LogsOf(t.parts.At(k).phase.jobs) == LogsOf(c.phase.jobs)
  {
    N.PollOutcome(s.parts.At(k).phase.jobs[i].sender, NonceOf(s, k), replies);
    var t := Step(v.setup, s, PollJob(k, i, replies));
    assert LogsOf(t.parts.At(k).phase.jobs) == LogsOf(s.parts.At(k).phase.jobs);
  }

  function Closing(k: Kind): seq<Event> {
    [Finish(k), Emit(k), Persist(true), Rearm(k)]
  }

  /** The relay waits for the blocks after `block`, which is its checkpoint in memory and on disk. */
  ghost predicate RoundDone(k: Kind, s: System, t: System, stream: LS.Stream<Log>, block: uint64, logs: seq<Log>) {
    && !t.halted && t.held.None? && t.parts.At(k) == Component(stream, Idle)
    && t.db == D.Record(s.db, CheckOf(k, block)) && t.file == D.Overwrite(s.file, D.Print(t.db))
    && forall i :: 0 <= i < |logs| ==> Handled(t.handled, k, logs[i])
  }

  lemma {:induction false} SentAreHandled(s: System, k: Kind)
    requires SendersOk(s) && s.parts.At(k).phase.Sending? && AllSent(s.parts.At(k).phase.jobs)
    ensures var logs := LogsOf(s.parts.At(k).phase.jobs); forall i :: 0 <= i < |logs| ==> Handled(s.handled, k, logs[i])
  {
    var c := s.parts.At(k);
    forall i | 0 <= i < |c.phase.jobs| ensures Handled(s.handled, k, LogsOf(c.phase.jobs)[i]) {
      assert PartSendersOk(k, c, s.handled) && SenderOk(k, c.phase.jobs[i], s.handled);
    }
  }

  /** Once every transaction has been taken, the checkpoint is reached, yielded and saved. */
  lemma {:induction false} ClosingSaves(v: View, s: System, k: Kind)
    requires SendersOk(s) && !s.halted && s.held.None?
    requires s.parts.At(k).phase.Sending? && AllSent(s.parts.At(k).phase.jobs)
    ensures var c := s.parts.At(k);
            RoundDone(k, s, Run(v.setup, s, Closing(k)), c.stream, c.phase.block, LogsOf(c.phase.jobs))
  {
    var c := s.parts.At(k);
    var emitted := WithPart(s, k, c.(phase := Yielding(None))).(held := Some((k, c.phase.block)));
    CheckpointEmitted(v, s, k);
    CheckpointSaved(v, emitted, k, c.phase.block);
    RunFour(v, s, Finish(k), Emit(k), Persist(true), Rearm(k));
    SentAreHandled(s, k);
  }

  lemma {:induction false} CheckpointEmitted(v: View, s: System, k: Kind)
    requires !s.halted && s.held.None? && s.parts.At(k).phase.Sending? && AllSent(s.parts.At(k).phase.jobs)
    ensures var c := s.parts.At(k);
            Step(v.setup, Step(v.setup, s, Finish(k)), Emit(k)) ==
            WithPart(s, k, c.(phase := Yielding(None))).(held := Some((k, c.phase.block)))
  {
  }

  lemma {:induction false} CheckpointSaved(v: View, s: System, k: Kind, block: uint64)
    requires !s.halted && s.held == Some((k, block)) && s.parts.At(k).phase == Yielding(None)
    ensures var db := D.Record(s.db, CheckOf(k, block));
            Step(v.setup, Step(v.setup, s, Persist(true)), Rearm(k)) ==
            WithPart(s, k, s.parts.At(k).(phase := Idle)).(db := db, file := D.Overwrite(s.file, D.Print(db)), held := None)
  {
  }

  lemma {:induction false} RunFour(v: View, s: System, a: Event, b: Event, c: Event, d: Event)
    ensures Run(v.setup, s, [a, b, c, d]) ==
            Step(v.setup, Step(v.setup, Step(v.setup, Step(v.setup, s, a), b), c), d)
  {
    assert [a, b, c, d] == [a] + ([b] + ([c] + [d]));
    RunConcat(v, s, [a], [b] + ([c] + [d]));
    RunOne(v, s, a);
    RunConcat(v, Step(v.setup, s, a), [b], [c] + [d]);
    RunOne(v, Step(v.setup, s, a), b);
    var t := Step(v.setup, Step(v.setup, s, a), b);
    RunConcat(v, t, [c], [d]);
    RunOne(v, t, c);
    RunOne(v, Step(v.setup, t, c), d);
  }

  lemma {:induction false} SendingCompletes(v: View, s: System, k: Kind, replies: seq<seq<N.Answer>>)
    requires SendersOk(s) && !s.halted && s.held.None? && SentUpTo(s.parts.At(k), 0)
    requires |replies| == |s.parts.At(k).phase.jobs| && AllTaken(replies)
    ensures var c := s.parts.At(k);
            RoundDone(k, s, Run(v.setup, s, PollsFrom(k, 0, replies) + Closing(k)), c.stream, c.phase.block, LogsOf(c.phase.jobs))
  {
    SentInTurn(v, s, k, 0, replies);
    RunTakes(v.setup, s, PollsFrom(k, 0, replies));
    ClosingSaves(v, Run(v.setup, s, PollsFrom(k, 0, replies)), k);
    RunConcat(v, s, PollsFrom(k, 0, replies), Closing(k));
  }

  /** The logs a relay works on can be turned into transactions. */
  predicate Workable(setup: Setup, k: Kind, log: Log) {
    match k
    case Deposits => log.event.HomeDeposit? && log.transactionHash.Some?
    case Confirms => B.Confirmable(setup.sign, log)
    case Relays => log.event.SignaturesCollected?
  }

  /**
   * A deposit-relay or withdraw-confirm round that nothing disturbs: the stream yields an item of logs that
   * the relay can work on, the balance covers them, and every transaction is taken after any number
   * of retries. Then all of these logs are handled, their last block is the checkpoint in memory and
   * on disk, and the relay waits for the next blocks.
   */
  lemma {:induction false} RoundCompletes(
    v: View, s: System, k: Kind, answers: seq<LS.Response<Log>>, balance: Option<nat>, gasPrice: uint64,
    replies: seq<seq<N.Answer>>)
    requires SendersOk(s) && !s.halted && s.held.None? && s.parts.At(k).phase.Idle? && !k.Relays?
    requires LS.Poll(s.parts.At(k).stream, answers).1.Ready?
    requires var logs := LS.Poll(s.parts.At(k).stream, answers).1.value.logs;
             && (forall i :: 0 <= i < |logs| ==> Workable(v.setup, k, logs[i]))
             && U.Funded(balance, v.setup.settings.At(k).gas, gasPrice, |logs|)
             && |replies| == |logs| && AllTaken(replies)
    ensures var (stream, r) := LS.Poll(s.parts.At(k).stream, answers);
            var events := [PollLogs(k, answers, balance, gasPrice)] + (PollsFrom(k, 0, replies) + Closing(k));
            RoundDone(k, s, Run(v.setup, s, events), stream, r.value.to, r.value.logs)
  {
    var e := PollLogs(k, answers, balance, gasPrice);
    SendingStarts(v, s, k, answers, balance, gasPrice);
    StepTakes(v.setup, s, e);
    SendingCompletes(v, Step(v.setup, s, e), k, replies);
    RunConcat(v, s, [e], PollsFrom(k, 0, replies) + Closing(k));
    RunOne(v, s, e);
  }

  lemma {:induction false} SendingStarts(
    v: View, s: System, k: Kind, answers: seq<LS.Response<Log>>, balance: Option<nat>, gasPrice: uint64)
    requires !s.halted && s.held.None? && s.parts.At(k).phase.Idle? && !k.Relays?
    requires LS.Poll(s.parts.At(k).stream, answers).1.Ready?
    requires var logs := LS.Poll(s.parts.At(k).stream, answers).1.value.logs;
             && (forall i :: 0 <= i < |logs| ==> Workable(v.setup, k, logs[i]))
             && U.Funded(balance, v.setup.settings.At(k).gas, gasPrice, |logs|)
    ensures var (stream, r) := LS.Poll(s.parts.At(k).stream, answers);
            var t := Step(v.setup, s, PollLogs(k, answers, balance, gasPrice));
            && Undisturbed(k, s, t) && SentUpTo(t.parts.At(k), 0)
            && t.parts.At(k).stream == stream && t.parts.At(k).phase.block == r.value.to
            && LogsOf(t.parts.At(k).phase.jobs) == r.value.logs
  {
    var logs := LS.Poll(s.parts.At(k).stream, answers).1.value.logs;
    BatchBuilt(v, k, gasPrice, logs);
    var t := Step(v.setup, s, PollLogs(k, answers, balance, gasPrice));
    assert LogsOf(t.parts.At(k).phase.jobs) == logs;
  }

  lemma {:induction false} BatchBuilt(v: View, k: Kind, gasPrice: uint64, logs: seq<Log>)
    requires !k.Relays?
    ensures Batch(v.setup, k, gasPrice, logs).Some? <==> forall i :: 0 <= i < |logs| ==> Workable(v.setup, k, logs[i])
  {
    if k.Deposits? {
      B.DepositBatchMatches(v.setup.settings.deposits, gasPrice, logs);
    } else {
      B.ConfirmBatchPairs(v.setup.settings.confirms, gasPrice, v.setup.sign, logs);
    }
  }

  /** What was fetched can be turned into transactions: messages of 116 octets and signatures of 65. */
  predicate Complete(logs: seq<Log>, messages: seq<Option<seq<byte>>>, signatures: seq<seq<Option<seq<byte>>>>) {
    && |messages| == |logs| && |signatures| == |logs|
    && forall i :: 0 <= i < |logs| ==>
         && messages[i].Some? && |messages[i].value| == 116
         && forall j :: 0 <= j < |signatures[i]| ==> signatures[i][j].Some? && |signatures[i][j].value| == 65
  }

  /** The same for a withdraw-relay round, which fetches the messages and signatures of the relay's own logs. */
  lemma {:induction false} RelayRoundCompletes(
    v: View, s: System, answers: seq<LS.Response<Log>>, messages: seq<Option<seq<byte>>>,
    signatures: seq<seq<Option<seq<byte>>>>, balance: Option<nat>, gasPrice: uint64, replies: seq<seq<N.Answer>>)
    requires SendersOk(s) && !s.halted && s.held.None? && s.parts.At(Relays).phase.Idle?
    requires LS.Poll(s.parts.At(Relays).stream, answers).1.Ready?
    requires var logs := LS.Poll(s.parts.At(Relays).stream, answers).1.value.logs;
             && (forall i :: 0 <= i < |logs| ==> Workable(v.setup, Relays, logs[i]))
             && Complete(B.Own(v.setup.me, logs), messages, signatures)
             && U.Funded(balance, v.setup.settings.relays.gas, gasPrice, |messages|)
             && |replies| == |messages| && AllTaken(replies)
    ensures var (stream, r) := LS.Poll(s.parts.At(Relays).stream, answers);
            var events := [PollLogs(Relays, answers, balance, gasPrice)] +
                          ([Fetched(Relays, messages, signatures, balance, gasPrice)] +
                           (PollsFrom(Relays, 0, replies) + Closing(Relays)));
            RoundDone(Relays, s, Run(v.setup, s, events), stream, r.value.to, B.Own(v.setup.me, r.value.logs))
  {
    var polled, fetched := PollLogs(Relays, answers, balance, gasPrice), Fetched(Relays, messages, signatures, balance, gasPrice);
    var rest := PollsFrom(Relays, 0, replies) + Closing(Relays);
    var (stream, r) := LS.Poll(s.parts.At(Relays).stream, answers);
    var t := Step(v.setup, s, polled);
    var u := Step(v.setup, t, fetched);
    FetchingStarts(v, s, answers, balance, gasPrice);
    FetchedSends(v, t, messages, signatures, balance, gasPrice);
    StepTakes(v.setup, s, polled);
    StepTakes(v.setup, t, fetched);
    SendingCompletes(v, u, Relays, replies);
    RunConcat(v, s, [polled], [fetched] + rest);
    RunOne(v, s, polled);
    RunConcat(v, t, [fetched], rest);
    RunOne(v, t, fetched);
  }

  lemma {:induction false} FetchingStarts(
    v: View, s: System, answers: seq<LS.Response<Log>>, balance: Option<nat>, gasPrice: uint64)
    requires !s.halted && s.held.None? && s.parts.At(Relays).phase.Idle?
    requires LS.Poll(s.parts.At(Relays).stream, answers).1.Ready?
    requires var logs := LS.Poll(s.parts.At(Relays).stream, answers).1.value.logs;
             forall i :: 0 <= i < |logs| ==> logs[i].event.SignaturesCollected?
    ensures var (stream, r) := LS.Poll(s.parts.At(Relays).stream, answers);
            var t := Step(v.setup, s, PollLogs(Relays, answers, balance, gasPrice));
            && Undisturbed(Relays, s, t)
            && t.parts.At(Relays) == Component(stream, Fetching(B.Own(v.setup.me, r.value.logs), r.value.to))
  {
    B.AssignmentsIff(v.setup.me, LS.Poll(s.parts.At(Relays).stream, answers).1.value.logs);
  }

  lemma {:induction false} FetchedSends(
    v: View, s: System, messages: seq<Option<seq<byte>>>, signatures: seq<seq<Option<seq<byte>>>>,
    balance: Option<nat>, gasPrice: uint64)
    requires !s.halted && s.held.None? && s.parts.At(Relays).phase.Fetching?
    requires Complete(s.parts.At(Relays).phase.logs, messages, signatures)
    requires U.Funded(balance, v.setup.settings.relays.gas, gasPrice, |messages|)
    ensures var c, t := s.parts.At(Relays), Step(v.setup, s, Fetched(Relays, messages, signatures, balance, gasPrice));
            && Undisturbed(Relays, s, t) && SentUpTo(t.parts.At(Relays), 0)
            && t.parts.At(Relays).stream == c.stream && t.parts.At(Relays).phase.block == c.phase.block
            && LogsOf(t.parts.At(Relays).phase.jobs) == c.phase.logs
  {
    RelayBatchBuilt(v, s.parts.At(Relays).phase.logs, messages, signatures);
    var t := Step(v.setup, s, Fetched(Relays, messages, signatures, balance, gasPrice));
    assert LogsOf(t.parts.At(Relays).phase.jobs) == s.parts.At(Relays).phase.logs;
  }

  lemma {:induction false} RelayBatchBuilt(
    v: View, logs: seq<Log>, messages: seq<Option<seq<byte>>>, signatures: seq<seq<Option<seq<byte>>>>)
    requires Complete(logs, messages, signatures)
    ensures B.RelayBatch(v.setup.settings.relays, messages, signatures).Some?
  {
    B.RelayBatchIff(v.setup.settings.relays, messages, signatures);
  }
}
