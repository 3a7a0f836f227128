/** The stream of confirmed logs, `LogStream` (bridge/src/api.rs). */
module LogStream {
  import opened Wrappers
  import opened Bytes

  /** All matching logs of the blocks `from` to `to`, both included. */
  datatype Item<Log> = Item(from: uint64, to: uint64, logs: seq<Log>)

  datatype Phase<Log> =
    | Wait
    | FetchBlockNumber
    | FetchLogs(from: uint64, to: uint64)
    | NextItem(item: Option<Item<Log>>)

  datatype Stream<Log> = Stream(after: uint64, confirmations: uint64, phase: Phase<Log>)

  /** What an awaited timer or request has to say, in the order it is asked. */
  datatype Response<Log> = Pending | Tick | BestBlock(number: uint256) | Logs(logs: seq<Log>) | Failure

  function Start<Log>(after: uint64, confirmations: uint64): Stream<Log> {
    Stream(after, confirmations, Wait)
  }

  /** `last_block.low_u64().saturating_sub(confirmations)`. */
  function LastConfirmed(number: uint256, confirmations: uint64): uint64 {
    var last: uint64 := number % TWO_64;
    if last < confirmations then 0 else last - confirmations
  }

  function AfterBlockNumber<Log>(s: Stream<Log>, number: uint256): Stream<Log> {
    var confirmed := LastConfirmed(number, s.confirmations);
    if confirmed > s.after then s.(phase := FetchLogs(s.after + 1, confirmed)) else s.(phase := Wait)
  }

  /** One call of `poll`, answered by `env`; an answer of another kind than awaited keeps it waiting. */
  function Poll<Log>(s: Stream<Log>, env: seq<Response<Log>>): (Stream<Log>, Polled<Item<Log>>)
    decreases |env|, if s.phase.NextItem? then 1 else 0
  {
    var p := s.phase;
    if p.NextItem? then
      if p.item.Some? then (s.(phase := NextItem(None)), Ready(p.item.value))
      else Poll(s.(phase := Wait), env)
    else if env == [] then (s, NotReady)
    else if env[0].Failure? then (s, Failed)
    else if p.Wait? && env[0].Tick? then Poll(s.(phase := FetchBlockNumber), env[1..])
    else if p.FetchBlockNumber? && env[0].BestBlock? then Poll(AfterBlockNumber(s, env[0].number), env[1..])
    else if p.FetchLogs? && env[0].Logs? then
      Poll(s.(after := p.to, phase := NextItem(Some(Item(p.from, p.to, env[0].logs)))), env[1..])
    else (s, NotReady)
  }

  class LogStream<Log> {
    var after: uint64
    var phase: Phase<Log>
    const confirmations: uint64

    ghost function Value(): Stream<Log>
      reads this
    {
      Stream(after, confirmations, phase)
    }

    constructor (after: uint64, confirmations: uint64)
      ensures Value() == Start(after, confirmations)
    {
      this.after, this.confirmations, phase := after, confirmations, Wait;
    }

    /** The loop of `poll`. */
    method PollOnce(env: seq<Response<Log>>) returns (result: Polled<Item<Log>>)
      modifies this
      ensures (Value(), result) == Poll(old(Value()), env)
    {
      var i := 0;
      while true
        invariant 0 <= i <= |env|
        invariant Poll(Value(), env[i..]) == Poll(old(Value()), env)
        decreases |env| - i, if phase.NextItem? then 1 else 0
      {
        if phase.NextItem? {
          if phase.item.Some? {
            result := Ready(phase.item.value);
            phase := NextItem(None);
            return;
          }
          phase := Wait;
          continue;
        }
        if i == |env| {
          return NotReady;
        }
        if env[i].Failure? {
          return Failed;
        }
        match (phase, env[i]) {
          case (Wait, Tick) =>
            phase := FetchBlockNumber;
          case (FetchBlockNumber, BestBlock(number)) =>
            var confirmed := LastConfirmed(number, confirmations);
            phase := if confirmed > after then FetchLogs(after + 1, confirmed) else Wait;
          case (FetchLogs(from, to), Logs(logs)) =>
            after := to;
            phase := NextItem(Some(Item(from, to, logs)));
          case _ =>
            return NotReady;
        }
        i := i + 1;
      }
    }
  }

  /* Coverage. */

  /** Between polls: a pending request is for the blocks right after `after`. */
  predicate Valid<Log>(s: Stream<Log>) {
    match s.phase
    case FetchLogs(from, to) => from == s.after + 1 && from <= to
    case NextItem(item) => item.None?
    case _ => true
  }

  /** A block number whose confirmed part reaches `to` exactly. */
  ghost predicate Reported<Log>(s: Stream<Log>, env: seq<Response<Log>>, to: uint64) {
    exists i :: 0 <= i < |env| && env[i].BestBlock? && LastConfirmed(env[i].number, s.confirmations) == to
  }

  /**
   * One poll keeps the stream valid and never moves it back. It yields the blocks right after the last
   * ones yielded, at least one, and leaves the position in place otherwise.
   */
  lemma {:induction false} PollAdvances<Log>(s: Stream<Log>, env: seq<Response<Log>>)
    requires Valid(s)
    ensures var (t, r) := Poll(s, env);
            && Valid(t) && t.confirmations == s.confirmations
            && (r.Ready? ==> r.value.from == s.after + 1 && r.value.from <= r.value.to && t.after == r.value.to)
            && (!r.Ready? ==> t.after == s.after)
    decreases |env|, if s.phase.NextItem? then 1 else 0
  {
    if s.phase.NextItem? {
      PollAdvances(s.(phase := Wait), env);
    } else if env != [] && !env[0].Failure? {
      match (s.phase, env[0])
      case (Wait, Tick) => PollAdvances(s.(phase := FetchBlockNumber), env[1..]);
      case (FetchBlockNumber, BestBlock(number)) => PollAdvances(AfterBlockNumber(s, number), env[1..]);
      case _ =>
    }
  }

  /** A yielded range ends where some reported best block, less the confirmations, is. */
  lemma {:induction false} PollWithinConfirmed<Log>(s: Stream<Log>, env: seq<Response<Log>>)
    requires Valid(s)
    ensures var (t, r) := Poll(s, env);
            && (r.Ready? ==> (s.phase.FetchLogs? && r.value.to == s.phase.to) || Reported(s, env, r.value.to))
            && (t.phase.FetchLogs? ==> t.phase == s.phase || Reported(s, env, t.phase.to))
    decreases |env|, if s.phase.NextItem? then 1 else 0
  {
    if s.phase.NextItem? {
      PollWithinConfirmed(s.(phase := Wait), env);
    } else if env != [] && !env[0].Failure? {
      match (s.phase, env[0])
      case (Wait, Tick) =>
        PollWithinConfirmed(s.(phase := FetchBlockNumber), env[1..]);
        ReportedLater(s, env);
      case (FetchBlockNumber, BestBlock(number)) =>
        PollWithinConfirmed(AfterBlockNumber(s, number), env[1..]);
        ReportedLater(s, env);
        assert Reported(s, env, LastConfirmed(number, s.confirmations));
      case _ =>
    }
  }

  lemma {:induction false} ReportedLater<Log>(s: Stream<Log>, env: seq<Response<Log>>)
    requires env != []
    ensures forall t: Stream<Log>, to :: t.confirmations == s.confirmations && Reported(t, env[1..], to) ==> Reported(s, env, to)
  {
    forall t: Stream<Log>, to | t.confirmations == s.confirmations && Reported(t, env[1..], to)
      ensures Reported(s, env, to)
    {
      var i :| 0 <= i < |env[1..]| && env[1..][i].BestBlock? && LastConfirmed(env[1..][i].number, t.confirmations) == to;
      assert env[i + 1] == env[1..][i];
    }
  }

  /* When an item is yielded. */

  /** The reported block, less the confirmations, is past the blocks yielded so far. */
  predicate Advances<Log>(s: Stream<Log>, number: uint256) {
    number % TWO_64 > s.after + s.confirmations
  }

  /** After `k` rounds of a tick and a block number that do not advance, one that does, and then its logs. */
  ghost predicate YieldsAt<Log>(s: Stream<Log>, env: seq<Response<Log>>, k: nat) {
    && 2 * k + 2 < |env|
    && (forall j :: 0 <= j < k ==> env[2 * j].Tick? && env[2 * j + 1].BestBlock? && !Advances(s, env[2 * j + 1].number))
    && env[2 * k].Tick? && env[2 * k + 1].BestBlock? && Advances(s, env[2 * k + 1].number) && env[2 * k + 2].Logs?
  }

  /**
   * A waiting stream yields an item in a poll exactly when some reported block advances and the request
   * for its logs is answered too, with nothing but ticks and block numbers before: the blocks after the
   * last ones up to the reported one less the confirmations, with the logs of that answer.
   */
  lemma {:induction false} YieldsIff<Log>(s: Stream<Log>, env: seq<Response<Log>>)
    requires s.phase.Wait?
    ensures Poll(s, env).1.Ready? <==> exists k :: YieldsAt(s, env, k)
    ensures forall k :: YieldsAt(s, env, k) ==>
              var to := env[2 * k + 1].number % TWO_64 - s.confirmations;
              Poll(s, env) == (Stream(to, s.confirmations, NextItem(None)), Ready(Item(s.after + 1, to, env[2 * k + 2].logs)))
    decreases |env|
  {
    if |env| >= 2 && env[0].Tick? && env[1].BestBlock? {
      var asking := s.(phase := FetchBlockNumber);
      var next := AfterBlockNumber(asking, env[1].number);
      assert Poll(s, env) == Poll(asking, env[1..]) == Poll(next, env[2..]) by {
        assert env[1..][0] == env[1] && env[1..][1..] == env[2..];
      }
      if Advances(s, env[1].number) {
        AnsweredRequest(next, env[2..]);
        assert |env| > 2 ==> env[2..][0] == env[2];
        forall k | YieldsAt(s, env, k) ensures k == 0 {
          FirstRound(s, env, k);
        }
        assert YieldsAt(s, env, 0) <==> |env| > 2 && env[2].Logs?;
      } else {
        assert next == s;
        YieldsIff(s, env[2..]);
        RoundsLater(s, env);
      }
    } else {
      forall k | YieldsAt(s, env, k) ensures false {
        FirstRound(s, env, k);
      }
      NoRound(s, env);
    }
  }

  lemma {:induction false} FirstRound<Log>(s: Stream<Log>, env: seq<Response<Log>>, k: nat)
    requires YieldsAt(s, env, k)
    ensures |env| >= 2 && env[0].Tick? && env[1].BestBlock?
    ensures Advances(s, env[1].number) <==> k == 0
  {
    if k > 0 {
      assert env[2 * 0].Tick? && env[2 * 0 + 1].BestBlock?;
    }
  }

  lemma {:induction false} RoundsLater<Log>(s: Stream<Log>, env: seq<Response<Log>>)
    requires |env| >= 2 && env[0].Tick? && env[1].BestBlock? && !Advances(s, env[1].number)
    ensures forall k: nat :: YieldsAt(s, env[2..], k) ==> YieldsAt(s, env, k + 1)
    ensures forall k: nat :: YieldsAt(s, env, k) ==> k > 0 && YieldsAt(s, env[2..], k - 1)
  {
    forall i | 0 <= i < |env| - 2 ensures env[2..][i] == env[i + 2] {
    }
    forall k: nat | YieldsAt(s, env[2..], k) ensures YieldsAt(s, env, k + 1) {
      forall j | 0 <= j < k + 1
        ensures env[2 * j].Tick? && env[2 * j + 1].BestBlock? && !Advances(s, env[2 * j + 1].number)
      {
        if j > 0 {
          assert env[2..][2 * (j - 1)].Tick?;
        }
      }
    }
    forall k: nat | YieldsAt(s, env, k) ensures k > 0 && YieldsAt(s, env[2..], k - 1) {
      forall j | 0 <= j < k - 1
        ensures env[2..][2 * j].Tick? && env[2..][2 * j + 1].BestBlock? && !Advances(s, env[2..][2 * j + 1].number)
      {
        assert env[2 * (j + 1)].Tick?;
      }
    }
  }

  /** A pending request for logs yields exactly when it is answered. */
  lemma {:induction false} AnsweredRequest<Log>(s: Stream<Log>, env: seq<Response<Log>>)
    requires s.phase.FetchLogs?
    ensures Poll(s, env).1.Ready? <==> env != [] && env[0].Logs?
    ensures Poll(s, env).1.Ready? ==>
              Poll(s, env) == (Stream(s.phase.to, s.confirmations, NextItem(None)),
                               Ready(Item(s.phase.from, s.phase.to, env[0].logs)))
  {
  }

  lemma {:induction false} NoRound<Log>(s: Stream<Log>, env: seq<Response<Log>>)
    requires s.phase.Wait? && !(|env| >= 2 && env[0].Tick? && env[1].BestBlock?)
    ensures !Poll(s, env).1.Ready?
  {
    if env != [] && env[0].Tick? {
      var asking := s.(phase := FetchBlockNumber);
      assert Poll(s, env) == Poll(asking, env[1..]);
      assert |env| >= 2 ==> env[1..][0] == env[1];
    }
  }

  /** The other states a poll can start in come down to the waiting one; a failed answer fails the stream. */
  lemma {:induction false} Resumes<Log>(s: Stream<Log>, env: seq<Response<Log>>)
    ensures s.phase == NextItem(None) ==> Poll(s, env) == Poll(s.(phase := Wait), env)
    ensures s.phase.FetchBlockNumber? ==> Poll(s, env) == Poll(s.(phase := Wait), [Tick] + env)
    ensures !s.phase.NextItem? && env != [] && env[0].Failure? ==> Poll(s, env).1.Failed?
  {
    assert ([Tick] + env)[1..] == env;
  }

  /** Any number of polls, with everything they yield. */
  function Polls<Log>(s: Stream<Log>, envs: seq<seq<Response<Log>>>): (Stream<Log>, seq<Item<Log>>)
    decreases |envs|
  {
    if envs == [] then (s, [])
    else
      var (t, r) := Poll(s, envs[0]);
      var (u, items) := Polls(t, envs[1..]);
      (u, (if r.Ready? then [r.value] else []) + items)
  }

  /** The items cover the blocks after `a` up to `b`: each nonempty, each starting where the last ended. */
  predicate Tiles<Log>(items: seq<Item<Log>>, a: uint64, b: uint64) {
    if items == [] then a == b
    else items[0].from == a + 1 && items[0].from <= items[0].to && Tiles(items[1..], items[0].to, b)
  }

  /**
   * For every sequence of answers, rollbacks included, the yielded ranges tile the blocks from the
   * initial `after` on: no gap, no overlap, none empty.
   */
  lemma {:induction false} PollsTile<Log>(s: Stream<Log>, envs: seq<seq<Response<Log>>>)
    requires Valid(s)
    ensures var (t, items) := Polls(s, envs); Valid(t) && s.after <= t.after && Tiles(items, s.after, t.after)
    decreases |envs|
  {
    if envs != [] {
      PollAdvances(s, envs[0]);
      var (t, r) := Poll(s, envs[0]);
      PollsTile(t, envs[1..]);
      var (_, rest) := Polls(t, envs[1..]);
      assert r.Ready? ==> ([r.value] + rest)[1..] == rest;
      assert !r.Ready? ==> [] + rest == rest;
    }
  }

  /** Some poll was told of a best block at least `confirmations` past `to`. */
  ghost predicate Confirmed<Log>(s: Stream<Log>, envs: seq<seq<Response<Log>>>, to: uint64) {
    exists k, i :: 0 <= k < |envs| && 0 <= i < |envs[k]| && envs[k][i].BestBlock?
                   && to + s.confirmations <= envs[k][i].number
  }

  /** No yielded range goes past a reported best block less the confirmations. */
  lemma {:induction false} PollsStayConfirmed<Log>(s: Stream<Log>, envs: seq<seq<Response<Log>>>)
    requires Valid(s)
    ensures var (_, items) := Polls(s, envs);
            forall j :: 0 <= j < |items| ==>
              (s.phase.FetchLogs? && items[j].to == s.phase.to) || Confirmed(s, envs, items[j].to)
    decreases |envs|
  {
    if envs != [] {
      var (t, r) := Poll(s, envs[0]);
      var (_, rest) := Polls(t, envs[1..]);
      var (_, items) := Polls(s, envs);
      PollAdvances(s, envs[0]);
      PollWithinConfirmed(s, envs[0]);
      PollsStayConfirmed(t, envs[1..]);
      forall to: uint64 | to > 0 && (Reported(s, envs[0], to) || Confirmed(t, envs[1..], to))
        ensures Confirmed(s, envs, to)
      {
        ConfirmedFirst(s, t, envs, to);
      }
      forall j | 0 <= j < |items|
        ensures (s.phase.FetchLogs? && items[j].to == s.phase.to) || Confirmed(s, envs, items[j].to)
      {
        PollsTile(t, envs[1..]);
        if r.Ready? && j == 0 {
          assert items[0] == r.value;
        } else {
          var k := if r.Ready? then j - 1 else j;
          assert items[j] == rest[k];
          TilesPositive(rest, t.after, Polls(t, envs[1..]).0.after, k);
        }
      }
    }
  }

  lemma {:induction false} ConfirmedFirst<Log>(s: Stream<Log>, t: Stream<Log>, envs: seq<seq<Response<Log>>>, to: uint64)
    requires envs != [] && to > 0 && t.confirmations == s.confirmations
    requires Reported(s, envs[0], to) || Confirmed(t, envs[1..], to)
    ensures Confirmed(s, envs, to)
  {
    if Reported(s, envs[0], to) {
      var i :| 0 <= i < |envs[0]| && envs[0][i].BestBlock? && LastConfirmed(envs[0][i].number, s.confirmations) == to;
    } else {
      var k, i :| 0 <= k < |envs[1..]| && 0 <= i < |envs[1..][k]| && envs[1..][k][i].BestBlock?
                  && to + s.confirmations <= envs[1..][k][i].number;
      assert envs[k + 1] == envs[1..][k];
    }
  }

  lemma {:induction false} TilesPositive<Log>(items: seq<Item<Log>>, a: uint64, b: uint64, k: nat)
    requires Tiles(items, a, b) && k < |items|
    ensures items[k].to > 0
    decreases k
  {
    if k > 0 {
      TilesPositive(items[1..], items[0].to, b, k - 1);
    }
  }

  /** The logs of a chain, blocks `from` to `to`. */
  function ChainLogs<Log>(chain: nat -> seq<Log>, from: nat, to: nat): seq<Log>
    decreases 1 + to - from
  {
    if from > to then [] else chain(from) + ChainLogs(chain, from + 1, to)
  }

  lemma {:induction false} ChainLogsSplit<Log>(chain: nat -> seq<Log>, from: nat, mid: nat, to: nat)
    requires from <= mid + 1 && mid <= to
    ensures ChainLogs(chain, from, mid) + ChainLogs(chain, mid + 1, to) == ChainLogs(chain, from, to)
    decreases 1 + to - from
  {
    if from == mid + 1 {
      assert [] + ChainLogs(chain, from, to) == ChainLogs(chain, from, to);
    } else {
      ChainLogsSplit(chain, from + 1, mid, to);
      assert chain(from) + (ChainLogs(chain, from + 1, mid) + ChainLogs(chain, mid + 1, to)) ==
             chain(from) + ChainLogs(chain, from + 1, mid) + ChainLogs(chain, mid + 1, to);
    }
  }

  function AllLogs<Log>(items: seq<Item<Log>>): seq<Log> {
    if items == [] then [] else items[0].logs + AllLogs(items[1..])
  }

  lemma {:induction false} TilesOrdered<Log>(items: seq<Item<Log>>, a: uint64, b: uint64)
    requires Tiles(items, a, b)
    ensures a <= b
    decreases |items|
  {
    if items != [] {
      TilesOrdered(items[1..], items[0].to, b);
    }
  }

  /** Tiling items whose logs are the chain's have the chain's logs over the tiled blocks, once and in order. */
  lemma {:induction false} TilesYieldChain<Log>(chain: nat -> seq<Log>, items: seq<Item<Log>>, a: uint64, b: uint64)
    requires Tiles(items, a, b) && FromChain(chain, items)
    ensures AllLogs(items) == ChainLogs(chain, a + 1, b)
    decreases |items|
  {
    if items != [] {
      assert FromChain(chain, items[1..]) by {
        assert forall i :: 0 <= i < |items[1..]| ==> items[1..][i] == items[i + 1];
      }
      TilesYieldChain(chain, items[1..], items[0].to, b);
      TilesOrdered(items[1..], items[0].to, b);
      ChainLogsSplit(chain, a + 1, items[0].to, b);
    }
  }

  ghost predicate FromChain<Log>(chain: nat -> seq<Log>, items: seq<Item<Log>>) {
    forall i :: 0 <= i < |items| ==> items[i].logs == ChainLogs(chain, items[i].from, items[i].to)
  }

  /**
   * The node is honest during a poll: an answer to the pending request for logs has the chain's logs of
   * the blocks asked for. Block numbers, delays and failures are whatever they are.
   */
  predicate Answered<Log(==)>(chain: nat -> seq<Log>, s: Stream<Log>, env: seq<Response<Log>>)
    decreases |env|, if s.phase.NextItem? then 1 else 0
  {
    var p := s.phase;
    if p.NextItem? then p.item.Some? || Answered(chain, s.(phase := Wait), env)
    else if env == [] then true
    else if p.Wait? && env[0].Tick? then Answered(chain, s.(phase := FetchBlockNumber), env[1..])
    else if p.FetchBlockNumber? && env[0].BestBlock? then Answered(chain, AfterBlockNumber(s, env[0].number), env[1..])
    else if p.FetchLogs? && env[0].Logs? then env[0].logs == ChainLogs(chain, p.from, p.to)
    else true
  }

  predicate AlwaysAnswered<Log(==)>(chain: nat -> seq<Log>, s: Stream<Log>, envs: seq<seq<Response<Log>>>)
    decreases |envs|
  {
    envs == [] || (Answered(chain, s, envs[0]) && AlwaysAnswered(chain, Poll(s, envs[0]).0, envs[1..]))
  }

  /** From an honest node, a yielded item has the chain's logs of its range. */
  lemma {:induction false} PollYieldsChain<Log>(chain: nat -> seq<Log>, s: Stream<Log>, env: seq<Response<Log>>)
    requires Valid(s) && Answered(chain, s, env)
    ensures var (_, r) := Poll(s, env);
            r.Ready? ==> r.value.logs == ChainLogs(chain, r.value.from, r.value.to)
    decreases |env|, if s.phase.NextItem? then 1 else 0
  {
    if s.phase.NextItem? {
      PollYieldsChain(chain, s.(phase := Wait), env);
    } else if env != [] && !env[0].Failure? {
      match (s.phase, env[0])
      case (Wait, Tick) => PollYieldsChain(chain, s.(phase := FetchBlockNumber), env[1..]);
      case (FetchBlockNumber, BestBlock(number)) => PollYieldsChain(chain, AfterBlockNumber(s, number), env[1..]);
      case _ =>
    }
  }

  lemma {:induction false} PollsFromChain<Log>(chain: nat -> seq<Log>, s: Stream<Log>, envs: seq<seq<Response<Log>>>)
    requires Valid(s) && AlwaysAnswered(chain, s, envs)
    ensures FromChain(chain, Polls(s, envs).1)
    decreases |envs|
  {
    if envs != [] {
      PollAdvances(s, envs[0]);
      PollYieldsChain(chain, s, envs[0]);
      PollsFromChain(chain, Poll(s, envs[0]).0, envs[1..]);
    }
  }

  /**
   * Log coverage: whatever block numbers, delays and failures are reported, if the node answers every
   * request for logs from one unchanging chain, the concatenated logs of the yielded items are the
   * chain's logs over the covered blocks, once each and in order.
   */
  lemma {:induction false} PollsYieldChain<Log>(chain: nat -> seq<Log>, s: Stream<Log>, envs: seq<seq<Response<Log>>>)
    requires Valid(s) && AlwaysAnswered(chain, s, envs)
    ensures var (t, items) := Polls(s, envs); AllLogs(items) == ChainLogs(chain, s.after + 1, t.after)
  {
    var (t, items) := Polls(s, envs);
    PollsTile(s, envs);
    PollsFromChain(chain, s, envs);
    TilesYieldChain(chain, items, s.after, t.after);
  }

  lemma {:induction false} FromChainStitch<Log>(chain: nat -> seq<Log>, items: seq<Item<Log>>, k: nat, more: seq<Item<Log>>)
    requires k < |items| && FromChain(chain, items) && FromChain(chain, more)
    ensures FromChain(chain, items[..k + 1] + more)
  {
    var all := items[..k + 1] + more;
    forall i | 0 <= i < |all| ensures all[i].logs == ChainLogs(chain, all[i].from, all[i].to) {
      assert all[i] == if i < k + 1 then items[i] else more[i - k - 1];
    }
  }

  lemma {:induction false} TilesStitch<Log>(
    items: seq<Item<Log>>, a: uint64, b: uint64, k: nat, more: seq<Item<Log>>, c: uint64)
    requires k < |items| && Tiles(items, a, b) && Tiles(more, items[k].to, c)
    ensures Tiles(items[..k + 1] + more, a, c)
    decreases k
  {
    var kept := items[..k + 1] + more;
    if k == 0 {
      assert kept[1..] == more;
    } else {
      TilesStitch(items[1..], items[0].to, b, k - 1, more, c);
      assert kept[1..] == items[1..][..k] + more;
    }
  }

  /**
   * Restarting: a stream that yields items, and a new one started at the end of any of them, with any
   * confirmations. What the first yielded so far and what the second yields tile the blocks without gap
   * or overlap; from an honest node they have the chain's logs over these blocks, once and in order.
   */
  lemma {:induction false} RestartLeavesNoGap<Log>(
    chain: nat -> seq<Log>, s: Stream<Log>, envs: seq<seq<Response<Log>>>, k: nat,
    confirmations: uint64, later: seq<seq<Response<Log>>>)
    requires Valid(s) && k < |Polls(s, envs).1|
    ensures var items := Polls(s, envs).1;
            var (t, more) := Polls(Start(items[k].to, confirmations), later);
            && Tiles(items[..k + 1] + more, s.after, t.after)
            && (AlwaysAnswered(chain, s, envs) && AlwaysAnswered(chain, Start(items[k].to, confirmations), later) ==>
                  AllLogs(items[..k + 1] + more) == ChainLogs(chain, s.after + 1, t.after))
  {
    var (end, items) := Polls(s, envs);
    var restarted := Start(items[k].to, confirmations);
    var (t, more) := Polls(restarted, later);
    PollsTile(s, envs);
    PollsTile(restarted, later);
    TilesStitch(items, s.after, end.after, k, more, t.after);
    if AlwaysAnswered(chain, s, envs) && AlwaysAnswered(chain, restarted, later) {
      PollsFromChain(chain, s, envs);
      PollsFromChain(chain, restarted, later);
      FromChainStitch(chain, items, k, more);
      TilesYieldChain(chain, items[..k + 1] + more, s.after, t.after);
    }
  }
}
