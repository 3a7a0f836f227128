/** The merged event stream of the relays, `BridgeEventStream` (bridge/src/bridge/mod.rs). */
module EventStream {
  import opened Wrappers

  /** What polling a balance check gives. */
  datatype Check = CheckPending | Balance(amount: nat) | CheckEnded | CheckFailed

  /** What happens when the relays are about to be polled; `Stopped` is a requested shutdown. */
  datatype Inner<E> = Stopped | InnerPending | InnerItem(event: E) | InnerEnded | InnerFailed

  datatype Status<E> = Init | Wait | NextItem(event: Option<E>)

  /** `checks` and `inner` are what the balance checks and the relays are going to answer. */
  datatype Events<E> = Events(
    status: Status<E>, home: Option<nat>, foreign: Option<nat>, checks: seq<(Check, Check)>, inner: seq<Inner<E>>)

  datatype Yield<E> = Nothing | Event(event: E) | Ended | Error

  /** `new.or(old)`. */
  function Or(check: Check, old_: Option<nat>): Option<nat> {
    if check.Balance? then Some(check.amount) else old_
  }

  /** `check_balances`: the two balances, and whether the stream stays in `Init`, goes on, or fails. */
  function CheckBalances(home: Option<nat>, foreign: Option<nat>, c: (Check, Check)):
    (r: (Option<nat>, Option<nat>, Polled<()>))
    ensures home.Some? ==> r.0.Some?
    ensures foreign.Some? ==> r.1.Some?
    ensures r.2.Ready? && !c.0.CheckEnded? && !c.1.CheckEnded? ==> r.0.Some? && r.1.Some?
  {
    if c.0.CheckFailed? then (home, foreign, Failed)
    else if c.0.CheckEnded? then (home, foreign, Ready(()))
    else
      var h := Or(c.0, home);
      if c.1.CheckFailed? then (h, foreign, Failed)
      else if c.1.CheckEnded? then (h, foreign, Ready(()))
      else
        var f := Or(c.1, foreign);
        (h, f, if h.None? || f.None? then NotReady else Ready(()))
  }

  /**
   * What a round of checks leaves: every balance is the newest one answered, the foreign one unless the
   * home check was over already; and the stream goes on exactly when none failed and either one has
   * ended or both balances are known.
   */
  lemma {:induction false} BalancesAreNewest(home: Option<nat>, foreign: Option<nat>, c: (Check, Check))
    ensures var (h, f, r) := CheckBalances(home, foreign, c);
            && h == (if c.0.Balance? then Some(c.0.amount) else home)
            && f == (if c.1.Balance? && !c.0.CheckFailed? && !c.0.CheckEnded? then Some(c.1.amount) else foreign)
            && (r.Failed? <==> c.0.CheckFailed? || (c.1.CheckFailed? && !c.0.CheckEnded?))
            && (r.Ready? <==>
                  c.0.CheckEnded? ||
                  (!c.0.CheckFailed? && (c.1.CheckEnded? || (!c.1.CheckFailed? && h.Some? && f.Some?))))
  {
  }

  /** One call of `poll`. */
  function Poll<E>(s: Events<E>): (Events<E>, Yield<E>)
    decreases |s.checks| + |s.inner|, if s.status.NextItem? then 1 else 0
  {
    match s.status
    case NextItem(None) => Poll(s.(status := Init))
    case NextItem(Some(e)) => (s.(status := NextItem(None)), Event(e))
    case Init =>
      if s.checks == [] then (s, Nothing)
      else
        var (h, f, r) := CheckBalances(s.home, s.foreign, s.checks[0]);
        var t := s.(home := h, foreign := f, checks := s.checks[1..]);
        if r.Failed? then (t, Error)
        else if r.NotReady? then (t, Nothing)
        else Poll(t.(status := Wait))
    case Wait =>
      if s.inner == [] then (s, Nothing)
      else
        var t := s.(inner := s.inner[1..]);
        match s.inner[0]
        case InnerPending => (t, Nothing)
        case InnerItem(e) => Poll(t.(status := NextItem(Some(e))))
        case InnerEnded => (t, Ended)
        case Stopped => (t, Error)
        case InnerFailed => (t, Error)
  }

  class BridgeEventStream<E> {
    var status: Status<E>
    var home: Option<nat>
    var foreign: Option<nat>
    var checks: seq<(Check, Check)>
    var inner: seq<Inner<E>>

    ghost function Value(): Events<E>
      reads this
    {
      Events(status, home, foreign, checks, inner)
    }

    constructor (checks: seq<(Check, Check)>, inner: seq<Inner<E>>)
      ensures Value() == Events(Init, None, None, checks, inner)
    {
      this.checks, this.inner := checks, inner;
      status, home, foreign := Init, None, None;
    }

    method PollOnce() returns (y: Yield<E>)
      modifies this
      ensures (Value(), y) == Poll(old(Value()))
    {
      while true
        invariant Poll(Value()) == Poll(old(Value()))
        decreases |checks| + |inner|, if status.NextItem? then 1 else 0
      {
        match status {
          case NextItem(None) =>
            status := Init;
          case NextItem(Some(e)) =>
            status := NextItem(None);
            return Event(e);
          case Init =>
            if checks == [] {
              return Nothing;
            }
            var (h, f, r) := CheckBalances(home, foreign, checks[0]);
            home, foreign, checks := h, f, checks[1..];
            if r.Failed? {
              return Error;
            }
            if r.NotReady? {
              return Nothing;
            }
            status := Wait;
          case Wait =>
            if inner == [] {
              return Nothing;
            }
            var head := inner[0];
            inner := inner[1..];
            match head {
              case InnerPending => return Nothing;
              case InnerItem(e) => status := NextItem(Some(e));
              case InnerEnded => return Ended;
              case Stopped => return Error;
              case InnerFailed => return Error;
            }
        }
      }
    }
  }

  /** The events among the relays' answers. */
  function ItemsOf<E>(inner: seq<Inner<E>>): seq<E> {
    if inner == [] then []
    else (if inner[0].InnerItem? then [inner[0].event] else []) + ItemsOf(inner[1..])
  }

  /** Outside `Init` both balances are known. */
  predicate Known<E>(s: Events<E>) {
    s.status != Init ==> s.home.Some? && s.foreign.Some?
  }

  /** Balance checks keep going; the one in bridge/src/bridge/balance.rs never ends. */
  predicate NeverEnds<E>(s: Events<E>) {
    forall i :: 0 <= i < |s.checks| ==> !s.checks[i].0.CheckEnded? && !s.checks[i].1.CheckEnded?
  }

  /** Between polls no event is held back. */
  predicate Between<E>(s: Events<E>) {
    NeverEnds(s) && Known(s) && !(s.status.NextItem? && s.status.event.Some?)
  }

  /**
   * One poll: an event taken from the relays is yielded by the same poll, and nothing else is; and the
   * relays are only ever asked with both balances known.
   */
  lemma {:induction false} PollFaithful<E>(s: Events<E>)
    requires Between(s)
    ensures var (t, y) := Poll(s);
            && Between(t)
            && ItemsOf(s.inner) == (if y.Event? then [y.event] else []) + ItemsOf(t.inner)
            && (s.home.Some? ==> t.home.Some?) && (s.foreign.Some? ==> t.foreign.Some?)
            && (t.inner != s.inner ==> t.home.Some? && t.foreign.Some?)
    decreases |s.checks| + |s.inner|, if s.status.NextItem? then 1 else 0
  {
    match s.status
    case NextItem(_) => PollFaithful(s.(status := Init));
    case Init =>
      if s.checks != [] {
        var (h, f, r) := CheckBalances(s.home, s.foreign, s.checks[0]);
        if r.Ready? {
          PollFaithful(s.(home := h, foreign := f, checks := s.checks[1..], status := Wait));
        }
      }
    case Wait =>
      if s.inner != [] && s.inner[0].InnerItem? {
        var e := s.inner[0].event;
        var held := s.(inner := s.inner[1..], status := NextItem(Some(e)));
        assert Poll(s) == Poll(held);
      }
  }

  /** A poll that starts with a balance check gets past it. */
  predicate Passes<E>(s: Events<E>) {
    s.checks != [] && CheckBalances(s.home, s.foreign, s.checks[0]).2.Ready?
  }

  /**
   * What a poll yields, told from what is answered: before any relay is asked, a failing check is an
   * error and an unknown balance yields nothing; then the relays' first answer decides, a requested
   * shutdown coming before it. One check and one answer are used up at most.
   */
  lemma {:induction false} PollVerdict<E>(s: Events<E>)
    requires Between(s)
    ensures var (t, y) := Poll(s);
            var asked := s.inner != [] && (s.status.Wait? || Passes(s));
            && (y.Event? <==> asked && s.inner[0].InnerItem?)
            && (y.Event? ==> y.event == s.inner[0].event)
            && (y.Ended? <==> asked && s.inner[0].InnerEnded?)
            && (y.Error? <==>
                  || (asked && (s.inner[0].Stopped? || s.inner[0].InnerFailed?))
                  || (!s.status.Wait? && s.checks != [] && CheckBalances(s.home, s.foreign, s.checks[0]).2.Failed?))
            && t.inner == (if asked then s.inner[1..] else s.inner)
            && t.checks == (if s.status.Wait? || s.checks == [] then s.checks else s.checks[1..])
  {
    if s.status.NextItem? {
      FromInit(s.(status := Init));
      assert Poll(s) == Poll(s.(status := Init));
    } else if s.status.Init? {
      FromInit(s);
    } else {
      FromWait(s);
    }
  }

  lemma {:induction false} FromWait<E>(s: Events<E>)
    requires s.status.Wait?
    ensures var (t, y) := Poll(s);
            && (y.Event? <==> s.inner != [] && s.inner[0].InnerItem?)
            && (y.Event? ==> y.event == s.inner[0].event)
            && (y.Ended? <==> s.inner != [] && s.inner[0].InnerEnded?)
            && (y.Error? <==> s.inner != [] && (s.inner[0].Stopped? || s.inner[0].InnerFailed?))
            && t.inner == (if s.inner == [] then [] else s.inner[1..]) && t.checks == s.checks
            && t.home == s.home && t.foreign == s.foreign
  {
    if s.inner != [] && s.inner[0].InnerItem? {
      var held := s.(inner := s.inner[1..], status := NextItem(Some(s.inner[0].event)));
      assert Poll(s) == Poll(held);
    }
  }

  lemma {:induction false} FromInit<E>(s: Events<E>)
    requires s.status.Init?
    ensures s.checks == [] ==> Poll(s) == (s, Nothing)
    ensures s.checks != [] ==>
              var (h, f, r) := CheckBalances(s.home, s.foreign, s.checks[0]);
              var t := s.(home := h, foreign := f, checks := s.checks[1..]);
              Poll(s) == if r.Failed? then (t, Error) else if r.NotReady? then (t, Nothing) else Poll(t.(status := Wait))
    ensures Passes(s) ==>
              var (t, y) := Poll(s);
              && (y.Event? <==> s.inner != [] && s.inner[0].InnerItem?)
              && (y.Event? ==> y.event == s.inner[0].event)
              && (y.Ended? <==> s.inner != [] && s.inner[0].InnerEnded?)
              && (y.Error? <==> s.inner != [] && (s.inner[0].Stopped? || s.inner[0].InnerFailed?))
              && t.inner == (if s.inner == [] then [] else s.inner[1..]) && t.checks == s.checks[1..]
  {
    if Passes(s) {
      var (h, f, _) := CheckBalances(s.home, s.foreign, s.checks[0]);
      FromWait(s.(home := h, foreign := f, checks := s.checks[1..], status := Wait));
    }
  }

  function Polls<E>(s: Events<E>, n: nat): (Events<E>, seq<E>)
    decreases n
  {
    if n == 0 then (s, [])
    else
      var (t, y) := Poll(s);
      var (u, events) := Polls(t, n - 1);
      (u, (if y.Event? then [y.event] else []) + events)
  }

  /** Any number of polls yields exactly the relays' events, in order, and never forgets a balance. */
  lemma {:induction false} StreamFaithful<E>(s: Events<E>, n: nat)
    requires Between(s)
    ensures var (t, events) := Polls(s, n);
            && ItemsOf(s.inner) == events + ItemsOf(t.inner)
            && Between(t) && (s.home.Some? ==> t.home.Some?) && (s.foreign.Some? ==> t.foreign.Some?)
            && (events != [] ==> t.home.Some? && t.foreign.Some?)
    decreases n
  {
    if n > 0 {
      PollFaithful(s);
      var (t, y) := Poll(s);
      StreamFaithful(t, n - 1);
      var (u, events) := Polls(t, n - 1);
      var first := if y.Event? then [y.event] else [];
      assert first + (events + ItemsOf(u.inner)) == first + events + ItemsOf(u.inner);
    }
  }
}
