/**
 * The deposit and token-address quorums of contracts/bridge.sol, kept in maps and counters, and their
 * refinement of the array form.
 */
module MapForeign {
  import opened Wrappers
  import opened Bytes
  import opened Evm
  import opened SignatureCheck
  import opened Confirmations
  import opened Foreign

  datatype Config = Config(authorities: set<Address>, required: nat)

  datatype MapState = MapState(
    deposits: Tally<Digest>, approvals: Tally<Address>, token: Address, deposited: seq<Order>, tokensSet: seq<Address>)

  /** Constructed: no token yet. */
  const CONSTRUCTED := MapState(Tally({}, map[]), Tally({}, map[]), 0, [], [])

  /** `keccak256(msg.sender, hash_msg)`. */
  function DepositVote(sender: Address, subject: Digest): Digest {
    KeccakThen(ToBE(sender, 20), subject)
  }

  /** `keccak256(msg.sender, token)`. */
  function TokenVote(sender: Address, token: Address): Digest {
    Keccak(ToBE(sender, 20) + ToBE(token, 20))
  }

  /** `deposit`; `transferred` says whether the token contract made the transfer or reverted. */
  function MapDeposit(c: Config, s: MapState, sender: Address, order: Order, transferred: bool): Option<MapState> {
    var subject := DepositKey(order);
    var counted := Increment(s.deposits, subject, DepositVote(sender, subject));
    if sender !in c.authorities || s.token == 0 || counted.None? then None
    else if Count(counted.value, subject) != c.required then Some(s.(deposits := counted.value))
    else if !transferred then None
    else Some(s.(deposits := counted.value, deposited := s.deposited + [order]))
  }

  /** `setTokenAddress`. */
  function MapSetToken(c: Config, s: MapState, sender: Address, token: Address): Option<MapState> {
    var counted := Increment(s.approvals, token, TokenVote(sender, token));
    if sender !in c.authorities || counted.None? then None
    else if Count(counted.value, token) != c.required then Some(s.(approvals := counted.value))
    else Some(s.(approvals := counted.value, token := token, tokensSet := s.tokensSet + [token]))
  }

  class MapForeignBridge {
    const authorities: set<Address>
    const requiredSignatures: nat
    var depositsSigned: set<Digest>
    var numDepositsSigned: map<Digest, nat>
    var approvalSigns: set<Digest>
    var numApprovalSigns: map<Address, nat>
    var erc20token: Address
    var deposited: seq<Order>
    var tokensSet: seq<Address>

    ghost function Storage(): MapState
      reads this
    {
      MapState(Tally(depositsSigned, numDepositsSigned), Tally(approvalSigns, numApprovalSigns), erc20token,
               deposited, tokensSet)
    }

    ghost function Configuration(): Config {
      Config(authorities, requiredSignatures)
    }

    /** The constructor's two requirements are what it demands of its deployer. */
    constructor (required: nat, authorityList: seq<Address>)
      requires required != 0 && required <= |authorityList|
      ensures Storage() == CONSTRUCTED && Configuration() == Config(Elements(authorityList), required)
    {
      var known: set<Address> := {};
      for i := 0 to |authorityList|
        invariant known == Elements(authorityList[..i])
      {
        known := known + {authorityList[i]};
      }
      assert authorityList[..|authorityList|] == authorityList;
      authorities, requiredSignatures := known, required;
      depositsSigned, numDepositsSigned, approvalSigns, numApprovalSigns := {}, map[], {}, map[];
      erc20token, deposited, tokensSet := 0, [], [];
    }

    method Deposit(sender: Address, order: Order, transferred: bool) returns (ok: bool)
      modifies this
      ensures match MapDeposit(Configuration(), old(Storage()), sender, order, transferred)
              case None => !ok && Storage() == old(Storage())
              case Some(s) => ok && Storage() == s
    {
      if sender !in authorities || erc20token == 0 {
        return false;
      }
      var hashMsg := DepositKey(order);
      var hashSender := DepositVote(sender, hashMsg);
      if hashSender in depositsSigned {
        return false;
      }
      var before := (depositsSigned, numDepositsSigned);
      depositsSigned := depositsSigned + {hashSender};
      var signed := (Lookup(numDepositsSigned, hashMsg, 0) + 1) % TWO_256;
      numDepositsSigned := numDepositsSigned[hashMsg := signed];
      if signed == requiredSignatures {
        if !transferred {
          depositsSigned, numDepositsSigned := before.0, before.1;
          return false;
        }
        deposited := deposited + [order];
      }
      return true;
    }

    method SetTokenAddress(sender: Address, token: Address) returns (ok: bool)
      modifies this
      ensures match MapSetToken(Configuration(), old(Storage()), sender, token)
              case None => !ok && Storage() == old(Storage())
              case Some(s) => ok && Storage() == s
    {
      var tokenSender := TokenVote(sender, token);
      if sender !in authorities || tokenSender in approvalSigns {
        return false;
      }
      approvalSigns := approvalSigns + {tokenSender};
      var signed := (Lookup(numApprovalSigns, token, 0) + 1) % TWO_256;
      numApprovalSigns := numApprovalSigns[token := signed];
      if signed == requiredSignatures {
        erc20token := token;
        tokensSet := tokensSet + [token];
      }
      return true;
    }
  }

  lemma {:induction false} VotesInjective()
    ensures Injective(DepositVote) && Injective(TokenVote)
  {
    Widths();
    forall a: Address, b: Address | ToBE(a, 20) == ToBE(b, 20) ensures a == b {
      ToBEInjective(a, b, 20);
    }
    forall a: Address, k: Address, b: Address, l: Address | TokenVote(a, k) == TokenVote(b, l)
      ensures a == b && k == l
    {
      var x, y := ToBE(a, 20) + ToBE(k, 20), ToBE(b, 20) + ToBE(l, 20);
      assert x[..20] == ToBE(a, 20) && y[..20] == ToBE(b, 20);
      assert x[20..] == ToBE(k, 20) && y[20..] == ToBE(l, 20);
    }
  }

  /* Single calls. */

  /** Exactly when a confirmation is accepted, and all it changes. */
  lemma {:induction false} DepositEffects(c: Config, s: MapState, sender: Address, order: Order, transferred: bool)
    ensures var subject := DepositKey(order);
            var vote, counted := DepositVote(sender, subject), (Count(s.deposits, subject) + 1) % TWO_256;
            var t := MapDeposit(c, s, sender, order, transferred);
            && (t.Some? <==>
                  sender in c.authorities && s.token != 0 && vote !in s.deposits.signed && (counted == c.required ==> transferred))
            && (t.Some? ==>
                  && t.value.token == s.token && t.value.approvals == s.approvals && t.value.tokensSet == s.tokensSet
                  && t.value.deposited == s.deposited + (if counted == c.required then [order] else [])
                  && (forall w :: w in t.value.deposits.signed <==> w in s.deposits.signed || w == vote)
                  && (forall k :: Count(t.value.deposits, k) == if k == subject then counted else Count(s.deposits, k)))
  {
  }

  /** Exactly when an approval is accepted; the one that completes a quorum puts its token in force. */
  lemma {:induction false} ApprovalEffects(c: Config, s: MapState, sender: Address, token: Address)
    ensures var vote, counted := TokenVote(sender, token), (Count(s.approvals, token) + 1) % TWO_256;
            var t := MapSetToken(c, s, sender, token);
            && (t.Some? <==> sender in c.authorities && vote !in s.approvals.signed)
            && (t.Some? ==>
                  && t.value.deposits == s.deposits && t.value.deposited == s.deposited
                  && t.value.token == (if counted == c.required then token else s.token)
                  && t.value.tokensSet == s.tokensSet + (if counted == c.required then [token] else [])
                  && (forall w :: w in t.value.approvals.signed <==> w in s.approvals.signed || w == vote)
                  && (forall k :: Count(t.value.approvals, k) == if k == token then counted else Count(s.approvals, k)))
  {
  }

  /* The simulation. */

  /** A confirmation as both contracts receive it; `paid` is whether the payout goes through. */
  datatype Confirmation = Confirmation(sender: Address, order: Order, paid: bool)

  /** The array contract can pay what the token contract pays: its balance does not decide, its recipients do. */
  ghost predicate Funded(c: Confirmation, s: State) {
    c.paid == Payable(s, c.order, c.paid)
  }

  /** How often an order occurs in a log of payouts. */
  function Times(log: seq<Order>, order: Order): nat {
    if log == [] then 0 else Times(log[..|log| - 1], order) + (if log[|log| - 1] == order then 1 else 0)
  }

  lemma {:induction false} MapDepositPays(cfg: Config, m: MapState, c: Confirmation, order: Order)
    requires MapDeposit(cfg, m, c.sender, c.order, c.paid).Some?
    ensures var fast := MapDeposit(cfg, m, c.sender, c.order, c.paid).value;
            && fast.token == m.token
            && Times(fast.deposited, order) - Times(m.deposited, order) ==
               (if c.order == order && Count(fast.deposits, DepositKey(c.order)) == cfg.required then 1 else 0)
  {
    assert (m.deposited + [c.order])[..|m.deposited|] == m.deposited;
  }

  /**
   * One confirmation, given the same authorities and threshold: apart from a token that is not set and a
   * payout that fails, both contracts refuse it for the same reasons and try to pay at the same step; if
   * both accept it they stay in correspondence and pay any order or none alike.
   */
  lemma {:induction false} DepositSimulates(cfg: Config, m: MapState, s: State, c: Confirmation, transferred: bool, order: Order)
    requires Represents(m.deposits, s.deposits, DepositVote)
    ensures var fast := MapDeposit(cfg, m, c.sender, c.order, transferred);
            var simple := Confirm(s, c.sender, Authority(cfg.authorities, cfg.required), c.order, c.paid);
            var refused := c.sender !in cfg.authorities || c.sender in Confirmers(s, c.order);
            var pays := |Confirmers(s, c.order)| + 1 == cfg.required;
            && (fast.None? <==> m.token == 0 || refused || (pays && !transferred))
            && (simple.None? <==> refused || (pays && !Payable(s, c.order, c.paid)))
            && (fast.Some? && simple.Some? ==>
                  && Represents(fast.value.deposits, simple.value.deposits, DepositVote)
                  && fast.value.token == m.token
                  && Times(fast.value.deposited, order) - Times(m.deposited, order) ==
                     Payments(simple.value.events, order) - Payments(s.events, order))
  {
    VotesInjective();
    VoteRefines(m.deposits, s.deposits, DepositVote, DepositKey(c.order), c.sender);
    var auth := Authority(cfg.authorities, cfg.required);
    if Confirm(s, c.sender, auth, c.order, c.paid).Some? {
      ConfirmPays(s, c.sender, auth, c.order, c.paid, order);
      if MapDeposit(cfg, m, c.sender, c.order, transferred).Some? {
        MapDepositPays(cfg, m, c.(paid := transferred), order);
      }
    }
  }

  function RunFast(cfg: Config, m: MapState, run: seq<Confirmation>): (MapState, seq<bool>)
    decreases |run|
  {
    if run == [] then (m, [])
    else
      var next := MapDeposit(cfg, m, run[0].sender, run[0].order, run[0].paid);
      var rest := RunFast(cfg, if next.Some? then next.value else m, run[1..]);
      (rest.0, [next.Some?] + rest.1)
  }

  function RunSimple(cfg: Config, s: State, run: seq<Confirmation>): (State, seq<bool>)
    decreases |run|
  {
    if run == [] then (s, [])
    else
      var next := Confirm(s, run[0].sender, Authority(cfg.authorities, cfg.required), run[0].order, run[0].paid);
      var rest := RunSimple(cfg, if next.Some? then next.value else s, run[1..]);
      (rest.0, [next.Some?] + rest.1)
  }

  ghost predicate AlwaysFunded(cfg: Config, s: State, run: seq<Confirmation>)
    decreases |run|
  {
    run == [] ||
    (&& Funded(run[0], s)
     && var next := Confirm(s, run[0].sender, Authority(cfg.authorities, cfg.required), run[0].order, run[0].paid);
        AlwaysFunded(cfg, if next.Some? then next.value else s, run[1..]))
  }

  /**
   * Whole runs: the counter contract accepts and refuses the same calls as the array contract, its
   * counter stays the number of distinct confirmers, and it pays every order as often.
   */
  lemma {:induction false} MapFormRefinesArrayForm(
    cfg: Config, m: MapState, s: State, run: seq<Confirmation>, order: Order)
    requires Represents(m.deposits, s.deposits, DepositVote) && m.token != 0 && AlwaysFunded(cfg, s, run)
    ensures var fast, simple := RunFast(cfg, m, run), RunSimple(cfg, s, run);
            && fast.1 == simple.1
            && Represents(fast.0.deposits, simple.0.deposits, DepositVote)
            && Count(fast.0.deposits, DepositKey(order)) == |Elements(Confirmers(simple.0, order))|
            && Times(fast.0.deposited, order) - Times(m.deposited, order) ==
               Payments(simple.0.events, order) - Payments(s.events, order)
    decreases |run|
  {
    if run == [] {
      ElementsSize(Confirmers(s, order));
    } else {
      var c := run[0];
      DepositSimulates(cfg, m, s, c, c.paid, order);
      var fast := MapDeposit(cfg, m, c.sender, c.order, c.paid);
      var simple := Confirm(s, c.sender, Authority(cfg.authorities, cfg.required), c.order, c.paid);
      if fast.Some? {
        MapFormRefinesArrayForm(cfg, fast.value, simple.value, run[1..], order);
      } else {
        MapFormRefinesArrayForm(cfg, m, s, run[1..], order);
      }
    }
  }

  /* The token address. */

  datatype Approval = Approval(sender: Address, token: Address)

  function RunApprovals(cfg: Config, m: MapState, run: seq<Approval>): MapState
    decreases |run|
  {
    if run == [] then m
    else
      var next := MapSetToken(cfg, m, run[0].sender, run[0].token);
      RunApprovals(cfg, if next.Some? then next.value else m, run[1..])
  }

  /** The tokens put in force, the last of them now, are those with a quorum of approvals. */
  ghost predicate InForce(required: nat, token: Address, tokensSet: seq<Address>, book: Book<Address>) {
    && Distinct(tokensSet)
    && (forall t :: t in tokensSet <==> |Signers(book, t)| >= required)
    && token == (if tokensSet == [] then 0 else tokensSet[|tokensSet| - 1])
  }

  /** `book` lists the authorities whose approval of each token was counted. */
  ghost predicate Approved(cfg: Config, m: MapState, book: Book<Address>) {
    && Represents(m.approvals, book, TokenVote)
    && (forall t: Address, a :: a in Signers(book, t) ==> a in cfg.authorities)
    && InForce(cfg.required, m.token, m.tokensSet, book)
  }

  /**
   * A token is put in force at most once, exactly when `required` distinct authorities have approved
   * it; and the one in force is the last that got there.
   */
  lemma {:induction false} TokenNeedsQuorum(cfg: Config, m: MapState, book: Book<Address>, run: seq<Approval>)
    returns (end: Book<Address>)
    requires cfg.required > 0 && Approved(cfg, m, book)
    ensures Approved(cfg, RunApprovals(cfg, m, run), end)
    decreases |run|
  {
    end := book;
    if run != [] {
      var a := run[0];
      VotesInjective();
      VoteRefines(m.approvals, book, TokenVote, a.token, a.sender);
      var next := MapSetToken(cfg, m, a.sender, a.token);
      if next.Some? {
        var grown := Push(book, a.token, a.sender).value;
        ApprovalStep(cfg, m, book, a);
        end := TokenNeedsQuorum(cfg, next.value, grown, run[1..]);
      } else {
        end := TokenNeedsQuorum(cfg, m, book, run[1..]);
      }
    }
  }

  lemma {:induction false} ApprovalStep(cfg: Config, m: MapState, book: Book<Address>, a: Approval)
    requires cfg.required > 0 && Approved(cfg, m, book)
    requires MapSetToken(cfg, m, a.sender, a.token).Some?
    ensures Push(book, a.token, a.sender).Some?
    ensures Approved(cfg, MapSetToken(cfg, m, a.sender, a.token).value, Push(book, a.token, a.sender).value)
  {
    VotesInjective();
    VoteRefines(m.approvals, book, TokenVote, a.token, a.sender);
    var grown := Push(book, a.token, a.sender).value;
    forall k: Address ensures Signers(grown, k) == Signers(book, k) + (if k == a.token then [a.sender] else []) {
    }
    TokensStep(cfg.required, m.token, m.tokensSet, book, grown, a);
  }

  lemma {:induction false} TokensStep(
    required: nat, token: Address, tokensSet: seq<Address>, book: Book<Address>, grown: Book<Address>, a: Approval)
    requires required > 0 && InForce(required, token, tokensSet, book)
    requires forall k: Address :: Signers(grown, k) == Signers(book, k) + if k == a.token then [a.sender] else []
    ensures if |Signers(grown, a.token)| == required then InForce(required, a.token, tokensSet + [a.token], grown)
            else InForce(required, token, tokensSet, grown)
  {
    if |Signers(grown, a.token)| == required {
      assert |Signers(book, a.token)| < required;
      assert a.token !in tokensSet;
    }
  }
}
