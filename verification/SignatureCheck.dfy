/** The two signature-quorum checks of truffle/contracts/libraries/helpers.sol. */
module SignatureCheck {
  import opened Bytes
  import opened Evm
  import opened Signing

  /** What a checking call does: it reverts, or returns a verdict. */
  datatype Outcome = Reverted | Returned(accepted: bool)

  /** Who may sign and how many must: what the validator contract answers during a call. */
  datatype Authority = Authority(active: set<Address>, required: nat)

  /** The signatures of a `withdraw` call, component by component. */
  datatype Parts = Parts(vs: seq<byte>, rs: seq<Bytes32>, ss: seq<Bytes32>) {
    /** How many signatures have all three components. */
    function Complete(): (n: nat)
      ensures n <= |vs| && n <= |rs| && n <= |ss|
      ensures n == |vs| || n == |rs| || n == |ss|
    {
      var n := if |rs| < |ss| then |rs| else |ss|;
      if |vs| < n then |vs| else n
    }
  }

  /** The addresses recovered from the first `n` signatures. */
  function Recovered(rec: Recover, hash: Digest, parts: Parts, n: nat): (a: seq<Address>)
    requires n <= parts.Complete()
    ensures |a| == n
    ensures forall i :: 0 <= i < n ==> a[i] == rec(hash, parts.vs[i], parts.rs[i], parts.ss[i])
  {
    if n == 0 then []
    else Recovered(rec, hash, parts, n - 1) + [rec(hash, parts.vs[n - 1], parts.rs[n - 1], parts.ss[n - 1])]
  }

  predicate Distinct<T(==)>(s: seq<T>) {
    forall i, j :: 0 <= i < j < |s| ==> s[i] != s[j]
  }

  /** A quorum: allowed signers, none of them the zero address, no two of them alike. */
  predicate Quorum(signers: seq<Address>, allowed: set<Address>) {
    && (forall i :: 0 <= i < |signers| ==> signers[i] in allowed && signers[i] != 0)
    && Distinct(signers)
  }

  function Elements<T(==)>(s: seq<T>): set<T> {
    set x | x in s
  }

  /** Distinct members of a set are no more than the set has; if as many, they are all of it. */
  lemma {:induction false} Pigeonhole<T>(s: seq<T>, a: set<T>)
    requires Distinct(s)
    requires forall i :: 0 <= i < |s| ==> s[i] in a
    ensures |s| <= |a|
    ensures |s| == |a| ==> Elements(s) == a
    decreases |s|
  {
    if s != [] {
      var last, front := s[|s| - 1], s[..|s| - 1];
      assert forall i :: 0 <= i < |front| ==> s[i] != s[|s| - 1];
      assert forall i :: 0 <= i < |front| ==> front[i] in a - {last};
      Pigeonhole(front, a - {last});
      assert Elements(s) == Elements(front) + {last};
    }
  }

  lemma {:induction false} ElementsSize<T>(s: seq<T>)
    ensures |Elements(s)| <= |s|
    ensures Distinct(s) <==> |Elements(s)| == |s|
  {
    if s != [] {
      var front := s[..|s| - 1];
      ElementsSize(front);
      assert Elements(s) == Elements(front) + {s[|s| - 1]};
      DistinctLast(s);
    }
  }

  lemma {:induction false} DistinctLast<T>(s: seq<T>)
    requires s != []
    ensures Distinct(s) <==> Distinct(s[..|s| - 1]) && s[|s| - 1] !in s[..|s| - 1]
  {
    var n := |s| - 1;
    assert forall i :: 0 <= i < n ==> s[..n][i] == s[i];
    if s[n] in s[..n] {
      var i :| 0 <= i < n && s[..n][i] == s[n];
      assert s[i] == s[n];
    }
  }

  /** A quorum is as many different allowed addresses, zero aside, as there are signers. */
  lemma {:induction false} QuorumCounts(signers: seq<Address>, allowed: set<Address>)
    ensures Quorum(signers, allowed) <==> |Elements(signers) * allowed - {0}| == |signers|
  {
    var e, good := Elements(signers), Elements(signers) * allowed - {0};
    ElementsSize(signers);
    if Quorum(signers, allowed) {
      assert good == e;
    }
    if |good| == |signers| {
      SubsetOfSize(good, e);
      assert forall i :: 0 <= i < |signers| ==> signers[i] in good;
    }
  }

  lemma {:induction false} SubsetOfSize<T>(a: set<T>, b: set<T>)
    requires a <= b
    ensures |a| <= |b|
    ensures |a| == |b| ==> a == b
    decreases a
  {
    if a != {} {
      var x :| x in a;
      SubsetOfSize(a - {x}, b - {x});
    }
  }

  /** `addressArrayContains`. */
  method AddressArrayContains(addresses: seq<Address>, value: Address) returns (found: bool)
    ensures found <==> value in addresses
  {
    for i := 0 to |addresses|
      invariant value !in addresses[..i]
    {
      if addresses[i] == value {
        return true;
      }
    }
    return false;
  }

  /**
   * What `Helpers.hasEnoughValidSignatures` decides: too few `vs` is a verdict; otherwise the first
   * `required` signatures must form a quorum, and running out of `rs` or `ss` first reverts.
   */
  function ListVerdict(
    rec: Recover, message: seq<byte>, parts: Parts, allowed: set<Address>, required: nat): Outcome
  {
    if |parts.vs| < required then Returned(false)
    else if required <= parts.Complete() then
      Returned(Quorum(Recovered(rec, HashMessage(message), parts, required), allowed))
    else if Quorum(Recovered(rec, HashMessage(message), parts, parts.Complete()), allowed) then Reverted
    else Returned(false)
  }

  /** One more signer turns a quorum into a quorum exactly when it is allowed, new and not zero. */
  lemma {:induction false} QuorumExtends(signers: seq<Address>, allowed: set<Address>, i: nat)
    requires i < |signers|
    requires Quorum(signers[..i], allowed)
    ensures Quorum(signers[..i + 1], allowed) <==>
            signers[i] in allowed && signers[i] != 0 && signers[i] !in signers[..i]
  {
    var a, b := signers[..i], signers[..i + 1];
    assert forall k :: 0 <= k < i ==> b[k] == a[k];
    assert b[i] == signers[i];
    if signers[i] in a {
      var k :| 0 <= k < |a| && a[k] == signers[i];
      assert b[k] == b[i];
    }
    if Quorum(b, allowed) {
      assert b[i] in allowed && b[i] != 0;
    }
  }

  lemma {:induction false} QuorumPrefix(signers: seq<Address>, allowed: set<Address>, i: nat)
    requires i <= |signers|
    requires !Quorum(signers[..i], allowed)
    ensures !Quorum(signers, allowed)
  {
    if Quorum(signers, allowed) {
      assert Quorum(signers[..i], allowed);
    }
  }

  /** A zeroed scratch array whose first slots hold the signers encountered so far. */
  predicate Scratch(slots: seq<Address>, seen: seq<Address>) {
    && |seen| <= |slots| && slots[..|seen|] == seen
    && forall k :: |seen| <= k < |slots| ==> slots[k] == 0
  }

  /** While a slot is free, the search also finds the zero address. */
  lemma {:induction false} ScratchSearch(slots: seq<Address>, seen: seq<Address>, value: Address)
    requires Scratch(slots, seen)
    ensures value in slots <==> value in seen || (value == 0 && |seen| < |slots|)
  {
    assert slots == slots[..|seen|] + slots[|seen|..];
    if |seen| < |slots| {
      assert slots[|seen|] == 0;
    }
  }

  /**
   * `Helpers.hasEnoughValidSignatures`. The scratch array has one slot per allowed signer, and
   * `required` may be larger: a signer that would need one more slot is always found among those
   * already encountered.
   */
  method HasEnoughValidSignatures(
    rec: Recover, message: seq<byte>, parts: Parts, allowedSigners: seq<Address>, required: nat)
    returns (outcome: Outcome)
    ensures outcome == ListVerdict(rec, message, parts, Elements(allowedSigners), required)
  {
    if |parts.vs| < required {
      return Returned(false);
    }
    var hash := HashMessage(message);
    var encountered := new Address[|allowedSigners|](_ => 0);
    ghost var allowed := Elements(allowedSigners);
    ghost var most := if required <= parts.Complete() then required else parts.Complete();
    ghost var all := Recovered(rec, hash, parts, most);
    var i: nat := 0;
    while i < required
      invariant i <= most && Scratch(encountered[..], all[..i])
      invariant Quorum(all[..i], allowed)
    {
      if i >= |parts.rs| || i >= |parts.ss| {
        assert all[..i] == all;
        return Reverted;
      }
      var recovered := rec(hash, parts.vs[i], parts.rs[i], parts.ss[i]);
      assert recovered == all[i];
      QuorumExtends(all, allowed, i);
      var isAllowed := AddressArrayContains(allowedSigners, recovered);
      if !isAllowed {
        QuorumPrefix(all, allowed, i + 1);
        return Returned(false);
      }
      SlotFree(all[..i], allowedSigners, recovered);
      var isDuplicate := AddressArrayContains(encountered[..], recovered);
      ScratchSearch(encountered[..], all[..i], recovered);
      if isDuplicate {
        QuorumPrefix(all, allowed, i + 1);
        return Returned(false);
      }
      encountered[i] := recovered;
      i := i + 1;
    }
    assert all[..i] == all;
    return Returned(true);
  }

  /** The pigeonhole step: an allowed signer not encountered yet leaves a free slot. */
  lemma {:induction false} SlotFree(encountered: seq<Address>, allowedSigners: seq<Address>, signer: Address)
    requires Quorum(encountered, Elements(allowedSigners))
    requires signer in allowedSigners
    ensures |encountered| < |allowedSigners| || (|encountered| == |allowedSigners| && signer in encountered)
  {
    var allowed := Elements(allowedSigners);
    Pigeonhole(encountered, allowed);
    ElementsSize(allowedSigners);
    assert signer in allowed;
  }

  /** What `Message.hasEnoughValidSignatures` decides: true when it returns, false when it reverts. */
  predicate ContractVerdict(
    rec: Recover, message: seq<byte>, parts: Parts, active: set<Address>, required: nat)
  {
    && required <= parts.Complete()
    && Quorum(Recovered(rec, HashMessage116(message), parts, required), active)
  }

  /**
   * `Message.hasEnoughValidSignatures`, with the validator contract's answers as `active` and
   * `required`. The zero address is refused even if it were a validator: an unused scratch slot
   * already holds it.
   */
  method RequireEnoughValidSignatures(
    rec: Recover, message: seq<byte>, parts: Parts, active: set<Address>, required: nat)
    returns (returned: bool)
    ensures returned == ContractVerdict(rec, message, parts, active, required)
  {
    if |parts.vs| < required {
      return false;
    }
    var hash := HashMessage116(message);
    var encountered := new Address[required](_ => 0);
    ghost var most := if required <= parts.Complete() then required else parts.Complete();
    ghost var all := Recovered(rec, hash, parts, most);
    var i: nat := 0;
    while i < required
      invariant i <= most <= encountered.Length == required && Scratch(encountered[..], all[..i])
      invariant Quorum(all[..i], active)
    {
      if i >= |parts.rs| || i >= |parts.ss| {
        return false;
      }
      var recovered := rec(hash, parts.vs[i], parts.rs[i], parts.ss[i]);
      assert recovered == all[i];
      QuorumExtends(all, active, i);
      if recovered !in active {
        QuorumPrefix(all, active, i + 1);
        return false;
      }
      var isDuplicate := AddressArrayContains(encountered[..], recovered);
      ScratchSearch(encountered[..], all[..i], recovered);
      if isDuplicate {
        QuorumPrefix(all, active, i + 1);
        return false;
      }
      encountered[i] := recovered;
      i := i + 1;
    }
    assert all[..i] == all;
    return true;
  }

  /** On 116-octet messages the two checks accept the same calls when the list is the active set. */
  lemma {:induction false} ChecksAgree(
    rec: Recover, message: seq<byte>, parts: Parts, allowedSigners: seq<Address>, active: set<Address>, required: nat)
    requires |message| == 116
    requires Elements(allowedSigners) == active
    ensures ListVerdict(rec, message, parts, Elements(allowedSigners), required) == Returned(true) <==>
            ContractVerdict(rec, message, parts, active, required)
  {
    HardCodedDigestAgrees(message);
  }
}
