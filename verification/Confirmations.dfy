/**
 * Counting distinct confirmations of a subject, in the two forms the contracts use: an array of
 * signers per subject (truffle/contracts/ForeignBridge.sol), and one flag per vote with a counter
 * per subject (contracts/bridge.sol), which its comments introduce to save gas.
 */
module Confirmations {
  import opened Wrappers
  import opened Bytes
  import opened Evm
  import opened SignatureCheck

  /** Array form. */
  type Book<!K(==)> = map<K, seq<Address>>

  function Signers<K>(book: Book<K>, subject: K): seq<Address> {
    Lookup(book, subject, [])
  }

  /** `require(!contains(signers, sender)); signers.push(sender)`; `None` reverts. */
  function Push<K>(book: Book<K>, subject: K, sender: Address): Option<Book<K>> {
    if sender in Signers(book, subject) then None
    else Some(book[subject := Signers(book, subject) + [sender]])
  }

  /** Map-and-counter form. */
  datatype Tally<!K(==)> = Tally(signed: set<Digest>, counts: map<K, nat>)

  function Count<K>(tally: Tally<K>, subject: K): nat {
    Lookup(tally.counts, subject, 0)
  }

  /** `require(!signed[vote]); signed[vote] = true; counts[subject] += 1`, the increment unchecked. */
  function Increment<K>(tally: Tally<K>, subject: K, vote: Digest): Option<Tally<K>> {
    if vote in tally.signed then None
    else Some(Tally(tally.signed + {vote}, tally.counts[subject := (Count(tally, subject) + 1) % TWO_256]))
  }

  ghost predicate Injective<K(!new)>(vote: (Address, K) -> Digest) {
    forall a, k, b, l :: vote(a, k) == vote(b, l) ==> a == b && k == l
  }

  /** The counter form represents the array form: same votes, same number of distinct voters. */
  ghost predicate Represents<K(!new)>(tally: Tally<K>, book: Book<K>, vote: (Address, K) -> Digest) {
    && (forall k :: Distinct(Signers(book, k)))
    && (forall k :: Count(tally, k) == |Signers(book, k)|)
    && (forall a, k :: vote(a, k) in tally.signed <==> a in Signers(book, k))
  }

  ghost function Below(n: nat): (s: set<Address>)
    requires n <= TWO_160
    ensures |s| == n
    ensures forall a: Address :: a in s <==> a < n
  {
    if n == 0 then {}
    else
      var last: Address := n - 1;
      Below(n - 1) + {last}
  }

  /** There are not enough addresses to overflow a count of distinct ones. */
  lemma {:induction false} DistinctAddresses(s: seq<Address>)
    requires Distinct(s)
    ensures |s| < TWO_256 - 1
  {
    Pigeonhole(s, Below(TWO_160));
  }

  /**
   * One vote, both forms: they accept or refuse it together, stay in correspondence, and agree on the
   * number of votes the threshold is compared with. The unchecked increment does not wrap.
   */
  lemma {:induction false} VoteRefines<K(!new)>(
    tally: Tally<K>, book: Book<K>, vote: (Address, K) -> Digest, subject: K, sender: Address)
    requires Injective(vote) && Represents(tally, book, vote)
    ensures var fast, simple := Increment(tally, subject, vote(sender, subject)), Push(book, subject, sender);
            && (fast.None? <==> simple.None?)
            && (fast.None? <==> sender in Signers(book, subject))
            && (fast.Some? ==>
                  && Represents(fast.value, simple.value, vote)
                  && Count(fast.value, subject) == |Signers(simple.value, subject)|
                  && Count(fast.value, subject) == |Elements(Signers(simple.value, subject))|)
  {
    var fast, simple := Increment(tally, subject, vote(sender, subject)), Push(book, subject, sender);
    if fast.Some? {
      var before := Signers(book, subject);
      DistinctAddresses(before);
      assert Signers(simple.value, subject) == before + [sender];
      ElementsSize(before + [sender]);
      forall k ensures Distinct(Signers(simple.value, k)) && Count(fast.value, k) == |Signers(simple.value, k)| {
        assert k != subject ==> Signers(simple.value, k) == Signers(book, k);
      }
      forall a, k ensures vote(a, k) in fast.value.signed <==> a in Signers(simple.value, k) {
        assert k != subject ==> Signers(simple.value, k) == Signers(book, k);
      }
    }
  }
}
