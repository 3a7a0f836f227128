/** Octet strings and big-endian integers, the representation both chains and the relayer exchange. */
module Bytes {

  type byte = n: int | 0 <= n < 256

  const TWO_64: nat := 0x1_0000_0000_0000_0000
  const TWO_160: nat := 0x1_0000_0000_0000_0000_0000_0000_0000_0000_0000_0000
  const TWO_192: nat := 0x1_0000_0000_0000_0000_0000_0000_0000_0000_0000_0000_0000_0000
  const TWO_256: nat := 0x1_0000_0000_0000_0000_0000_0000_0000_0000_0000_0000_0000_0000_0000_0000_0000_0000

  /** A Rust `u64`. */
  type uint64 = n: int | 0 <= n < TWO_64
  /** A Solidity `uint256`, a Rust `U256`. */
  type uint256 = n: int | 0 <= n < TWO_256

  /** 256 to the power `w`: the number of octet strings of length `w`. */
  function Pow256(w: nat): (p: nat)
    ensures p > 0
  {
    if w == 0 then 1 else 256 * Pow256(w - 1)
  }

  /** The number a big-endian octet string stands for. */
  function BE(s: seq<byte>): nat {
    if s == [] then 0 else BE(s[..|s| - 1]) * 256 + s[|s| - 1]
  }

  /** The low `w` octets of `n`, most significant first. */
  function ToBE(n: nat, w: nat): (s: seq<byte>)
    ensures |s| == w
  {
    if w == 0 then [] else ToBE(n / 256, w - 1) + [n % 256]
  }

  function Zeros(n: nat): (s: seq<byte>)
    ensures |s| == n
  {
    seq(n, _ => 0)
  }

  /** The octets of an ASCII text. */
  function Ascii(text: string): (s: seq<byte>)
    ensures |s| == |text|
  {
    seq(|text|, i requires 0 <= i < |text| => text[i] as int % 256)
  }

  lemma {:induction false} BEBound(s: seq<byte>)
    ensures BE(s) < Pow256(|s|)
  {
    if s != [] {
      BEBound(s[..|s| - 1]);
    }
  }

  lemma {:induction false} BEOfToBE(n: nat, w: nat)
    requires n < Pow256(w)
    ensures BE(ToBE(n, w)) == n
  {
    if w > 0 {
      BEOfToBE(n / 256, w - 1);
      assert ToBE(n, w)[..w - 1] == ToBE(n / 256, w - 1);
    }
  }

  lemma {:induction false} ToBEOfBE(s: seq<byte>)
    ensures ToBE(BE(s), |s|) == s
  {
    if s != [] {
      ToBEOfBE(s[..|s| - 1]);
      assert BE(s) / 256 == BE(s[..|s| - 1]) && BE(s) % 256 == s[|s| - 1];
    }
  }

  /** Big-endian strings of one length are in bijection with the numbers below `Pow256`. */
  lemma {:induction false} ToBEInjective(a: nat, b: nat, w: nat)
    requires a < Pow256(w) && b < Pow256(w)
    requires ToBE(a, w) == ToBE(b, w)
    ensures a == b
  {
    BEOfToBE(a, w);
    BEOfToBE(b, w);
  }

  lemma {:induction false} BEConcat(a: seq<byte>, b: seq<byte>)
    ensures BE(a + b) == BE(a) * Pow256(|b|) + BE(b)
  {
    if b == [] {
      assert a + b == a;
    } else {
      var c := b[..|b| - 1];
      assert (a + b)[..|a + b| - 1] == a + c;
      BEConcat(a, c);
      assert BE(a) * Pow256(|b|) == BE(a) * Pow256(|c|) * 256;
    }
  }

  lemma {:induction false} Pow256Add(a: nat, b: nat)
    ensures Pow256(a + b) == Pow256(a) * Pow256(b)
  {
    if b > 0 {
      Pow256Add(a, b - 1);
      assert Pow256(a) * Pow256(b) == Pow256(a) * Pow256(b - 1) * 256;
    }
  }

  /** The Solidity widths in octets. */
  lemma {:induction false} Widths()
    ensures Pow256(8) == TWO_64
    ensures Pow256(20) == TWO_160
    ensures Pow256(32) == TWO_256
  {
    assert Pow256(2) == 0x1_0000;
    Pow256Add(2, 2);
    Pow256Add(4, 4);
    Pow256Add(8, 8);
    Pow256Add(16, 4);
    Pow256Add(16, 16);
  }
}
