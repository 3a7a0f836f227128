/**
 * The digest validators sign (EIP-191, version 0x45), built in three places: the relayer's
 * `eth_data_hash`, the contracts' `MessageSigning.hashMessage`, and `Message.hashMessage` with a
 * hard-coded length.
 */
module Signing {
  import opened Wrappers
  import opened Bytes
  import opened Evm
  import opened Numerals
  import Signature

  /* Each of the three places spells the prefix out. */

  const RELAYER_PREFIX: seq<byte> := [0x19] + Ascii("Ethereum Signed Message:\n")
  const SIGNING_PREFIX: seq<byte> := [0x19] + Ascii("Ethereum Signed Message:\n")
  const MESSAGE_PREFIX: seq<byte> := [0x19] + Ascii("Ethereum Signed Message:\n")

  /** `eth_data_hash`, where `length` is what the formatter printed for the length of `data`. */
  function EthDataHash(data: seq<byte>, length: seq<byte>): Digest {
    Keccak(RELAYER_PREFIX + length + data)
  }

  /** `MessageSigning.hashMessage`. */
  function HashMessage(message: seq<byte>): Digest {
    Keccak(SIGNING_PREFIX + Decimal(|message|) + message)
  }

  /** `Message.hashMessage`. */
  function HashMessage116(message: seq<byte>): Digest {
    Keccak(MESSAGE_PREFIX + Ascii("116") + message)
  }

  /** The preimage starts with 0x19 and the version octet 0x45, and ends with the message. */
  lemma {:induction false} PersonalMessage(message: seq<byte>)
    ensures var p := HashMessage(message).preimage;
            && p[..2] == [0x19, 0x45]
            && |p| == 26 + |Decimal(|message|)| + |message|
            && p[|p| - |message|..] == message
  {
    var text := "Ethereum Signed Message:\n";
    assert Ascii(text)[0] == text[0] as int % 256;
    assert SIGNING_PREFIX[..2] == [0x19, 0x45];
    var head, p := SIGNING_PREFIX + Decimal(|message|), HashMessage(message).preimage;
    assert p == head + message;
    assert p[..2] == SIGNING_PREFIX[..2];
  }

  lemma {:induction false} RelayerDigestAgrees(message: seq<byte>, length: seq<byte>)
    requires IsShortestNumeral(length, |message|)
    ensures EthDataHash(message, length) == HashMessage(message)
  {
    ShortestIsDecimal(length, |message|);
  }

  /** The hard-coded digest is the signed one on 116-octet messages and on no others. */
  lemma {:induction false} HardCodedDigestAgrees(message: seq<byte>)
    ensures HashMessage116(message) == HashMessage(message) <==> |message| == 116
  {
    var coded := Ascii("116");
    assert coded == Decimal(116) by {
      assert Decimal(1) == [49];
      assert Decimal(11) == [49, 49];
    }
    if HashMessage116(message) == HashMessage(message) {
      var a, b := MESSAGE_PREFIX + coded + message, SIGNING_PREFIX + Decimal(|message|) + message;
      assert a == b && |a| == |b|;
      assert coded == a[|MESSAGE_PREFIX|..|MESSAGE_PREFIX| + 3];
      assert Decimal(|message|) == b[|SIGNING_PREFIX|..|SIGNING_PREFIX| + 3];
      DecimalInjective(116, |message|);
    }
  }

  /**
   * A digest commits to one message. The length and the message are packed without a separator, but
   * the total length already determines where the numeral ends.
   */
  lemma {:induction false} DigestCommits(a: seq<byte>, b: seq<byte>)
    requires HashMessage(a) == HashMessage(b)
    ensures a == b
  {
    var p, q := SIGNING_PREFIX + Decimal(|a|) + a, SIGNING_PREFIX + Decimal(|b|) + b;
    assert p == q && |p| == |q|;
    if |a| <= |b| {
      DecimalMonotone(|a|, |b|);
    } else {
      DecimalMonotone(|b|, |a|);
    }
    assert a == p[|p| - |a|..] && b == q[|q| - |b|..];
  }

  /** `recoverAddressFromSignedMessage`; `None` reverts. */
  function RecoverSigner(rec: Recover, signature: seq<byte>, message: seq<byte>): Option<Address> {
    match Signature.SplitInContract(signature, [])
    case None => None
    case Some(sig) => Some(rec(HashMessage(message), sig.v, sig.r, sig.s))
  }
}
