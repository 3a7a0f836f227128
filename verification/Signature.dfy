/** The 65-octet ECDSA signature (bridge/src/signature.rs) and its split by `MessageSigning`. */
module Signature {
  import opened Wrappers
  import opened Bytes
  import opened Evm

  const SIGNATURE_LENGTH: nat := 65

  datatype Signature = Signature(v: byte, r: Bytes32, s: Bytes32)

  /** `from_bytes`; `None` is the length error. */
  function FromBytes(bytes: seq<byte>): Option<Signature> {
    if |bytes| != SIGNATURE_LENGTH then None
    else Some(Signature(bytes[64], bytes[0..32], bytes[32..64]))
  }

  function Encode(sig: Signature): seq<byte> {
    sig.r + sig.s + [sig.v]
  }

  /** `to_bytes`: a zeroed buffer filled in place. */
  method ToBytes(sig: Signature) returns (result: array<byte>)
    ensures fresh(result)
    ensures FromBytes(result[..]) == Some(sig)
    ensures result[..] == Encode(sig)
  {
    result := new byte[SIGNATURE_LENGTH](_ => 0);
    forall i | 0 <= i < 32 {
      result[i] := sig.r[i];
    }
    forall i | 0 <= i < 32 {
      result[32 + i] := sig.s[i];
    }
    result[64] := sig.v;
    assert result[..] == Encode(sig);
    RoundTrip(sig);
  }

  lemma {:induction false} RoundTrip(sig: Signature)
    ensures FromBytes(Encode(sig)) == Some(sig)
    ensures forall bytes :: FromBytes(bytes) == Some(sig) ==> bytes == Encode(sig)
  {
    var e := Encode(sig);
    assert e[0..32] == sig.r && e[32..64] == sig.s;
    forall bytes | FromBytes(bytes) == Some(sig) ensures bytes == Encode(sig) {
      assert bytes == bytes[0..32] + bytes[32..64] + [bytes[64]];
    }
  }

  /** `r := mload(0x20)`, `s := mload(0x40)`, `v := bytes1(mload(0x60))`; `None` reverts. */
  function SplitInContract(signature: seq<byte>, after: seq<byte>): Option<Signature> {
    if |signature| != 65 then None
    else
      var memory := Layout(signature, after);
      Some(Signature(Mload(memory, 0x60)[0], Mload(memory, 0x20), Mload(memory, 0x40)))
  }

  /** The contract and the relayer split every octet string alike, whatever follows it in memory. */
  lemma {:induction false} SplitsAgree(signature: seq<byte>, after: seq<byte>)
    ensures SplitInContract(signature, after) == FromBytes(signature)
  {
    if |signature| == 65 {
      MloadWithin(signature, after, 0);
      MloadWithin(signature, after, 32);
      MloadFirst(ToBE(|signature|, 32), signature, after, 64);
    }
  }
}
