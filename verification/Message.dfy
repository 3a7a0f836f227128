/**
 * The 116-octet withdraw message: written by the relayer (bridge/src/message_to_mainnet.rs), read by
 * the contracts through `mload` (library `Message`).
 */
module Message {
  import opened Wrappers
  import opened Bytes
  import opened Evm

  const MESSAGE_LENGTH: nat := 116

  datatype MessageToMainnet = MessageToMainnet(
    recipient: Bytes20, value: uint256, sidenetTransactionHash: Bytes32, mainnetGasPrice: uint256)

  function Encode(m: MessageToMainnet): seq<byte> {
    m.recipient + ToBE(m.value, 32) + m.sidenetTransactionHash + ToBE(m.mainnetGasPrice, 32)
  }

  function Number(word: Bytes32): uint256 {
    BEBound(word);
    Widths();
    BE(word)
  }

  /** `from_bytes`; `None` is the failing length assertion, which ends the process. */
  function Decode(bytes: seq<byte>): Option<MessageToMainnet> {
    if |bytes| != MESSAGE_LENGTH then None
    else Some(MessageToMainnet(bytes[0..20], Number(bytes[20..52]), bytes[52..84], Number(bytes[84..MESSAGE_LENGTH])))
  }

  method CopyFromSlice(buffer: array<byte>, at: nat, source: seq<byte>)
    requires at + |source| <= buffer.Length
    modifies buffer
    ensures buffer[..] == old(buffer[..at]) + source + old(buffer[at + |source|..])
  {
    forall i | 0 <= i < |source| {
      buffer[at + i] := source[i];
    }
  }

  /** `to_bytes`: a zeroed buffer overwritten slice by slice, leaving none of the zeros. */
  method ToBytes(m: MessageToMainnet) returns (result: array<byte>)
    ensures fresh(result)
    ensures |result[..]| == MESSAGE_LENGTH
    ensures Decode(result[..]) == Some(m)
    ensures result[..] == Encode(m)
  {
    result := new byte[MESSAGE_LENGTH](_ => 0);
    CopyFromSlice(result, 0, m.recipient);
    CopyFromSlice(result, 20, ToBE(m.value, 32));
    CopyFromSlice(result, 52, m.sidenetTransactionHash);
    CopyFromSlice(result, 84, ToBE(m.mainnetGasPrice, 32));
    assert result[..] == Encode(m);
    DecodeEncode(m);
  }

  lemma {:induction false} DecodeEncode(m: MessageToMainnet)
    ensures |Encode(m)| == MESSAGE_LENGTH
    ensures Decode(Encode(m)) == Some(m)
  {
    var s := Encode(m);
    assert s[0..20] == m.recipient;
    assert s[20..52] == ToBE(m.value, 32);
    assert s[52..84] == m.sidenetTransactionHash;
    assert s[84..MESSAGE_LENGTH] == ToBE(m.mainnetGasPrice, 32);
    Widths();
    BEOfToBE(m.value, 32);
    BEOfToBE(m.mainnetGasPrice, 32);
  }

  /** Every 116-octet string is the encoding of the message it decodes to, and of no other. */
  lemma {:induction false} EncodeDecode(bytes: seq<byte>)
    requires |bytes| == MESSAGE_LENGTH
    ensures Decode(bytes).Some? && Encode(Decode(bytes).value) == bytes
    ensures forall m :: Encode(m) == bytes ==> Decode(bytes) == Some(m)
  {
    ToBEOfBE(bytes[20..52]);
    ToBEOfBE(bytes[84..116]);
    assert bytes == bytes[0..20] + bytes[20..52] + bytes[52..84] + bytes[84..116];
    forall m | Encode(m) == bytes ensures Decode(bytes) == Some(m) {
      DecodeEncode(m);
    }
  }

  /* The `mload` getters. `memory` is the memory with the message's length word at address zero. */

  function GetRecipient(memory: seq<byte>): Address {
    BE(Mload(memory, 20)) % TWO_160
  }

  function GetValue(memory: seq<byte>): uint256 {
    Number(Mload(memory, 52))
  }

  function GetTransactionHash(memory: seq<byte>): Bytes32 {
    Mload(memory, 84)
  }

  function GetHomeGasPrice(memory: seq<byte>): uint256 {
    Number(Mload(memory, 116))
  }

  function AddressOf(octets: Bytes20): Address {
    BEBound(octets);
    Widths();
    BE(octets)
  }

  lemma {:induction false} ToBETail(n: nat, w: nat, k: nat)
    requires k <= w
    ensures ToBE(n, w)[k..] == ToBE(n, w - k)
  {
    if k < w {
      ToBETail(n / 256, w - 1, k);
      assert ToBE(n, w)[k..] == ToBE(n / 256, w - 1)[k..] + [n % 256];
    }
  }

  /**
   * The word read for the recipient is not the recipient: twelve octets of the length word precede it,
   * so the word exceeds the recipient by the length times 2^160. Only the truncation to 160 bits gives
   * the recipient.
   */
  lemma {:induction false} RecipientWord(message: seq<byte>, after: seq<byte>)
    requires 20 <= |message| < Pow256(12)
    ensures BE(Mload(Layout(message, after), 20)) == |message| * TWO_160 + BE(message[..20])
    ensures GetRecipient(Layout(message, after)) == AddressOf(message[..20])
  {
    RecipientOctets(message, after);
    PrefixedWord(|message|, 12, message[..20]);
    Widths();
    Truncates(|message|, AddressOf(message[..20]));
  }

  /** A number of `w` octets in front of a word. */
  lemma {:induction false} PrefixedWord(n: nat, w: nat, word: seq<byte>)
    requires n < Pow256(w)
    ensures BE(ToBE(n, w) + word) == n * Pow256(|word|) + BE(word)
  {
    BEOfToBE(n, w);
    BEConcat(ToBE(n, w), word);
  }

  lemma {:induction false} Truncates(n: nat, a: Address)
    ensures (n * TWO_160 + a) % TWO_160 == a
  {
  }

  lemma {:induction false} RecipientOctets(message: seq<byte>, after: seq<byte>)
    requires 20 <= |message|
    ensures Mload(Layout(message, after), 20) == ToBE(|message|, 12) + message[..20]
  {
    ToBETail(|message|, 32, 20);
    MloadStraddles(ToBE(|message|, 32), message, after, 20);
  }

  /** Relayer and contracts read the same four fields from every 116-octet message. */
  lemma {:induction false} GettersAgree(message: seq<byte>, after: seq<byte>)
    requires |message| == MESSAGE_LENGTH
    ensures var memory, m := Layout(message, after), Decode(message).value;
            && GetRecipient(memory) == AddressOf(m.recipient)
            && GetValue(memory) == m.value
            && GetTransactionHash(memory) == m.sidenetTransactionHash
            && GetHomeGasPrice(memory) == m.mainnetGasPrice
  {
    assert MESSAGE_LENGTH < Pow256(12) by {
      assert Pow256(12) == 256 * Pow256(11);
    }
    RecipientWord(message, after);
    assert message[..20] == message[0..20];
    MloadWithin(message, after, 20);
    MloadWithin(message, after, 52);
    MloadWithin(message, after, 84);
  }
}
