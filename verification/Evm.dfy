/** The parts of the Ethereum virtual machine the contracts rely on. */
module Evm {
  import opened Bytes

  /** An account address: 160 bits, zero for an unset one. */
  type Address = n: int | 0 <= n < TWO_160

  /** A `bytes32`, an `H256`. */
  type Bytes32 = s: seq<byte> | |s| == 32 witness Zeros(32)

  /** An `H160`. */
  type Bytes20 = s: seq<byte> | |s| == 20 witness Zeros(20)

  /**
   * A `keccak256` digest, as an ideal hash: two digests are equal exactly when their packed
   * preimages are. `KeccakThen` is the digest of octets followed by another digest, as in
   * `keccak256(msg.sender, hash)`.
   */
  datatype Digest = Keccak(preimage: seq<byte>) | KeccakThen(prefix: seq<byte>, inner: Digest)

  /** `ecrecover(hash, v, r, s)`: some function of its arguments; zero stands for a bad signature. */
  type Recover = (Digest, byte, Bytes32, Bytes32) -> Address

  /** `mload(at)`: the 32 octets from `at`; memory that was never written reads as zero. */
  function Mload(memory: seq<byte>, at: nat): (word: Bytes32) {
    (memory + Zeros(at + 32))[at..at + 32]
  }

  /**
   * A `bytes memory` value at address zero of a memory: its length as a 256-bit word, its octets, and
   * whatever was allocated after it.
   */
  function Layout(data: seq<byte>, after: seq<byte>): seq<byte> {
    ToBE(|data|, 32) + data + after
  }

  lemma {:induction false} MloadWithin(data: seq<byte>, after: seq<byte>, k: nat)
    requires k + 32 <= |data|
    ensures Mload(Layout(data, after), 32 + k) == data[k..k + 32]
  {
  }

  /** A word that starts in one stretch of memory and ends in the next. */
  lemma {:induction false} MloadStraddles(head: seq<byte>, data: seq<byte>, after: seq<byte>, at: nat)
    requires at <= |head| < at + 32 <= |head| + |data|
    ensures Mload(head + data + after, at) == head[at..] + data[..at + 32 - |head|]
  {
  }

  /** The first octet of a word. */
  lemma {:induction false} MloadFirst(head: seq<byte>, data: seq<byte>, after: seq<byte>, k: nat)
    requires k < |data|
    ensures Mload(head + data + after, |head| + k)[0] == data[k]
  {
  }
}
