/**
 * AES in counter mode, as the decryptor obtains it from Cryptodome:
 * `AES.new(key, AES.MODE_CTR, counter=Counter.new(64, prefix=iv, initial_value=0))`.
 *
 * The block cipher itself is not modelled: it is the parameter `E`, any function
 * from a key and a 16-byte counter block to a 16-byte block. What is modelled is
 * the counter-mode construction of section 6.5 of NIST SP 800-38A: the j-th
 * counter block is the IV followed by j as a 64-bit big-endian integer, and the
 * keystream is the concatenation of the enciphered counter blocks.
 */
module Ctr {
  import opened Wrappers

  type byte = bv8

  /** One AES block. */
  type Block = s: seq<byte> | |s| == 16 witness [0, 0, 0, 0, 0, 0, 0, 0, 0, 0, 0, 0, 0, 0, 0, 0]

  /** The forward AES block function under a key; its internals are left abstract. */
  type BlockCipher = (seq<byte>, seq<byte>) -> Block

  const BlockSize: nat := 16
  /** `Counter.new(64, ...)`: the counter occupies the last 8 bytes of a block. */
  const CounterBytes: nat := 8

  function Pow256(k: nat): (p: nat)
    ensures p >= 1
  {
    if k == 0 then 1 else 256 * Pow256(k - 1)
  }

  /** The low 64 bits of `c`, big-endian. */
  function Be64(c: nat): (b: seq<byte>)
    ensures |b| == CounterBytes
  {
    seq(8, j requires 0 <= j < 8 => ((c / Pow256(7 - j)) % 256) as byte)
  }

  /** The j-th counter block: the IV as prefix, the block number as counter. */
  function CounterBlock(iv: seq<byte>, j: nat): seq<byte>
  {
    iv + Be64(j)
  }

  /** Byte number `i` of the keystream of a cipher created with `key` and `iv`. */
  function KeystreamByte(E: BlockCipher, key: seq<byte>, iv: seq<byte>, i: nat): byte
  {
    E(key, CounterBlock(iv, i / BlockSize))[i % BlockSize]
  }

  /** The `n` keystream bytes that follow the first `offset` ones. */
  function Keystream(E: BlockCipher, key: seq<byte>, iv: seq<byte>, offset: nat, n: nat): (ks: seq<byte>)
    ensures |ks| == n
  {
    seq(n, i requires 0 <= i < n => KeystreamByte(E, key, iv, offset + i))
  }

  /** A shorter keystream is a prefix of a longer one drawn from the same offset. */
  lemma KeystreamPrefix(E: BlockCipher, key: seq<byte>, iv: seq<byte>, offset: nat, m: nat, n: nat)
    requires m <= n
    ensures Keystream(E, key, iv, offset, n)[..m] == Keystream(E, key, iv, offset, m)
  {
  }

  /** Counter-mode transformation of `data` with the keystream taken from `offset` on. */
  function Crypt(E: BlockCipher, key: seq<byte>, iv: seq<byte>, offset: nat, data: seq<byte>): (out: seq<byte>)
    ensures |out| == |data|
  {
    var ks := Keystream(E, key, iv, offset, |data|);
    seq(|data|, i requires 0 <= i < |data| => data[i] ^ ks[i])
  }

  /** Decryption and encryption are the same operation: applying it twice restores the data. */
  lemma CryptInvolution(E: BlockCipher, key: seq<byte>, iv: seq<byte>, offset: nat, data: seq<byte>)
    ensures Crypt(E, key, iv, offset, Crypt(E, key, iv, offset, data)) == data
  {
    var once := Crypt(E, key, iv, offset, data);
    forall i | 0 <= i < |data|
      ensures Crypt(E, key, iv, offset, once)[i] == data[i]
    {
      var k := KeystreamByte(E, key, iv, offset + i);
      assert once[i] == data[i] ^ k;
      assert (data[i] ^ k) ^ k == data[i];
    }
  }

  /** Transforming two pieces one after the other, the keystream continuing, is transforming their concatenation. */
  lemma CryptSplit(E: BlockCipher, key: seq<byte>, iv: seq<byte>, offset: nat, a: seq<byte>, b: seq<byte>)
    ensures Crypt(E, key, iv, offset, a + b) == Crypt(E, key, iv, offset, a) + Crypt(E, key, iv, offset + |a|, b)
  {
  }

  /** Why `AES.new` refuses to build a cipher. */
  datatype CipherFault =
    | IncorrectKeyLength  // the key is not 16, 24 or 32 bytes long
    | CounterBlockSize    // IV plus 64-bit counter does not fill one 16-byte block

  /** The checks `AES.new` makes, in its order, before a counter-mode cipher exists. */
  function NewCipherFault(key: seq<byte>, iv: seq<byte>): (f: Option<CipherFault>)
    ensures f.None? <==> (|key| == 16 || |key| == 24 || |key| == 32) && |iv| == 8
  {
    if |key| != 16 && |key| != 24 && |key| != 32 then Some(IncorrectKeyLength)
    else if |iv| + CounterBytes != BlockSize then Some(CounterBlockSize)
    else None
  }

  /**
   * A counter-mode cipher object. It is a stream: each `Decrypt` call continues
   * the keystream where the previous call stopped, at byte granularity.
   */
  class CtrCipher {
    const E: BlockCipher
    const key: seq<byte>
    const iv: seq<byte>
    /** How many keystream bytes earlier calls have used. */
    var used: nat

    constructor (E: BlockCipher, key: seq<byte>, iv: seq<byte>)
      requires NewCipherFault(key, iv).None?
      ensures this.E == E && this.key == key && this.iv == iv
      ensures used == 0
    {
      this.E := E;
      this.key := key;
      this.iv := iv;
      used := 0;
    }

    method Decrypt(data: seq<byte>) returns (plain: seq<byte>)
      modifies this
      ensures plain == Crypt(E, key, iv, old(used), data)
      ensures used == old(used) + |data|
    {
      plain := Crypt(E, key, iv, used, data);
      used := used + |data|;
    }
  }
}
