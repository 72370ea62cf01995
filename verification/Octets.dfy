/**
 Octet strings.  An octet is a plain byte or a symbolic octet: the image of a
 cryptographic primitive on known arguments, one constructor per primitive.
 Strings of octets have the lengths of the real wire format, whichever kind of
 octet they hold, so framing, offsets and truncation are modelled exactly.
 */
module Octets {

  datatype Option<+T> = None | Some(value: T)

  type byte = n: nat | n < 256

  datatype Octet =
    | Byte(b: byte)
    | Masked(o: Octet, mask: byte)
    | Hashed(data: seq<Octet>, at: int)
    | Body(key: seq<Octet>, nonce: seq<Octet>, plain: Octet, at: int)
    | Tag(key: seq<Octet>, nonce: seq<Octet>, ad: seq<Octet>, text: seq<Octet>, at: int)
    | Public(secret: seq<Octet>, at: int)
    | Shared(secrets: set<seq<Octet>>, at: int)

  type Bytes = seq<Octet>

  const KEY_BYTES: nat := 32
  const TAG_BYTES: nat := 16
  const NONCE_BYTES: nat := 12
  const HASHLEN: nat := 64
  const BLOCKLEN: nat := 128

  function Zeros(n: nat): (z: Bytes)
    ensures |z| == n
    ensures forall i :: 0 <= i < n ==> z[i] == Byte(0)
  {
    seq(n, i => Byte(0))
  }

  type Key = k: Bytes | |k| == KEY_BYTES witness Zeros(KEY_BYTES)
  type Digest = d: Bytes | |d| == HASHLEN witness Zeros(HASHLEN)
  type WireNonce = n: Bytes | |n| == NONCE_BYTES witness Zeros(NONCE_BYTES)

  const ZERO_KEY: Key := Zeros(KEY_BYTES)
  const ZERO_DIGEST: Digest := Zeros(HASHLEN)

  /** The first `CIPHER_KEY_BYTES` of a longer string. */
  function KeyOf(b: Bytes): Key
    requires |b| >= KEY_BYTES
  {
    b[..KEY_BYTES]
  }

  /** XOR with a constant byte; on a symbolic octet the masks accumulate. */
  function Xor(o: Octet, c: byte): Octet {
    match o
    case Byte(b) => Byte(XorByte(b, c))
    case Masked(p, m) => if XorByte(m, c) == 0 then p else Masked(p, XorByte(m, c))
    case _ => if c == 0 then o else Masked(o, c)
  }

  /** Octets of the real wire: no symbolic ones. */
  predicate IsPlain(b: Bytes) {
    forall i :: 0 <= i < |b| ==> b[i].Byte?
  }

  function XorByte(a: byte, b: byte): byte {
    ((a as bv8) ^ (b as bv8)) as byte
  }

  function Ascii(s: string): (r: Bytes)
    ensures |r| == |s|
  {
    seq(|s|, i requires 0 <= i < |s| => Byte(s[i] as int % 256))
  }
}
