/**
 * The two AES directions of a connection, kept opaque.
 *
 * The source creates one CBC encryptor and one CBC decryptor without padding and feeds
 * them whole 16-byte blocks (Connector/Connector/Connection.cs:122-128). AES itself is not
 * modelled: a transform is any function of the direction's state and its input. A
 * direction's chaining state is represented by its key, its IV and every byte it has
 * transformed so far, which together determine the CBC state exactly.
 */
module Cipher {

  /** The cipher block size in bytes. */
  const BLOCK: nat := 16

  /** One CBC direction: its key, its IV and the input it has consumed so far. */
  datatype Direction = Direction(key: seq<bv8>, iv: seq<bv8>, consumed: seq<bv8>)

  /** A block transform: the output it produces for `input` from the given state. */
  type Transform = (Direction, seq<bv8>) -> seq<bv8>

  /** The AES implementation the connection uses: one transform per direction. */
  datatype Aes = Aes(encrypt: Transform, decrypt: Transform)

  /** A fresh direction created from a key and an IV, as `CreateEncryptor`/`CreateDecryptor` do. */
  function Start(key: seq<bv8>, iv: seq<bv8>): Direction
  {
    Direction(key, iv, [])
  }

  /** The state of `d` after it has transformed `input`. */
  function Advance(d: Direction, input: seq<bv8>): Direction
  {
    d.(consumed := d.consumed + input)
  }

  /** Advancing twice is advancing once over the concatenated input. */
  lemma AdvanceTwice(d: Direction, a: seq<bv8>, b: seq<bv8>)
    ensures Advance(Advance(d, a), b) == Advance(d, a + b)
  {
    assert d.consumed + a + b == d.consumed + (a + b);
  }

  /** A transform without padding yields exactly as many bytes as it is given. */
  ghost predicate LengthPreserving(t: Transform)
  {
    forall d, s :: |t(d, s)| == |s|
  }

  /** The input `a` followed by the input `b`, as one call to a transform receives them. */
  function Join(a: seq<bv8>, b: seq<bv8>): (r: seq<bv8>)
    ensures |r| == |a| + |b|
  {
    a + b
  }

  /**
   * CBC chaining: transforming whole blocks `a` and then `b` in two calls yields the same
   * bytes as transforming `a + b` in one call.
   */
  ghost predicate Chained(t: Transform)
  {
    forall d, a, b {:trigger t(d, Join(a, b))} :: |a| % BLOCK == 0 ==> t(d, Join(a, b)) == t(d, a) + t(Advance(d, a), b)
  }

  /** `Chained` for one split of the input. */
  lemma ChainSplit(t: Transform, d: Direction, a: seq<bv8>, b: seq<bv8>)
    requires Chained(t) && |a| % BLOCK == 0
    ensures t(d, a + b) == t(d, a) + t(Advance(d, a), b)
  {
    assert t(d, Join(a, b)) == t(d, a) + t(Advance(d, a), b);
  }

  /** What the connection relies on about the AES it is given. */
  ghost predicate WellBehaved(aes: Aes)
  {
    LengthPreserving(aes.encrypt) && LengthPreserving(aes.decrypt) && Chained(aes.encrypt) && Chained(aes.decrypt)
  }
}
