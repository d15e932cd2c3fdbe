/**
 * The packet codec as the transport sees it. Its wire format is not part of this model:
 * a codec is a parse function and an encode function, and the transport relies only on
 * the properties stated by `WellFormed`.
 */
module PacketCodec {
  import opened Wrappers

  /** A packet: the header fields the transport reads and an opaque payload. */
  datatype Packet = Packet(command: int, session: int, outOfBand: int, payload: seq<bv8>)

  /** The out-of-band filler `new Packet() { OutOfBand = n }`: every other field at its default. */
  function Filler(n: nat): Packet
  {
    Packet(0, 0, n, [])
  }

  /** One packet parsed from the front of a byte sequence, and how many bytes it took. */
  datatype Parsed = Parsed(packet: Packet, size: nat)

  /**
   * `Packet.Parse` applied to the unread bytes: `None` when they do not hold a whole packet.
   * `Packet.write`: the bytes a packet encodes to.
   */
  datatype Codec = Codec(parse: seq<bv8> -> Option<Parsed>, encode: Packet -> seq<bv8>)

  /** Every successful parse consumes at least one byte, and no more than are there. */
  ghost predicate Progressing(codec: Codec)
  {
    forall s :: codec.parse(s).Some? ==> 0 < codec.parse(s).value.size <= |s|
  }

  /**
   * A filler with out-of-band length `n` (1 to 15) encodes to exactly `n` bytes. The
   * flush path relies on this to land on a block boundary; it is assumed of the codec.
   */
  ghost predicate FillerExact(codec: Codec)
  {
    forall n :: 1 <= n < 16 ==> |codec.encode(Filler(n))| == n
  }

  ghost predicate WellFormed(codec: Codec)
  {
    Progressing(codec) && FillerExact(codec)
  }

  /**
   * The packets a scan hands to the domain, in the order they were parsed (out-of-band
   * fillers are parsed and dropped), and the offset where parsing stopped.
   */
  datatype Scan = Scan(delivered: seq<Packet>, end: nat)

  /**
   * Parsing packets from offset `at` of `s` until a parse fails, appending to `kept` those
   * whose out-of-band length is zero (Connector/Connector/Connection.cs:410-418).
   */
  function ScanFrom(codec: Codec, s: seq<bv8>, at: nat, kept: seq<Packet>): (r: Scan)
    requires Progressing(codec) && at <= |s|
    ensures at <= r.end <= |s|
    decreases |s| - at
  {
    match codec.parse(s[at..])
    case None => Scan(kept, at)
    case Some(p) =>
      ScanFrom(codec, s, at + p.size, if p.packet.outOfBand == 0 then kept + [p.packet] else kept)
  }

  /**
   * A scan never reads past the end of `s`, the bytes it leaves do not start with a whole
   * packet, it only ever adds in-band packets after `kept`, and each one took at least one byte.
   */
  lemma {:induction false} ScanBounds(codec: Codec, s: seq<bv8>, at: nat, kept: seq<Packet>)
    requires Progressing(codec) && at <= |s|
    ensures var r := ScanFrom(codec, s, at, kept);
            && at <= r.end <= |s|
            && codec.parse(s[r.end..]).None?
            && |kept| <= |r.delivered| <= |kept| + (r.end - at)
            && r.delivered[..|kept|] == kept
            && forall i :: |kept| <= i < |r.delivered| ==> r.delivered[i].outOfBand == 0
    decreases |s| - at
  {
    match codec.parse(s[at..])
    case None =>
    case Some(p) =>
      var next := if p.packet.outOfBand == 0 then kept + [p.packet] else kept;
      ScanBounds(codec, s, at + p.size, next);
      assert next[..|kept|] == kept;
  }

  /** What one receive hands to the domain from the plaintext `s`, and where it stopped. */
  function Scanned(codec: Codec, s: seq<bv8>): (r: Scan)
    requires Progressing(codec)
    ensures r.end <= |s| && codec.parse(s[r.end..]).None?
    ensures forall q :: q in r.delivered ==> q.outOfBand == 0
    ensures |r.delivered| <= r.end
  {
    ScanBounds(codec, s, 0, []);
    ScanFrom(codec, s, 0, [])
  }
}
