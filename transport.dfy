/**
 * The connection's buffer machine (Connector/Connector/Connection.cs): the receive step
 * that appends raw bytes, decrypts whole blocks, compacts, splits packets and delivers a
 * batch; the send path that keeps the whole-block prefix of the send buffer encrypted and
 * flushes on overflow; `Flush` with its out-of-band filler; the session table and close.
 *
 * AES, the packet codec and the socket are opaque collaborators: the connection holds
 * them and relies only on `Cipher.WellBehaved`, `PacketCodec.WellFormed` and the contract
 * of `Socket`.
 */
module Transport {
  import opened Wrappers
  import opened Cipher
  import opened PacketCodec
  import opened Handshake

  /** The capacity of each of the three buffers (Connection.cs:20-27). */
  const CAPACITY: nat := 262144

  /** The number of slots of the session table: session ids are bytes (Connection.cs:41). */
  const SESSION_SLOTS: nat := 256

  /** `n - n % 16`: the whole-block prefix of `n` bytes. */
  function Aligned(n: nat): (a: nat)
    ensures a <= n && a % BLOCK == 0 && n - a < BLOCK
  {
    n - n % BLOCK
  }

  /**
   * The number of raw bytes a receive step decrypts (Connection.cs:387-390): the whole
   * blocks of the raw buffer, cut down to the whole blocks that still fit the plaintext
   * buffer.
   */
  function Usable(raw: nat, plain: nat): (u: nat)
    requires plain <= CAPACITY
    ensures u % BLOCK == 0 && u <= raw && plain + u <= CAPACITY
  {
    var u := Aligned(raw);
    if plain + u > CAPACITY then Aligned(CAPACITY - plain) else u
  }

  /** `Usable` is the largest block multiple that is buffered and fits the plaintext buffer. */
  lemma UsableIsLargest(raw: nat, plain: nat, v: nat)
    requires plain <= CAPACITY
    requires v % BLOCK == 0 && v <= raw && plain + v <= CAPACITY
    ensures v <= Usable(raw, plain)
  {
    var room := CAPACITY - plain;
    if plain + Aligned(raw) > CAPACITY {
      assert v <= room;
      BlockBelow(v, room);
    } else {
      BlockBelow(v, raw);
    }
  }

  /** Less than one block has no whole-block prefix. */
  lemma AlignedSmall(n: nat)
    requires n < BLOCK
    ensures Aligned(n) == 0
  {
  }

  /** A block multiple below `n` is below `n`'s whole-block prefix. */
  lemma BlockBelow(v: nat, n: nat)
    requires v % BLOCK == 0 && v <= n
    ensures v <= Aligned(n)
  {
  }

  /** The state of one slot of the session table. */
  datatype SessionState = Waiting | Answered(reply: Packet) | Cancelled

  /** The reasons a session cannot be created. */
  datatype SessionError = NotConnected | CapacityExceeded

  /**
   * The lowest free slot of the table (the slot allocator's `Insert`), or `None` when every
   * slot is taken.
   */
  function LowestFree(slots: seq<Option<SessionState>>, from: nat := 0): (r: Option<nat>)
    requires from <= |slots|
    ensures r.Some? ==> from <= r.value < |slots| && slots[r.value].None?
    ensures r.Some? ==> forall j :: from <= j < r.value ==> slots[j].Some?
    ensures r.None? ==> forall j :: from <= j < |slots| ==> slots[j].Some?
    decreases |slots| - from
  {
    if from == |slots| then None
    else if slots[from].None? then Some(from)
    else LowestFree(slots, from + 1)
  }

  /** Every session still waiting is told the connection is gone; answered ones keep their reply. */
  function CancelAll(slots: seq<Option<SessionState>>): (r: seq<Option<SessionState>>)
    ensures |r| == |slots|
    ensures forall i :: 0 <= i < |slots| ==> r[i].Some? == slots[i].Some?
    ensures forall i :: 0 <= i < |slots| && slots[i] == Some(Waiting) ==> r[i] == Some(Cancelled)
    ensures forall i :: 0 <= i < |slots| && slots[i] != Some(Waiting) ==> r[i] == slots[i]
  {
    seq(|slots|, i requires 0 <= i < |slots| => if slots[i] == Some(Waiting) then Some(Cancelled) else slots[i])
  }

  /** `s` with `data` written over it from offset `at`. */
  function Splice<T>(s: seq<T>, at: nat, data: seq<T>): (r: seq<T>)
    requires at + |data| <= |s|
    ensures |r| == |s|
  {
    s[..at] + data + s[at + |data|..]
  }

  /** The first `n` elements of a splice that ends by `n`. */
  lemma SplicePrefix<T>(s: seq<T>, at: nat, data: seq<T>, n: nat)
    requires at + |data| <= n <= |s|
    ensures Splice(s, at, data)[..n] == s[..at] + data + s[at + |data|..n]
  {
  }

  /** `Buffer.BlockCopy(buf, from, buf, 0, len)`: moves `buf[from..from + len]` down to offset 0. */
  method MoveToFront(buf: array<bv8>, from: nat, len: nat)
    requires from + len <= buf.Length
    modifies buf
    ensures buf[..] == Splice(old(buf[..]), 0, old(buf[from..from + len]))
  {
    ghost var moved := buf[from..from + len];
    forall i | 0 <= i < len {
      buf[i] := buf[from + i];
    }
    assert buf[..] == [] + moved + old(buf[len..]);
  }

  /**
   * The compaction after a buffer's prefix `[0, from)` is consumed: an empty remainder just
   * resets the position, otherwise the remainder moves to offset 0. Returns the new position.
   */
  method Compact(buf: array<bv8>, from: nat, pos: nat) returns (rest: nat)
    requires from <= pos <= buf.Length
    modifies buf
    ensures rest == pos - from && buf[..rest] == old(buf[from..pos])
  {
    if from == pos {
      return 0;
    }
    ghost var tail := buf[from..pos];
    MoveToFront(buf, from, pos - from);
    SplicePrefix(old(buf[..]), 0, tail, |tail|);
    assert buf[..|tail|] == [] + tail + [];
    rest := pos - from;
  }

  /** Appends `data` to the `pos` bytes a buffer holds; returns the new position. */
  method Put(buf: array<bv8>, pos: nat, data: seq<bv8>) returns (next: nat)
    requires pos + |data| <= buf.Length
    modifies buf
    ensures next == pos + |data| && buf[..next] == old(buf[..pos]) + data
  {
    Store(buf, pos, data);
    SplicePrefix(old(buf[..]), pos, data, pos + |data|);
    next := pos + |data|;
    assert buf[..next] == old(buf[..pos]) + data + [];
  }

  /** Writes `data` into `buf` at offset `at`, leaving every other byte as it was. */
  method Store(buf: array<bv8>, at: nat, data: seq<bv8>)
    requires at + |data| <= buf.Length
    modifies buf
    ensures buf[..] == Splice(old(buf[..]), at, data)
  {
    forall i | 0 <= i < |data| {
      buf[at + i] := data[i];
    }
    assert buf[..] == old(buf[..at]) + data + old(buf[at + |data|..]);
  }

  /**
   * The packets of `buf[..len]` with out-of-band filler dropped, and the offset where the
   * unparsed bytes begin (Connection.cs:404-418).
   */
  method ScanPackets(codec: Codec, buf: array<bv8>, len: nat) returns (batch: seq<Packet>, end: nat)
    requires Progressing(codec) && len <= buf.Length
    ensures Scan(batch, end) == Scanned(codec, buf[..len])
  {
    ghost var s := buf[..len];
    batch, end := [], 0;
    var next := codec.parse(buf[0..len]);
    while next.Some?
      invariant end <= len
      invariant next == codec.parse(s[end..])
      invariant ScanFrom(codec, s, end, batch) == Scanned(codec, s)
      decreases len - end
    {
      var p := next.value;
      if p.packet.outOfBand == 0 {
        batch := batch + [p.packet];
      }
      end := end + p.size;
      next := codec.parse(buf[end..len]);
    }
  }

  /**
   * The socket as the connection uses it: an open flag and the bytes it has put on the
   * wire. A send may accept fewer bytes than it is given or report an error; sending on a
   * closed socket fails.
   */
  class Socket {
    var open: bool
    var transmitted: seq<bv8>

    constructor ()
      ensures open && transmitted == []
    {
      open, transmitted := true, [];
    }

    method Send(data: seq<bv8>) returns (accepted: nat, failed: bool)
      modifies this
      ensures open == old(open)
      ensures accepted <= |data| && transmitted == old(transmitted) + data[..accepted]
      ensures !old(open) ==> accepted == 0 && failed
    {
      if !open {
        accepted, failed := 0, true;
      } else {
        accepted :| accepted <= |data|;
        failed :| true;
        transmitted := transmitted + data[..accepted];
      }
    }

    method Close()
      modifies this
      ensures !open && transmitted == old(transmitted)
    {
      open := false;
    }
  }

  /** The bytes all of `packets` encode to, one after the other. */
  function Encodings(codec: Codec, packets: seq<Packet>): (r: seq<bv8>)
    ensures packets == [] ==> r == []
  {
    if packets == [] then [] else Encodings(codec, packets[..|packets| - 1]) + codec.encode(packets[|packets| - 1])
  }

  /** Encoding one more packet appends its bytes. */
  lemma EncodingsSnoc(codec: Codec, packets: seq<Packet>, i: nat)
    requires i < |packets|
    ensures Encodings(codec, packets[..i + 1]) == Encodings(codec, packets[..i]) + codec.encode(packets[i])
  {
    assert packets[..i + 1][..i] == packets[..i];
  }

  lemma AppendAssoc<T>(a: seq<T>, b: seq<T>, c: seq<T>)
    ensures a + b + c == a + (b + c)
  {
  }

  /**
   * A packet whose encoding is at most `CAPACITY - 15` bytes always fits once the send
   * buffer holds less than one block.
   */
  predicate Fits(codec: Codec, p: Packet)
  {
    |codec.encode(p)| <= CAPACITY - (BLOCK - 1)
  }

  /**
   * A partial block of the send buffer, padded to its end, lands on the next block boundary,
   * which still lies inside the buffer.
   */
  lemma PaddingFits(pos: nat)
    requires pos <= CAPACITY && pos % BLOCK != 0
    ensures pos + (BLOCK - pos % BLOCK) == Aligned(pos) + BLOCK <= CAPACITY
    ensures (Aligned(pos) + BLOCK) % BLOCK == 0 && Aligned(Aligned(pos) + BLOCK) == Aligned(pos) + BLOCK
  {
    var q := pos / BLOCK;
    assert pos == BLOCK * q + pos % BLOCK;
    assert Aligned(pos) == BLOCK * q;
    assert BLOCK * q < CAPACITY;
    assert CAPACITY == BLOCK * 16384;
    assert Aligned(pos) + BLOCK == BLOCK * (q + 1);
  }

  /**
   * `buf` holds `plain` with its first `c` bytes encrypted in one chain from `base` and the
   * rest in clear; `state` is that chain's state after the `c` bytes.
   */
  ghost predicate Sealed(aes: Aes, base: Direction, plain: seq<bv8>, buf: seq<bv8>, c: nat, state: Direction)
  {
    && c % BLOCK == 0 && c <= |plain| && |buf| == |plain|
    && state == Advance(base, plain[..c])
    && buf[..c] == aes.encrypt(base, plain[..c])
    && buf[c..] == plain[c..]
  }

  /** An empty buffer is sealed from any state. */
  lemma SealedEmpty(aes: Aes, d: Direction)
    requires LengthPreserving(aes.encrypt)
    ensures Sealed(aes, d, [], [], 0, d)
  {
    assert Advance(d, []) == d;
    assert |aes.encrypt(d, [])| == 0;
  }

  /** Appending clear bytes after the encrypted prefix keeps the buffer sealed. */
  lemma SealedWrite(aes: Aes, base: Direction, plain: seq<bv8>, buf: seq<bv8>, c: nat, state: Direction, bytes: seq<bv8>)
    requires Sealed(aes, base, plain, buf, c, state)
    ensures Sealed(aes, base, plain + bytes, buf + bytes, c, state)
  {
    assert (plain + bytes)[..c] == plain[..c];
    assert (buf + bytes)[..c] == buf[..c];
    assert (plain + bytes)[c..] == plain[c..] + bytes;
    assert (buf + bytes)[c..] == buf[c..] + bytes;
  }

  /**
   * Encrypting the clear whole blocks `[c, to)` in place, continuing the chain from
   * `state`, extends the encrypted prefix to `to`.
   */
  lemma SealedEncrypt(aes: Aes, base: Direction, plain: seq<bv8>, buf: seq<bv8>, c: nat, state: Direction, to: nat)
    requires Chained(aes.encrypt) && LengthPreserving(aes.encrypt)
    requires Sealed(aes, base, plain, buf, c, state)
    requires c <= to <= |plain| && to % BLOCK == 0
    ensures buf[c..to] == plain[c..to]
    ensures Sealed(aes, base, plain, buf[..c] + aes.encrypt(state, buf[c..to]) + buf[to..], to, Advance(state, buf[c..to]))
  {
    assert buf[c..to] == buf[c..][..to - c];
    assert plain[c..to] == plain[c..][..to - c];
    var sealed := aes.encrypt(state, buf[c..to]);
    var next := buf[..c] + sealed + buf[to..];
    AdvanceTwice(base, plain[..c], plain[c..to]);
    assert plain[..c] + plain[c..to] == plain[..to];
    ChainSplit(aes.encrypt, base, plain[..c], plain[c..to]);
    assert next[..to] == buf[..c] + sealed;
    assert next[to..] == buf[to..];
    assert buf[to..] == buf[c..][to - c..];
    assert plain[to..] == plain[c..][to - c..];
  }

  /** Once the encrypted prefix `[0, a)` is handed off, the rest is a sealed buffer with nothing encrypted. */
  lemma SealedDrain(aes: Aes, base: Direction, plain: seq<bv8>, buf: seq<bv8>, a: nat, state: Direction)
    requires LengthPreserving(aes.encrypt)
    requires Sealed(aes, base, plain, buf, a, state)
    ensures Sealed(aes, state, plain[a..], buf[a..], 0, state)
  {
    assert plain[a..][..0] == [];
    assert Advance(state, []) == state;
    assert |aes.encrypt(state, [])| == 0;
  }

  /**
   * Handing the encrypted prefix `[0, a)` to a socket that carried the chain for `sent`
   * makes it carry the chain for `sent` followed by the prefix's plaintext.
   */
  lemma ChainExtends(aes: Aes, start: Direction, sent: seq<bv8>, plain: seq<bv8>, buf: seq<bv8>, a: nat, state: Direction)
    requires Chained(aes.encrypt)
    requires |sent| % BLOCK == 0 && Sealed(aes, Advance(start, sent), plain, buf, a, state)
    ensures aes.encrypt(start, sent) + buf[..a] == aes.encrypt(start, sent + plain[..a])
    ensures state == Advance(start, sent + plain[..a])
    ensures |sent + plain[..a]| % BLOCK == 0
  {
    AdvanceTwice(start, sent, plain[..a]);
    ChainSplit(aes.encrypt, start, sent, plain[..a]);
  }

  /**
   * What one receive step leaves behind: the raw bytes still waiting for a whole block, the
   * plaintext not yet parsed, the decryptor's state and the batch handed to the domain.
   */
  datatype Arrival = Arrival(raw: seq<bv8>, plain: seq<bv8>, state: Direction, batch: seq<Packet>)

  /**
   * One receive step on the buffered raw bytes `raw` (what was left plus what arrived) and
   * the unparsed plaintext `plain` (Connection.cs:383-430): with fewer than 16 raw bytes
   * nothing is decrypted or parsed; otherwise the usable whole blocks are decrypted after
   * `plain`, the packets are parsed off the front and the in-band ones form the batch.
   */
  function Receipt(aes: Aes, codec: Codec, raw: seq<bv8>, plain: seq<bv8>, state: Direction): (r: Arrival)
    requires Progressing(codec) && |plain| <= CAPACITY
    ensures |r.raw| <= |raw| && (|raw| - |r.raw|) % BLOCK == 0 && r.raw == raw[|raw| - |r.raw|..]
    ensures forall q :: q in r.batch ==> q.outOfBand == 0
  {
    if |raw| <= 15 then Arrival(raw, plain, state, [])
    else
      var usable := Usable(|raw|, |plain|);
      var all := plain + aes.decrypt(state, raw[..usable]);
      var scan := Scanned(codec, all);
      Arrival(raw[usable..], all[scan.end..], Advance(state, raw[..usable]), scan.delivered)
  }

  /**
   * Below one block nothing happens; from one block on, a receive step decrypts every whole
   * block unless the plaintext buffer has less than a block of room left, and it stops
   * parsing only where no whole packet remains; only in-band packets are delivered.
   */
  lemma ReceiptDrains(aes: Aes, codec: Codec, raw: seq<bv8>, plain: seq<bv8>, state: Direction)
    requires Progressing(codec) && |plain| <= CAPACITY
    ensures var r := Receipt(aes, codec, raw, plain, state);
            && (|raw| < BLOCK ==> r == Arrival(raw, plain, state, []))
            && (|raw| >= BLOCK ==> |r.raw| < BLOCK || |plain| + (|raw| - |r.raw|) > CAPACITY - BLOCK)
            && (|raw| >= BLOCK ==> codec.parse(r.plain).None?)
            && forall q :: q in r.batch ==> q.outOfBand == 0
  {
    if |raw| >= BLOCK {
      var usable := Usable(|raw|, |plain|);
      var all := plain + aes.decrypt(state, raw[..usable]);
      var scan := Scanned(codec, all);
      assert |raw[usable..]| == |raw| - usable;
      if usable != Aligned(|raw|) {
        assert usable == Aligned(CAPACITY - |plain|);
      }
    }
  }

  /**
   * The receive invariant: everything the decryptor has produced since `start` is the
   * plaintext already parsed followed by the plaintext still buffered. A receive step keeps
   * it, consuming a whole-block prefix of the raw bytes and advancing the decryptor over
   * exactly that prefix, so no byte is lost, repeated or reordered.
   */
  lemma {:induction false} ReceiptKeepsStream(aes: Aes, codec: Codec, start: Direction, consumed: seq<bv8>, parsed: seq<bv8>, raw: seq<bv8>, plain: seq<bv8>)
    requires WellBehaved(aes) && Progressing(codec) && |plain| <= CAPACITY
    requires |consumed| % BLOCK == 0 && aes.decrypt(start, consumed) == parsed + plain
    ensures var r := Receipt(aes, codec, raw, plain, Advance(start, consumed));
            var k := |raw| - |r.raw|;
            && 0 <= k && k % BLOCK == 0 && raw == raw[..k] + r.raw
            && r.state == Advance(start, consumed + raw[..k])
            && |r.plain| <= |plain| + k
            && aes.decrypt(start, consumed + raw[..k]) == parsed + (plain + aes.decrypt(Advance(start, consumed), raw[..k]))[..|plain| + k - |r.plain|] + r.plain
  {
    var state := Advance(start, consumed);
    var r := Receipt(aes, codec, raw, plain, state);
    var k := |raw| - |r.raw|;
    if |raw| <= 15 {
      assert raw[..k] == [];
      assert consumed + raw[..k] == consumed;
    } else {
      var usable := Usable(|raw|, |plain|);
      assert raw == raw[..usable] + raw[usable..];
      assert k == usable && raw[..k] == raw[..usable];
      AdvanceTwice(start, consumed, raw[..k]);
      ChainSplit(aes.decrypt, start, consumed, raw[..k]);
      var all := plain + aes.decrypt(state, raw[..k]);
      var scan := Scanned(codec, all);
      assert all == all[..scan.end] + r.plain;
      assert |all| == |plain| + k && scan.end == |plain| + k - |r.plain|;
      calc {
        aes.decrypt(start, consumed + raw[..k]);
        parsed + plain + aes.decrypt(state, raw[..k]);
        { AppendAssoc(parsed, plain, aes.decrypt(state, raw[..k])); }
        parsed + all;
        { AppendAssoc(parsed, all[..scan.end], r.plain); }
        parsed + all[..scan.end] + r.plain;
      }
    }
  }

  class Connection {
    const aes: Aes
    const codec: Codec
    const socket: Socket

    const recvBuffer: array<bv8>
    var recvBufferPosition: nat
    const recvPlain: array<bv8>
    var recvPlainPosition: nat
    const sendBuffer: array<bv8>
    var sendBufferPosition: nat

    var sendAes: Direction
    var recvAes: Direction

    var closed: bool
    var sessions: seq<Option<SessionState>>
    /** How many times the `Disconnected` event has been raised. */
    var disconnectNotices: nat

    /** The encryptor's state when the connection was established. */
    ghost const sendStart: Direction
    /** What the socket had carried before the connection took it over (the handshake). */
    ghost const wireBase: seq<bv8>
    /** The plaintext of every whole block handed to the socket so far, in order. */
    ghost var sentPlain: seq<bv8>
    /** The plaintext of `sendBuffer[..sendBufferPosition]`. */
    ghost var sendPlain: seq<bv8>
    /** The encryptor's state when the bytes now in the send buffer began. */
    ghost var sendBase: Direction

    /** Buffers, cursors and collaborators as the source sets them up. */
    ghost predicate Shape()
      reads this`recvBufferPosition, this`recvPlainPosition, this`sendBufferPosition, this`sessions
    {
      && recvBuffer.Length == CAPACITY && recvPlain.Length == CAPACITY && sendBuffer.Length == CAPACITY
      && recvBuffer != recvPlain && recvBuffer != sendBuffer && recvPlain != sendBuffer
      && recvBufferPosition <= CAPACITY && recvPlainPosition <= CAPACITY && sendBufferPosition <= CAPACITY
      && |sessions| == SESSION_SLOTS
      && WellBehaved(aes) && WellFormed(codec)
    }

    /** The send buffer holds `sendPlain`, its first `c` bytes encrypted in the chain from `sendBase`. */
    ghost predicate EncryptedUpTo(c: nat)
      reads this`sendBufferPosition, this`sendPlain, this`sendAes, this`sendBase, sendBuffer
      requires sendBufferPosition <= sendBuffer.Length
    {
      Sealed(aes, sendBase, sendPlain, sendBuffer[..sendBufferPosition], c, sendAes)
    }

    /**
     * Everything handed to the socket is whole blocks encrypted in one chain from
     * `sendStart`; while the socket is open it has carried exactly that after `wireBase`.
     * A closed connection has a closed socket.
     */
    ghost predicate Wire()
      reads this`sentPlain, this`sendBase, this`closed, socket
    {
      && |sentPlain| % BLOCK == 0
      && sendBase == Advance(sendStart, sentPlain)
      && (socket.open ==> socket.transmitted == wireBase + aes.encrypt(sendStart, sentPlain))
      && (closed ==> !socket.open)
    }

    /** Between calls exactly the whole-block prefix `[0, pos - pos % 16)` is encrypted. */
    ghost predicate Sending()
      reads this`sendBufferPosition, this`sendPlain, this`sendAes, this`sendBase, this`sentPlain, this`closed, sendBuffer, socket
    {
      sendBufferPosition <= sendBuffer.Length && EncryptedUpTo(Aligned(sendBufferPosition)) && Wire()
    }

    ghost predicate Valid()
      reads this`recvBufferPosition, this`recvPlainPosition, this`sendBufferPosition, this`sessions
      reads this`sendPlain, this`sendAes, this`sendBase, this`sentPlain, this`closed, sendBuffer, socket
    {
      Shape() && Sending()
    }

    /** Every byte ever given to `Send`, in order: what was handed to the socket, then what waits. */
    ghost function Stream(): seq<bv8>
      reads this`sentPlain, this`sendPlain
    {
      sentPlain + sendPlain
    }

    /** The connection as `Connect` leaves it: both directions set up, all buffers empty. */
    constructor (aes: Aes, codec: Codec, established: Established, socket: Socket)
      requires WellBehaved(aes) && WellFormed(codec)
      ensures Valid() && fresh(recvBuffer) && fresh(recvPlain) && fresh(sendBuffer)
      ensures this.aes == aes && this.codec == codec && this.socket == socket
      ensures sendAes == established.send && recvAes == established.recv
      ensures recvBufferPosition == 0 && recvPlainPosition == 0 && sendBufferPosition == 0
      ensures !closed && disconnectNotices == 0 && sessions == seq(SESSION_SLOTS, _ => None)
      ensures Stream() == [] && wireBase == socket.transmitted
    {
      this.aes, this.codec, this.socket := aes, codec, socket;
      recvBuffer := new bv8[CAPACITY];
      recvPlain := new bv8[CAPACITY];
      sendBuffer := new bv8[CAPACITY];
      recvBufferPosition, recvPlainPosition, sendBufferPosition := 0, 0, 0;
      sendAes, recvAes := established.send, established.recv;
      closed, disconnectNotices := false, 0;
      sessions := seq(SESSION_SLOTS, _ => None);
      sendStart, wireBase := established.send, socket.transmitted;
      sentPlain, sendPlain, sendBase := [], [], established.send;
      new;
      SealedEmpty(aes, sendBase);
      assert Advance(sendStart, []) == sendStart;
    }

    /**
     * `packet.write(sendBuffer, ref sendBufferPosition)`: appends the packet's encoding when
     * it fits and reports whether it did; a packet that does not fit changes nothing.
     */
    method WritePacket(p: Packet, ghost c: nat) returns (ok: bool)
      requires Shape() && EncryptedUpTo(c) && Wire()
      modifies this`sendBufferPosition, this`sendPlain, sendBuffer
      ensures Shape() && EncryptedUpTo(c) && Wire()
      ensures ok <==> old(sendBufferPosition) + |codec.encode(p)| <= CAPACITY
      ensures ok ==> sendPlain == old(sendPlain) + codec.encode(p)
      ensures !ok ==> sendPlain == old(sendPlain) && unchanged(sendBuffer)
    {
      var bytes := codec.encode(p);
      if sendBufferPosition + |bytes| > CAPACITY {
        return false;
      }
      Store(sendBuffer, sendBufferPosition, bytes);
      SealedWrite(aes, sendBase, sendPlain, old(sendBuffer[..sendBufferPosition]), c, sendAes, bytes);
      SplicePrefix(old(sendBuffer[..]), sendBufferPosition, bytes, sendBufferPosition + |bytes|);
      sendBufferPosition := sendBufferPosition + |bytes|;
      sendPlain := sendPlain + bytes;
      assert sendBuffer[..sendBufferPosition] == old(sendBuffer[..sendBufferPosition]) + bytes + [];
      ok := true;
    }

    /**
     * `sendAES.TransformBlock(sendBuffer, from, newBlock - from, sendBuffer, from)`: encrypts,
     * in place and in the same chain, the whole blocks written since offset `from`; when no
     * block was completed nothing is encrypted.
     */
    method EncryptPending(from: nat)
      requires Shape() && EncryptedUpTo(from) && Wire()
      modifies this`sendAes, sendBuffer
      ensures Shape() && EncryptedUpTo(Aligned(sendBufferPosition)) && Wire()
      ensures sendBuffer[..from] == old(sendBuffer[..from])
      ensures sendBuffer[Aligned(sendBufferPosition)..] == old(sendBuffer[Aligned(sendBufferPosition)..])
    {
      var to := Aligned(sendBufferPosition);
      BlockBelow(from, sendBufferPosition);
      if from != to {
        var buf := sendBuffer[..sendBufferPosition];
        var clear := buf[from..to];
        SealedEncrypt(aes, sendBase, sendPlain, buf, from, sendAes, to);
        var sealed := aes.encrypt(sendAes, clear);
        Store(sendBuffer, from, sealed);
        sendAes := Advance(sendAes, clear);
        SplicePrefix(old(sendBuffer[..]), from, sealed, sendBufferPosition);
        assert old(sendBuffer[..])[..from] == buf[..from];
        assert old(sendBuffer[..])[to..sendBufferPosition] == buf[to..];
      }
    }

    /**
     * `socket.Send(sendBuffer, 0, Aligned(pos))`: hands the encrypted prefix to the socket;
     * a short or failed send closes the socket.
     */
    method TransmitBlocks() returns (ok: bool)
      requires Valid()
      modifies socket
      ensures Shape() && EncryptedUpTo(Aligned(sendBufferPosition))
      ensures |sentPlain| % BLOCK == 0 && sendBase == Advance(sendStart, sentPlain) && (closed ==> !socket.open)
      ensures !ok ==> Valid()
      ensures ok ==> socket.open && socket.transmitted == old(socket.transmitted) + sendBuffer[..Aligned(sendBufferPosition)]
      ensures !ok ==> !socket.open
      ensures old(!socket.open) ==> !ok
    {
      var block := Aligned(sendBufferPosition);
      var accepted, failed := socket.Send(sendBuffer[..block]);
      ok := accepted == block && !failed && socket.open;
      if !ok {
        socket.Close();
      }
    }

    /**
     * The overflow path of `Send`: transmits the encrypted whole-block prefix and moves the
     * clear remainder to offset 0 (Connection.cs:524-552). On a failed transmit the socket is
     * closed and the buffer is left as it was; `closed` is not set.
     */
    method Drain() returns (ok: bool)
      requires Valid()
      modifies this`sendBufferPosition, this`sendPlain, this`sentPlain, this`sendBase, sendBuffer, socket
      ensures Valid()
      ensures Stream() == old(Stream())
      ensures ok ==> socket.open && sendBufferPosition == old(sendBufferPosition % BLOCK)
      ensures !ok ==> !socket.open && sendBufferPosition == old(sendBufferPosition) && unchanged(sendBuffer)
      ensures old(!socket.open) ==> !ok
    {
      ok := TransmitBlocks();
      if ok {
        Shift();
      }
    }

    /**
     * After a successful transmit of the encrypted whole-block prefix: that prefix's
     * plaintext now counts as sent and the clear remainder moves to offset 0.
     */
    method Shift()
      requires Shape() && EncryptedUpTo(Aligned(sendBufferPosition))
      requires |sentPlain| % BLOCK == 0 && sendBase == Advance(sendStart, sentPlain) && (closed ==> !socket.open)
      requires socket.open && socket.transmitted == wireBase + aes.encrypt(sendStart, sentPlain) + sendBuffer[..Aligned(sendBufferPosition)]
      modifies this`sendBufferPosition, this`sendPlain, this`sentPlain, this`sendBase, sendBuffer
      ensures Valid()
      ensures Stream() == old(Stream())
      ensures sendBufferPosition == old(sendBufferPosition % BLOCK)
    {
      var block := Aligned(sendBufferPosition);
      ghost var buf := sendBuffer[..sendBufferPosition];
      ghost var plain := sendPlain;
      assert sendBuffer[..block] == buf[..block];
      ChainExtends(aes, sendStart, sentPlain, plain, buf, block, sendAes);
      SealedDrain(aes, sendBase, plain, buf, block, sendAes);
      ghost var sent := sentPlain + plain[..block];
      AppendAssoc(wireBase, aes.encrypt(sendStart, sentPlain), buf[..block]);
      assert plain[..block] + plain[block..] == plain;
      sentPlain, sendBase := sent, sendAes;
      sendBufferPosition := Compact(sendBuffer, block, sendBufferPosition);
      sendPlain := plain[block..];
      AppendAssoc(old(sentPlain), plain[..block], plain[block..]);
      assert sendBuffer[..sendBufferPosition] == buf[block..];
      AlignedSmall(sendBufferPosition);
      assert EncryptedUpTo(0);
      assert Wire();
    }

    /**
     * One turn of `Send`'s loop (Connection.cs:520-562): write the packet; when it does not
     * fit, drain the buffer (stopping on a failed transmit) and write it again, ignoring
     * whether the retry fits; then encrypt the blocks the packet completed.
     */
    method SendOne(p: Packet) returns (stop: bool)
      requires Valid()
      modifies this`sendBufferPosition, this`sendPlain, this`sentPlain, this`sendBase, this`sendAes, sendBuffer, socket
      ensures Valid()
      ensures stop ==> !socket.open
      ensures old(!socket.open) ==> !socket.open
      ensures socket.open && Fits(codec, p) ==> Stream() == old(Stream()) + codec.encode(p)
    {
      var currentBlock := Aligned(sendBufferPosition);
      var ok := WritePacket(p, currentBlock);
      if !ok {
        ok := Drain();
        if !ok {
          return true;
        }
        currentBlock := 0;
        ghost var drained := sendPlain;
        ok := WritePacket(p, 0);
        if ok {
          AppendAssoc(sentPlain, drained, codec.encode(p));
        }
      } else {
        AppendAssoc(sentPlain, old(sendPlain), codec.encode(p));
      }
      EncryptPending(currentBlock);
      stop := false;
    }

    /**
     * `Send(params Packet[] packets)` (Connection.cs:513-565): nothing happens on a closed
     * connection. Otherwise, as long as the socket stays open and every packet fits after a
     * drain, the bytes given to the socket followed by those still buffered are exactly the
     * earlier ones followed by the packets' encodings in order, and only the whole-block
     * prefix of the buffer is encrypted.
     */
    method Send(packets: seq<Packet>)
      requires Valid()
      modifies this`sendBufferPosition, this`sendPlain, this`sentPlain, this`sendBase, this`sendAes, sendBuffer, socket
      ensures Valid()
      ensures old(closed) ==> unchanged(this, sendBuffer, socket)
      ensures old(!socket.open) ==> !socket.open
      ensures socket.open && (forall j | 0 <= j < |packets| :: Fits(codec, packets[j])) ==> Stream() == old(Stream()) + Encodings(codec, packets)
    {
      if closed {
        return;
      }
      var i := 0;
      while i < |packets|
        invariant i <= |packets| && Valid()
        invariant old(!socket.open) ==> !socket.open
        invariant socket.open && (forall j | 0 <= j < i :: Fits(codec, packets[j])) ==> Stream() == old(Stream()) + Encodings(codec, packets[..i])
      {
        ghost var before := Stream();
        var stop := SendOne(packets[i]);
        if stop {
          return;
        }
        EncodingsSnoc(codec, packets, i);
        AppendAssoc(old(Stream()), Encodings(codec, packets[..i]), codec.encode(packets[i]));
        i := i + 1;
      }
      assert packets[..i] == packets;
    }

    /**
     * The padding step of `Flush` (Connection.cs:490-496): writes the out-of-band filler
     * `16 - pos % 16` bytes long, which lands the buffer on a block boundary, and encrypts
     * that last block alone.
     */
    method PadBlock()
      requires Valid() && sendBufferPosition % BLOCK != 0
      modifies this`sendBufferPosition, this`sendPlain, this`sendAes, sendBuffer
      ensures Valid()
      ensures sendBufferPosition == old(Aligned(sendBufferPosition)) + BLOCK
      ensures sendBufferPosition % BLOCK == 0
      ensures sendPlain == old(sendPlain) + codec.encode(Filler(BLOCK - old(sendBufferPosition) % BLOCK))
    {
      var filler := Filler(BLOCK - sendBufferPosition % BLOCK);
      PaddingFits(sendBufferPosition);
      assert |codec.encode(filler)| == BLOCK - sendBufferPosition % BLOCK;
      var ok := WritePacket(filler, Aligned(sendBufferPosition));
      EncryptPending(sendBufferPosition - BLOCK);
    }

    /**
     * The sending step of `Flush` (Connection.cs:476-488, 498-508): hands the whole buffer,
     * which ends on a block boundary, to the socket and empties it; a failed send closes the
     * socket and loses the buffered bytes.
     */
    method Release()
      requires Valid() && sendBufferPosition % BLOCK == 0
      modifies this`sendBufferPosition, this`sendPlain, this`sentPlain, this`sendBase, socket
      ensures Valid()
      ensures sendBufferPosition == 0 && sendPlain == [] && Stream() == old(Stream())
      ensures old(!socket.open) ==> !socket.open
    {
      ghost var buf := sendBuffer[..sendBufferPosition];
      ghost var plain := sendPlain;
      assert Aligned(sendBufferPosition) == sendBufferPosition;
      var whole := TransmitBlocks();
      assert buf[..sendBufferPosition] == buf && plain[..sendBufferPosition] == plain;
      ChainExtends(aes, sendStart, sentPlain, plain, buf, sendBufferPosition, sendAes);
      SealedDrain(aes, sendBase, plain, buf, sendBufferPosition, sendAes);
      ghost var sent := sentPlain + plain;
      assert socket.open ==> socket.transmitted == wireBase + aes.encrypt(sendStart, sent);
      sentPlain, sendBase := sent, sendAes;
      sendBufferPosition, sendPlain := 0, [];
      assert plain[|plain|..] == [] && sendBuffer[..0] == buf[|buf|..];
    }

    /**
     * `Flush()` (Connection.cs:467-511): nothing happens on a closed connection or an empty
     * buffer. Otherwise a partial block is first padded with the out-of-band filler, the
     * buffer is handed to the socket and it is emptied, whether or not the send succeeded.
     */
    method Flush()
      requires Valid()
      modifies this`sendBufferPosition, this`sendPlain, this`sentPlain, this`sendBase, this`sendAes, sendBuffer, socket
      ensures Valid()
      ensures old(closed || sendBufferPosition == 0) ==> unchanged(this, sendBuffer, socket)
      ensures !old(closed) && old(sendBufferPosition) != 0 ==> sendBufferPosition == 0 && sendPlain == []
      ensures old(!socket.open) ==> !socket.open
      ensures !old(closed) ==> Stream() == old(Stream()) + Padding(old(sendBufferPosition))
    {
      if closed || sendBufferPosition == 0 {
        return;
      }
      if sendBufferPosition % BLOCK != 0 {
        PadBlock();
        AppendAssoc(sentPlain, old(sendPlain), Padding(old(sendBufferPosition)));
      }
      Release();
    }

    /**
     * The cleanup when the peer closes or the socket reports an error (Connection.cs:362-380):
     * marks the connection closed, raises `Disconnected`, closes the socket and tells every
     * waiting session. It does not look at `closed` first.
     */
    method Disconnect()
      requires Valid()
      modifies this`closed, this`disconnectNotices, this`sessions, socket
      ensures Valid()
      ensures closed && !socket.open && disconnectNotices == old(disconnectNotices) + 1
      ensures sessions == CancelAll(old(sessions))
      ensures socket.transmitted == old(socket.transmitted)
    {
      closed := true;
      disconnectNotices := disconnectNotices + 1;
      socket.Close();
      sessions := CancelAll(sessions);
    }

    /** The `catch` cleanup (Connection.cs:436-456): the same as `Disconnect`, but only once. */
    method Abort()
      requires Valid()
      modifies this`closed, this`disconnectNotices, this`sessions, socket
      ensures Valid()
      ensures old(closed) ==> unchanged(this, socket)
      ensures !old(closed) ==> closed && !socket.open && disconnectNotices == old(disconnectNotices) + 1
      ensures !old(closed) ==> sessions == CancelAll(old(sessions))
    {
      if !closed {
        Disconnect();
      }
    }

    /** `recvBufferPosition += BytesTransferred`: the bytes the socket wrote after the buffered ones. */
    method Append(incoming: seq<bv8>)
      requires Shape() && |incoming| <= CAPACITY - recvBufferPosition
      modifies this`recvBufferPosition, recvBuffer
      ensures Shape()
      ensures recvBuffer[..recvBufferPosition] == old(recvBuffer[..recvBufferPosition]) + incoming
    {
      recvBufferPosition := Put(recvBuffer, recvBufferPosition, incoming);
    }

    /**
     * Decrypts the usable whole blocks of the raw buffer after the unparsed plaintext and
     * moves the raw remainder to offset 0 (Connection.cs:387-402).
     */
    method DecryptBlocks()
      requires Shape()
      modifies this`recvBufferPosition, this`recvPlainPosition, this`recvAes, recvBuffer, recvPlain
      ensures Shape()
      ensures var usable := Usable(old(recvBufferPosition), old(recvPlainPosition));
              && recvPlain[..recvPlainPosition] == old(recvPlain[..recvPlainPosition]) + aes.decrypt(old(recvAes), old(recvBuffer[..usable]))
              && recvAes == Advance(old(recvAes), old(recvBuffer[..usable]))
              && recvBuffer[..recvBufferPosition] == old(recvBuffer[usable..recvBufferPosition])
    {
      var usable := Usable(recvBufferPosition, recvPlainPosition);
      var raw := recvBuffer[..usable];
      var clear := aes.decrypt(recvAes, raw);
      assert |clear| == usable;
      recvPlainPosition := Put(recvPlain, recvPlainPosition, clear);
      recvAes := Advance(recvAes, raw);
      recvBufferPosition := Compact(recvBuffer, usable, recvBufferPosition);
    }

    /**
     * From 16 buffered raw bytes on: decrypt the usable blocks, then parse the plaintext
     * (Connection.cs:385-421). `recvPlain[end..recvPlainPosition]` is what stays unparsed.
     */
    method Unpack() returns (packets: seq<Packet>, end: nat)
      requires Shape() && recvBufferPosition > BLOCK - 1
      modifies this`recvBufferPosition, this`recvPlainPosition, this`recvAes, recvBuffer, recvPlain
      ensures Shape() && end <= recvPlainPosition
      ensures var r := Receipt(aes, codec, old(recvBuffer[..recvBufferPosition]), old(recvPlain[..recvPlainPosition]), old(recvAes));
              && packets == r.batch && recvBuffer[..recvBufferPosition] == r.raw && recvAes == r.state
              && recvPlain[end..recvPlainPosition] == r.plain
    {
      ghost var raw, plain, state := recvBuffer[..recvBufferPosition], recvPlain[..recvPlainPosition], recvAes;
      ghost var usable := Usable(|raw|, |plain|);
      assert recvBuffer[..usable] == raw[..usable];
      DecryptBlocks();
      ghost var all := recvPlain[..recvPlainPosition];
      assert all == plain + aes.decrypt(state, raw[..usable]);
      packets, end := ScanPackets(codec, recvPlain, recvPlainPosition);
      assert all[end..] == recvPlain[end..recvPlainPosition];
    }

    /**
     * The body of one pass of `received` on a completed receive of `incoming` bytes
     * (Connection.cs:383-430): append, and from 16 buffered bytes on decrypt, parse and
     * deliver a non-empty batch, as `Receipt` says. A handler that throws skips the plaintext
     * compaction; then `stopped` is set and the caller runs the `catch` cleanup.
     */
    method Process(incoming: seq<bv8>, handlerFails: bool) returns (batch: Option<seq<Packet>>, stopped: bool)
      requires Valid() && |incoming| <= CAPACITY - recvBufferPosition
      modifies this`recvBufferPosition, this`recvPlainPosition, this`recvAes, recvBuffer, recvPlain
      ensures Valid()
      ensures var r := Receipt(aes, codec, old(recvBuffer[..recvBufferPosition]) + incoming, old(recvPlain[..recvPlainPosition]), old(recvAes));
              && batch == (if r.batch == [] then None else Some(r.batch))
              && recvBuffer[..recvBufferPosition] == r.raw
              && recvAes == r.state
              && (!stopped ==> recvPlain[..recvPlainPosition] == r.plain)
      ensures stopped <==> handlerFails && batch.Some?
    {
      ghost var r := Receipt(aes, codec, recvBuffer[..recvBufferPosition] + incoming, recvPlain[..recvPlainPosition], recvAes);
      Append(incoming);
      batch, stopped := None, false;
      if recvBufferPosition <= BLOCK - 1 {
        assert r == Arrival(recvBuffer[..recvBufferPosition], recvPlain[..recvPlainPosition], recvAes, []);
      } else {
        var packets, end := Unpack();
        if |packets| > 0 {
          batch := Some(packets);
          if handlerFails {
            return batch, true;
          }
        }
        recvPlainPosition := Compact(recvPlain, end, recvPlainPosition);
      }
    }

    /**
     * `received` for one completion of the receive operation (Connection.cs:354-458): an
     * error or a zero-byte read runs the disconnect cleanup; otherwise `Process` runs. When
     * the handler threw, the `catch` cleanup runs; otherwise the receive is re-armed for `CAPACITY - recvBufferPosition` bytes,
     * which is zero when the raw buffer is full; re-arming a closed socket throws into the
     * `catch` cleanup. The `do/while` loop of the source is a sequence of calls.
     */
    method Receive(succeeded: bool, incoming: seq<bv8>, handlerFails: bool) returns (batch: Option<seq<Packet>>, request: Option<nat>)
      requires Valid() && |incoming| <= CAPACITY - recvBufferPosition
      modifies this`recvBufferPosition, this`recvPlainPosition, this`recvAes, this`closed, this`disconnectNotices, this`sessions
      modifies recvBuffer, recvPlain, socket
      ensures Valid()
      ensures !succeeded || incoming == [] ==>
                && batch.None? && request.None? && closed && !socket.open
                && disconnectNotices == old(disconnectNotices) + 1 && sessions == CancelAll(old(sessions))
      ensures succeeded && incoming != [] ==>
                var r := Receipt(aes, codec, old(recvBuffer[..recvBufferPosition]) + incoming, old(recvPlain[..recvPlainPosition]), old(recvAes));
                && batch == (if r.batch == [] then None else Some(r.batch))
                && recvBuffer[..recvBufferPosition] == r.raw && recvAes == r.state
                && (request.Some? <==> old(socket.open) && !(handlerFails && batch.Some?))
                && (!(handlerFails && batch.Some?) ==> recvPlain[..recvPlainPosition] == r.plain)
      ensures request.Some? ==> socket.open && request.value == CAPACITY - recvBufferPosition
      ensures request.Some? ==> closed == old(closed) && sessions == old(sessions) && disconnectNotices == old(disconnectNotices)
      ensures request.None? ==> closed && !socket.open
      ensures request.None? && !old(closed) ==> sessions == CancelAll(old(sessions)) && disconnectNotices == old(disconnectNotices) + 1
      ensures succeeded && incoming != [] && old(closed) ==> sessions == old(sessions) && disconnectNotices == old(disconnectNotices)
    {
      if !succeeded || |incoming| == 0 {
        Disconnect();
        return None, None;
      }
      var stopped;
      batch, stopped := Process(incoming, handlerFails);
      if stopped {
        Abort();
        return batch, None;
      }
      if socket.open {
        request := Some(CAPACITY - recvBufferPosition);
      } else {
        Abort();
        request := None;
      }
    }

    /**
     * `NewSession()` (Connection.cs:337-347): refused on a closed connection; otherwise the
     * lowest free slot of the table holds the new session, waiting for its reply.
     */
    method NewSession() returns (r: Result<nat, SessionError>)
      requires Valid()
      modifies this`sessions
      ensures Valid()
      ensures closed ==> r == Failure(NotConnected) && sessions == old(sessions)
      ensures !closed && LowestFree(old(sessions)).None? ==> r == Failure(CapacityExceeded) && sessions == old(sessions)
      ensures !closed && LowestFree(old(sessions)).Some? ==> r == Success(LowestFree(old(sessions)).value)
      ensures r.Success? ==> r.value == LowestFree(old(sessions)).value && r.value < SESSION_SLOTS
      ensures r.Success? ==> sessions == old(sessions)[r.value := Some(Waiting)]
    {
      if closed {
        return Failure(NotConnected);
      }
      var slot := LowestFree(sessions);
      if slot.None? {
        return Failure(CapacityExceeded);
      }
      sessions := sessions[slot.value := Some(Waiting)];
      r := Success(slot.value);
    }

    /**
     * `ProcessSessionPacket(packet)` (Connection.cs:189-192): the reply goes to the session
     * in the slot the packet names; a packet for an empty slot is dropped.
     */
    method ProcessSessionPacket(p: Packet)
      requires Valid()
      modifies this`sessions
      ensures Valid()
      ensures 0 <= p.session < SESSION_SLOTS && old(sessions)[p.session].Some? ==> sessions == old(sessions)[p.session := Some(Answered(p))]
      ensures !(0 <= p.session < SESSION_SLOTS && old(sessions)[p.session].Some?) ==> sessions == old(sessions)
    {
      if 0 <= p.session < SESSION_SLOTS && sessions[p.session].Some? {
        sessions := sessions[p.session := Some(Answered(p))];
      }
    }

    /** `DeleteSession(session)` (Connection.cs:349-352): the session's slot becomes free. */
    method DeleteSession(id: nat)
      requires Valid() && id < SESSION_SLOTS
      modifies this`sessions
      ensures Valid()
      ensures sessions == old(sessions)[id := None]
    {
      sessions := sessions[id := None];
    }

    /** `Close()` (Connection.cs:460-465): closes the socket of an open connection; `closed` stays as it was. */
    method Close()
      requires Valid()
      modifies socket
      ensures Valid()
      ensures !old(closed) ==> !socket.open
      ensures old(closed) ==> unchanged(socket)
    {
      if !closed {
        socket.Close();
      }
    }

    /** The filler a flush appends to a buffer holding `pos` bytes: none when `pos` is aligned. */
    ghost function Padding(pos: nat): seq<bv8>
      reads this
    {
      if pos % BLOCK == 0 then [] else codec.encode(Filler(BLOCK - pos % BLOCK))
    }
  }
}
