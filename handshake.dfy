/**
 * The byte arithmetic of the connector's login handshake, and the handshake itself as a
 * linear sequence of checked steps (Connector/Connector/Connection.cs, Connect).
 *
 * The source reads and writes its byte buffers through 64-bit pointers; here a lane is a
 * little-endian `bv64` packed from, and unpacked back to, eight bytes. The random IV, the
 * user-name hash and the password-derived key are inputs; the server's replies and the
 * byte counts the socket reports are inputs too (a `Server`).
 */
module Handshake {
  import opened Wrappers
  import opened Cipher

  /** The protocol version this connector speaks (Connection.cs:15). */
  const PROTOCOL_VERSION: int := 8

  // ---------------------------------------------------------------------------------------
  // 64-bit lanes

  /** Eight bytes packed into one little-endian 64-bit lane. */
  function Pack(x0: bv8, x1: bv8, x2: bv8, x3: bv8, x4: bv8, x5: bv8, x6: bv8, x7: bv8): bv64
  {
    (x0 as bv64) | (x1 as bv64 << 8) | (x2 as bv64 << 16) | (x3 as bv64 << 24)
    | (x4 as bv64 << 32) | (x5 as bv64 << 40) | (x6 as bv64 << 48) | (x7 as bv64 << 56)
  }

  /** The eight bytes at `s[off..off + 8]` read as one lane, as `*(ulong*)(p + off)` does. */
  function LoadLane(s: seq<bv8>, off: nat): bv64
    requires off + 8 <= |s|
  {
    Pack(s[off], s[off + 1], s[off + 2], s[off + 3], s[off + 4], s[off + 5], s[off + 6], s[off + 7])
  }

  /** A lane written back as eight little-endian bytes. */
  function StoreLane(w: bv64): (b: seq<bv8>)
    ensures |b| == 8
  {
    [ (w & 0xFF) as bv8, ((w >> 8) & 0xFF) as bv8, ((w >> 16) & 0xFF) as bv8,
      ((w >> 24) & 0xFF) as bv8, ((w >> 32) & 0xFF) as bv8, ((w >> 40) & 0xFF) as bv8,
      ((w >> 48) & 0xFF) as bv8, ((w >> 56) & 0xFF) as bv8 ]
  }

  lemma PackXor(x0: bv8, x1: bv8, x2: bv8, x3: bv8, x4: bv8, x5: bv8, x6: bv8, x7: bv8,
                y0: bv8, y1: bv8, y2: bv8, y3: bv8, y4: bv8, y5: bv8, y6: bv8, y7: bv8)
    ensures Pack(x0, x1, x2, x3, x4, x5, x6, x7) ^ Pack(y0, y1, y2, y3, y4, y5, y6, y7)
         == Pack(x0 ^ y0, x1 ^ y1, x2 ^ y2, x3 ^ y3, x4 ^ y4, x5 ^ y5, x6 ^ y6, x7 ^ y7)
  {
  }

  lemma StorePack(x0: bv8, x1: bv8, x2: bv8, x3: bv8, x4: bv8, x5: bv8, x6: bv8, x7: bv8)
    ensures StoreLane(Pack(x0, x1, x2, x3, x4, x5, x6, x7)) == [x0, x1, x2, x3, x4, x5, x6, x7]
  {
  }

  /** Exclusive or of two bytes. */
  function Xor(x: bv8, y: bv8): bv8
  {
    x ^ y
  }

  /** The lane-wise XOR of `a[i..i + 8]` and `b[j..j + 8]`, byte by byte. */
  function XorLane(a: seq<bv8>, i: nat, b: seq<bv8>, j: nat): (r: seq<bv8>)
    requires i + 8 <= |a| && j + 8 <= |b|
    ensures |r| == 8
  {
    seq(8, k requires 0 <= k < 8 => Xor(a[i + k], b[j + k]))
  }

  /** The eight XORed bytes of a lane, listed. */
  lemma XorLaneListed(a: seq<bv8>, i: nat, b: seq<bv8>, j: nat)
    requires i + 8 <= |a| && j + 8 <= |b|
    ensures XorLane(a, i, b, j)
         == [Xor(a[i], b[j]), Xor(a[i + 1], b[j + 1]), Xor(a[i + 2], b[j + 2]), Xor(a[i + 3], b[j + 3]),
             Xor(a[i + 4], b[j + 4]), Xor(a[i + 5], b[j + 5]), Xor(a[i + 6], b[j + 6]), Xor(a[i + 7], b[j + 7])]
  {
    var x := XorLane(a, i, b, j);
    var l := [Xor(a[i], b[j]), Xor(a[i + 1], b[j + 1]), Xor(a[i + 2], b[j + 2]), Xor(a[i + 3], b[j + 3]),
              Xor(a[i + 4], b[j + 4]), Xor(a[i + 5], b[j + 5]), Xor(a[i + 6], b[j + 6]), Xor(a[i + 7], b[j + 7])];
    forall k | 0 <= k < 8 ensures x[k] == l[k] {
      if k < 4 {
        if k == 0 {} else if k == 1 {} else if k == 2 {} else {}
      } else {
        if k == 4 {} else if k == 5 {} else if k == 6 {} else {}
      }
    }
  }

  /** Loading two lanes and XORing them loads the lane of the XORed bytes. */
  lemma LoadXor(a: seq<bv8>, i: nat, b: seq<bv8>, j: nat)
    requires i + 8 <= |a| && j + 8 <= |b|
    ensures LoadLane(a, i) ^ LoadLane(b, j)
         == Pack(Xor(a[i], b[j]), Xor(a[i + 1], b[j + 1]), Xor(a[i + 2], b[j + 2]), Xor(a[i + 3], b[j + 3]),
                 Xor(a[i + 4], b[j + 4]), Xor(a[i + 5], b[j + 5]), Xor(a[i + 6], b[j + 6]), Xor(a[i + 7], b[j + 7]))
  {
    PackXor(a[i], a[i + 1], a[i + 2], a[i + 3], a[i + 4], a[i + 5], a[i + 6], a[i + 7],
            b[j], b[j + 1], b[j + 2], b[j + 3], b[j + 4], b[j + 5], b[j + 6], b[j + 7]);
  }

  /**
   * The source's `*(ulong*)p ^ *(ulong*)q` stored through a `ulong*`: XOR of two 64-bit
   * lanes, stored back, is the byte-wise XOR of the lanes' bytes, whatever the byte order.
   */
  lemma LaneXor(a: seq<bv8>, i: nat, b: seq<bv8>, j: nat)
    requires i + 8 <= |a| && j + 8 <= |b|
    ensures StoreLane(LoadLane(a, i) ^ LoadLane(b, j)) == XorLane(a, i, b, j)
  {
    LoadXor(a, i, b, j);
    StorePack(Xor(a[i], b[j]), Xor(a[i + 1], b[j + 1]), Xor(a[i + 2], b[j + 2]), Xor(a[i + 3], b[j + 3]),
              Xor(a[i + 4], b[j + 4]), Xor(a[i + 5], b[j + 5]), Xor(a[i + 6], b[j + 6]), Xor(a[i + 7], b[j + 7]));
    XorLaneListed(a, i, b, j);
  }

  // ---------------------------------------------------------------------------------------
  // The three byte computations of the handshake

  /**
   * The 48-byte login message: the client IV in clear, then the 32-byte user hash masked
   * lane by lane with the IV's two lanes, repeated (Connection.cs:68, 79-82).
   */
  function LoginMessage(iv: seq<bv8>, userHash: seq<bv8>): (m: seq<bv8>)
    requires |iv| == 16 && |userHash| == 32
    ensures |m| == 48
    ensures m[..16] == iv
    ensures forall k :: 0 <= k < 32 ==> m[16 + k] == Xor(userHash[k], iv[k % 16])
  {
    var m := iv + XorLane(userHash, 0, iv, 0) + XorLane(userHash, 8, iv, 8)
                + XorLane(userHash, 16, iv, 0) + XorLane(userHash, 24, iv, 8);
    assert forall k :: 0 <= k < 32 ==> m[16 + k] == Xor(userHash[k], iv[k % 16]) by {
      forall k | 0 <= k < 32 ensures m[16 + k] == Xor(userHash[k], iv[k % 16]) {
        if k < 8 {} else if k < 16 {} else if k < 24 {} else {}
      }
    }
    m
  }

  /** The masking is undone by XORing again with the IV carried in the message's first bytes. */
  lemma LoginMessageUnmasks(iv: seq<bv8>, userHash: seq<bv8>)
    requires |iv| == 16 && |userHash| == 32
    ensures var m := LoginMessage(iv, userHash);
            forall k :: 0 <= k < 32 ==> Xor(m[16 + k], m[k % 16]) == userHash[k]
  {
    var m := LoginMessage(iv, userHash);
    forall k | 0 <= k < 32 ensures Xor(m[16 + k], m[k % 16]) == userHash[k] {
      assert m[k % 16] == iv[k % 16];
    }
  }

  /**
   * The challenge reduced to 16 bytes: its first half XOR its second half, lane by lane
   * (Connection.cs:137-144).
   */
  function ChallengeResponse(challenge: seq<bv8>): (r: seq<bv8>)
    requires |challenge| == 32
    ensures |r| == 16
    ensures forall i :: 0 <= i < 16 ==> r[i] == Xor(challenge[i], challenge[i + 16])
  {
    var r := XorLane(challenge, 0, challenge, 16) + XorLane(challenge, 8, challenge, 24);
    assert forall i :: 0 <= i < 16 ==> r[i] == Xor(challenge[i], challenge[i + 16]) by {
      forall i | 0 <= i < 16 ensures r[i] == Xor(challenge[i], challenge[i + 16]) {
        if i < 8 {} else {}
      }
    }
    r
  }

  /** The protocol version in a confirmation: bytes 14 and 15, little-endian (Connection.cs:172). */
  function VersionOf(confirmation: seq<bv8>): (v: int)
    requires |confirmation| == 16
    ensures 0 <= v < 65536
  {
    confirmation[14] as int + confirmation[15] as int * 256
  }

  /** The version check passes exactly for the bytes 8, 0. */
  lemma VersionMatches(confirmation: seq<bv8>)
    requires |confirmation| == 16
    ensures VersionOf(confirmation) == PROTOCOL_VERSION <==> confirmation[14] == 8 && confirmation[15] == 0
  {
    var lo, hi := confirmation[14] as int, confirmation[15] as int;
    if hi > 0 {
      assert hi * 256 >= 256;
    }
  }

  // ---------------------------------------------------------------------------------------
  // The handshake as a sequence of checked steps

  /** The socket status a receive reports (`SocketError.Success`, `IOPending`, anything else). */
  datatype SocketStatus = Completed | IOPending | SocketFailure

  /** What one receive delivered: its status and the bytes (their number is the amount). */
  datatype Reception = Reception(status: SocketStatus, data: seq<bv8>)

  /**
   * What the network did during one handshake: how many bytes of each message the socket
   * accepted, and what the server sent back.
   */
  datatype Server = Server(loginAccepted: int, challenge: Reception, responseAccepted: int, confirmation: Reception)

  /** The distinct exceptions `Connect` ends with, in the order of the steps. */
  datatype HandshakeError =
    | AuthNotSent                         // InvalidDataException "Couldn't sent auth."
    | WrongUsername                       // ArgumentException on "user"
    | ChallengeNotDecrypted               // InvalidOperationException, decrypt count
    | ResponseNotEncrypted                // InvalidOperationException, encrypt count
    | ChallengeNotSent                    // InvalidDataException "Couldn't sent auth challenge."
    | WrongPassword                       // ArgumentException on "password"
    | VersionMismatch(serverVersion: int) // InvalidOperationException carrying both versions

  /** The two cipher directions a successful handshake leaves the connection with. */
  datatype Established = Established(send: Direction, recv: Direction)

  /**
   * A run of the handshake: the messages handed to the socket in order, whether the socket
   * was closed, and the outcome.
   */
  datatype Transcript = Transcript(sent: seq<seq<bv8>>, socketClosed: bool, result: Result<Established, HandshakeError>)

  /** A receive is refused when it failed (other than "pending") or delivered a different amount. */
  predicate Refused(r: Reception, expected: nat)
  {
    (r.status != Completed && r.status != IOPending) || |r.data| != expected
  }

  /**
   * The handshake (Connection.cs:62-177). Every failing step closes the socket and ends
   * with its own error; nothing after a failing step happens.
   */
  function Connect(aes: Aes, iv: seq<bv8>, userHash: seq<bv8>, key: seq<bv8>, server: Server): (t: Transcript)
    requires |iv| == 16 && |userHash| == 32
    ensures t.socketClosed <==> t.result.Failure?
    ensures 1 <= |t.sent| <= 2 && t.sent[0] == LoginMessage(iv, userHash)
    ensures t.result.Success? ==> |t.sent| == 2
  {
    var login := LoginMessage(iv, userHash);
    if server.loginAccepted != 48 then
      Transcript([login], true, Failure(AuthNotSent))
    else if Refused(server.challenge, 48) then
      Transcript([login], true, Failure(WrongUsername))
    else
      var serverIv, sealed := server.challenge.data[..16], server.challenge.data[16..48];
      var send, recv := Start(key, iv), Start(key, serverIv);
      var challenge := aes.decrypt(recv, sealed);
      if |challenge| != 32 then
        Transcript([login], true, Failure(ChallengeNotDecrypted))
      else
        var response := ChallengeResponse(challenge);
        var encrypted := aes.encrypt(send, response);
        if |encrypted| != 16 then
          Transcript([login], true, Failure(ResponseNotEncrypted))
        else if server.responseAccepted != 16 then
          Transcript([login, encrypted], true, Failure(ChallengeNotSent))
        else if Refused(server.confirmation, 16) then
          Transcript([login, encrypted], true, Failure(WrongPassword))
        else if VersionOf(server.confirmation.data) != PROTOCOL_VERSION then
          Transcript([login, encrypted], true, Failure(VersionMismatch(VersionOf(server.confirmation.data))))
        else
          Transcript([login, encrypted], false, Success(Established(Advance(send, response), Advance(recv, sealed))))
  }

  /** Whether every check of the handshake passes, step by step. */
  predicate AllChecksPass(aes: Aes, iv: seq<bv8>, key: seq<bv8>, server: Server)
    requires |iv| == 16
  {
    && server.loginAccepted == 48
    && !Refused(server.challenge, 48)
    && |aes.decrypt(Start(key, server.challenge.data[..16]), server.challenge.data[16..48])| == 32
    && |aes.encrypt(Start(key, iv), ChallengeResponse(aes.decrypt(Start(key, server.challenge.data[..16]), server.challenge.data[16..48])))| == 16
    && server.responseAccepted == 16
    && !Refused(server.confirmation, 16)
    && VersionOf(server.confirmation.data) == PROTOCOL_VERSION
  }

  /**
   * The handshake succeeds exactly when every check passes; the socket is closed exactly
   * when it fails; the first message is always the login message.
   */
  lemma ConnectOutcome(aes: Aes, iv: seq<bv8>, userHash: seq<bv8>, key: seq<bv8>, server: Server)
    requires |iv| == 16 && |userHash| == 32
    ensures var t := Connect(aes, iv, userHash, key, server);
            && (t.result.Success? <==> AllChecksPass(aes, iv, key, server))
            && (t.socketClosed <==> t.result.Failure?)
            && 1 <= |t.sent| <= 2 && t.sent[0] == LoginMessage(iv, userHash)
  {
  }

  /**
   * On success the connector has sent the login message and then the encrypted challenge
   * response, and each direction has been used exactly once: the encryptor on the 16
   * response bytes and the decryptor on the 32 challenge bytes.
   */
  lemma ConnectEstablishes(aes: Aes, iv: seq<bv8>, userHash: seq<bv8>, key: seq<bv8>, server: Server)
    requires |iv| == 16 && |userHash| == 32
    requires Connect(aes, iv, userHash, key, server).result.Success?
    ensures var t := Connect(aes, iv, userHash, key, server);
            var sealed := server.challenge.data[16..48];
            var response := ChallengeResponse(aes.decrypt(Start(key, server.challenge.data[..16]), sealed));
            && t.sent == [LoginMessage(iv, userHash), aes.encrypt(Start(key, iv), response)]
            && t.result.value.send == Direction(key, iv, response)
            && t.result.value.recv == Direction(key, server.challenge.data[..16], sealed)
            && server.confirmation.data[14] == 8 && server.confirmation.data[15] == 0
  {
    VersionMatches(server.confirmation.data);
  }

  /** A version mismatch reports the version the server sent, which is not this connector's. */
  lemma ConnectVersionMismatch(aes: Aes, iv: seq<bv8>, userHash: seq<bv8>, key: seq<bv8>, server: Server)
    requires |iv| == 16 && |userHash| == 32
    requires Connect(aes, iv, userHash, key, server).result.Failure?
    requires Connect(aes, iv, userHash, key, server).result.error.VersionMismatch?
    ensures |server.confirmation.data| == 16
    ensures Connect(aes, iv, userHash, key, server).result.error.serverVersion == VersionOf(server.confirmation.data)
    ensures server.confirmation.data[14] != 8 || server.confirmation.data[15] != 0
  {
    VersionMatches(server.confirmation.data);
  }

  /** With AES that preserves lengths, the two "framework failed" errors cannot occur. */
  lemma CipherStepsCannotFail(aes: Aes, iv: seq<bv8>, userHash: seq<bv8>, key: seq<bv8>, server: Server)
    requires |iv| == 16 && |userHash| == 32
    requires LengthPreserving(aes.encrypt) && LengthPreserving(aes.decrypt)
    ensures Connect(aes, iv, userHash, key, server).result != Failure(ChallengeNotDecrypted)
    ensures Connect(aes, iv, userHash, key, server).result != Failure(ResponseNotEncrypted)
  {
  }
}
