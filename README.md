# Flattiverse connector core, modelled in Dafny

This project models the core of the Flattiverse connector, the client library for the
Flattiverse game server. It covers four parts of the connector:

- **The transport** (`Connector/Connector/Connection.cs`).
  - The login handshake (modules `Handshake`, `Cipher`).
  - The encrypted send path: `Send` and `Flush` over a 262144-byte send buffer, encrypted
    block by block with AES-CBC (module `Transport`, class `Connection`).
  - The receive path: `received`, which decrypts whole blocks into a plaintext buffer and
    parses packets off its front (module `PacketCodec`, class `Transport.Connection`).
  - The session table and the disconnect cleanup.
- **The galaxy** (`Hierarchy/Galaxy.cs`): how an incoming packet updates the cluster,
  ship, team and player tables, answers a session, or completes a pending login (module
  `Galaxies`).
- **A sun section** (`Units/SubComponents/SunSection.cs`): six validated double-valued
  properties and the two constructors (module `Suns`).
- **A team** (`GalaxyHierarchy/Team.cs`): name, colour and an active flag (module `Teams`).

The stateful parts are classes whose fields are the source's fields. Their byte buffers are
`array<bv8>`, and their methods say what they change.

- Each method is tied to a pure specification function:
  - `Suns.Apply` for a setter;
  - `Galaxies.Dispatch` for a packet;
  - `Transport.Receipt` for a receive step;
  - the ghost stream `Stream()` for the send side.
- The lemmas state what the source promises about those functions.

AES and the packet wire format are opaque. They are function-valued fields of `Cipher.Aes`
and `PacketCodec.Codec`, and a few predicates state what the connector relies on:

- **AES:** length-preserving, and CBC chaining across calls (`Cipher.Chained`).
- **Codec:** parsing consumes at least one byte (`PacketCodec.Progressing`).
- **Codec:** the out-of-band filler packet encodes to exactly the requested length
  (`PacketCodec.FillerExact`).

Where the code and its design description differ, the model follows the code:

- A version mismatch in the handshake is a plain failure carrying the server's version
  (`Handshake.HandshakeError.VersionMismatch`), not a dedicated exception type.
- The confirmation is read into a 64-byte buffer and refused unless exactly 16 bytes arrived.
- `Connection.Close` closes only the socket and leaves `closed` unset. The disconnect
  cleanup then runs when the receive operation reports the closed socket.
- A failed transmit inside `Send` or `Flush` also closes only the socket and leaves `closed`
  unset.

## Model

| member | source | states |
|---|---|---|
| Handshake.LoginMessage | Connector/Connector/Connection.cs:62-82 | the 48-byte login message is the client IV followed by the user hash XORed lane by lane with the IV's two 8-byte lanes, repeated |
| Handshake.LaneXor | Connector/Connector/Connection.cs:79-82 | XORing two little-endian 64-bit lanes and storing the result is byte-wise XOR of the eight bytes |
| Handshake.LoginMessageUnmasks | Connector/Connector/Connection.cs:68-82 | XORing the masked hash with the IV carried in the message's first 16 bytes gives back the user hash |
| Handshake.ChallengeResponse | Connector/Connector/Connection.cs:137-144 | the reduced challenge is 16 bytes, byte i being challenge[i] XOR challenge[i+16] |
| Handshake.VersionOf | Connector/Connector/Connection.cs:172 | bounds only: the version read from the confirmation fits 16 bits; what the check means is stated by `VersionMatches` |
| Handshake.VersionMatches | Connector/Connector/Connection.cs:171-177 | the version check passes exactly when bytes 14 and 15 are 8 and 0 (little-endian version 8) |
| Handshake.Connect | Connector/Connector/Connection.cs:62-177 | the handshake as a transcript: the socket is closed exactly when the result is a failure, the login message is always sent first, and a success has sent both the login and the encrypted response; `ConnectOutcome` and `VersionMatches` state when it succeeds |
| Handshake.ConnectOutcome | Connector/Connector/Connection.cs:97-177 | the handshake succeeds iff every send and receive has its exact length and the version matches; the socket is closed iff it fails; the first message sent is always the login message |
| Handshake.ConnectEstablishes | Connector/Connector/Connection.cs:117-160 | on success the messages sent are the login message and the encrypted challenge response; the encryptor is keyed with the client IV and has consumed the 16 response bytes; the decryptor is keyed with the server IV and has consumed the 32 challenge bytes |
| Handshake.ConnectVersionMismatch | Connector/Connector/Connection.cs:171-177 | a version failure reports the version the server sent, which is not 8 |
| Handshake.CipherStepsCannotFail | Connector/Connector/Connection.cs:130-151 | with a length-preserving cipher the two "framework failed" branches are unreachable |
| Cipher.AdvanceTwice | Connector/Connector/Connection.cs:392 | a cipher direction that consumed `a` and then `b` is the direction that consumed `a + b` |
| Cipher.ChainSplit | Connector/Connector/Connection.cs:392 | under CBC chaining, transforming whole blocks `a` and then `b` in two calls gives the same bytes as one call on `a + b` |
| PacketCodec.ScanFrom | Connector/Connector/Connection.cs:404-418 | the parse loop from a given offset stops at an offset between that offset and the end of the buffer; `ScanBounds` states what it delivers |
| PacketCodec.ScanBounds | Connector/Connector/Connection.cs:404-418 | the parse loop stops inside the buffer where no packet parses, delivers only packets whose `OutOfBand` is 0, and delivers at most one packet per byte consumed |
| PacketCodec.Scanned | Connector/Connector/Connection.cs:404-418 | the same bounds for a scan from offset 0 |
| Transport.Aligned | Connector/Connector/Connection.cs:522 | the block start below a position is a multiple of 16 within 16 bytes of it |
| Transport.Usable | Connector/Connector/Connection.cs:387-390 | the amount decrypted per step is whole blocks, no more than what is buffered, and fits the plaintext buffer |
| Transport.UsableIsLargest | Connector/Connector/Connection.cs:387-390 | it is the largest such amount |
| Transport.LowestFree | Connector/Connector/Connection.cs:337-347 | the slot a new session gets is free and every slot before it is taken; no slot is returned iff all are taken |
| Transport.CancelAll | Connector/Connector/Connection.cs:377-378 | the disconnect cleanup turns every waiting session into a cancelled one and leaves every other slot as it was |
| Transport.MoveToFront | Connector/Connector/Connection.cs:396-402 | the block copy moves a range of the buffer to offset 0 and leaves the rest as it was |
| Transport.Compact | Connector/Connector/Connection.cs:423-429 | after compaction the buffer starts with exactly the bytes that were not consumed, and the new position is their count |
| Transport.Put | Connector/Connector/Connection.cs:383-394 | appending at a position keeps the bytes before it and adds the new ones |
| Transport.Receipt | Connector/Connector/Connection.cs:383-429 | one completed receive: what stays in the raw buffer is a suffix of it, left after a whole number of 16-byte blocks, and every packet delivered has `OutOfBand` 0; `Connection.Receive` is tied to it |
| Transport.ScanPackets | Connector/Connector/Connection.cs:404-418 | the parse loop over the plaintext buffer returns the batch and stop offset that `PacketCodec.Scanned` specifies |
| Transport.Socket.Send | Connector/Connector/Connection.cs:526-541 | a socket send transmits a prefix of the data and nothing on a closed socket |
| Transport.Socket.Close | Connector/Connector/Connection.cs:460-465 | closing transmits nothing more |
| Transport.PaddingFits | Connector/Connector/Connection.cs:492-496 | padding a partial block to its end stays inside the buffer and lands on a block boundary |
| Transport.SealedWrite | Connector/Connector/Connection.cs:524 | writing a packet after the encrypted prefix keeps every encrypted block as it was |
| Transport.SealedEncrypt | Connector/Connector/Connection.cs:557-560 | encrypting the newly completed blocks in place turns the plaintext of those blocks into their CBC ciphertext and advances the encryptor over exactly them |
| Transport.SealedDrain | Connector/Connector/Connection.cs:544-550 | after the sent blocks are removed, the remainder is still correctly sealed from the new cipher state |
| Transport.ChainExtends | Connector/Connector/Connection.cs:524-560 | what was sent followed by the sealed blocks still buffered is the encryption of the whole plaintext sent so far |
| Transport.ReceiptDrains | Connector/Connector/Connection.cs:383-430 | below 16 buffered bytes a receive step does nothing; from 16 on it decrypts every whole block unless the plaintext buffer is nearly full, parses until no packet remains, and delivers only in-band packets |
| Transport.ReceiptKeepsStream | Connector/Connector/Connection.cs:385-429 | a receive step consumes a whole-block prefix of the raw bytes and advances the decryptor over exactly it; the decrypted stream stays the parsed plaintext followed by the buffered plaintext, so no byte is lost, repeated or reordered |
| Transport.Connection.constructor | Connector/Connector/Connection.cs:17-41 | a new connection has empty buffers, the two cipher directions of the handshake, an empty session table, is not closed, and has sent nothing |
| Transport.Connection.WritePacket | Connector/Connector/Connection.cs:524 | a packet is appended iff its encoding fits the rest of the buffer; otherwise nothing changes |
| Transport.Connection.EncryptPending | Connector/Connector/Connection.cs:555-560 | the blocks completed since `currentBlock` are encrypted and the buffer is sealed up to the last block boundary |
| Transport.Connection.TransmitBlocks | Connector/Connector/Connection.cs:526-541 | the sealed whole blocks are handed to the socket; a short or failed send closes the socket |
| Transport.Connection.Drain | Connector/Connector/Connection.cs:524-552 | draining transmits the whole blocks and moves the partial block to offset 0; the byte stream is unchanged; a failed transmit leaves the buffer as it was with the socket closed |
| Transport.Connection.Shift | Connector/Connector/Connection.cs:544-550 | after a transmit, the buffer holds only the partial block, and the send invariant holds again |
| Transport.Connection.SendOne | Connector/Connector/Connection.cs:520-562 | one packet extends the byte stream (bytes handed to the socket followed by bytes buffered) by its encoding while the socket stays open |
| Transport.Connection.Send | Connector/Connector/Connection.cs:513-565 | a closed connection sends nothing; otherwise the stream grows by the packets' encodings in order, and a closed socket stays closed |
| Transport.Connection.PadBlock | Connector/Connector/Connection.cs:490-496 | a partial block is filled exactly to its end with an out-of-band filler packet |
| Transport.Connection.Release | Connector/Connector/Connection.cs:476-508 | the whole buffer is encrypted and handed to the socket, and the buffer is emptied; the stream is unchanged |
| Transport.Connection.Flush | Connector/Connector/Connection.cs:467-511 | nothing happens on a closed connection or an empty buffer; otherwise the buffer is emptied, and the stream grows by exactly the padding of the partial block |
| Transport.Connection.Disconnect | Connector/Connector/Connection.cs:362-380 | the connection is marked closed, the socket is closed, the disconnect notice fires once and every waiting session is cancelled |
| Transport.Connection.Abort | Connector/Connector/Connection.cs:436-456 | the same cleanup, run only when the connection was not already closed |
| Transport.Connection.Append | Connector/Connector/Connection.cs:383 | the received bytes are appended to the raw buffer |
| Transport.Connection.DecryptBlocks | Connector/Connector/Connection.cs:387-402 | the usable whole blocks are decrypted after the buffered plaintext, and the raw remainder moves to offset 0 |
| Transport.Connection.Unpack | Connector/Connector/Connection.cs:385-421 | decrypting and parsing leave the raw buffer, cipher state, batch and unparsed plaintext that `Receipt` specifies |
| Transport.Connection.Process | Connector/Connector/Connection.cs:383-430 | one pass of the receive loop yields `Receipt`'s batch and buffers; it reports a throwing handler exactly when a non-empty batch was delivered to it |
| Transport.Connection.Receive | Connector/Connector/Connection.cs:354-458 | an error or zero-byte read runs the disconnect cleanup; otherwise the batch, both buffers and the decryptor follow `Receipt`; the receive is re-armed for the free room of the raw buffer iff the socket was open and no handler threw, and then `closed`, the sessions and the notice count are unchanged; otherwise the connection ends closed, with the `catch` cleanup's cancelled sessions and one notice when it was not closed before |
| Transport.Connection.NewSession | Connector/Connector/Connection.cs:337-347 | refused on a closed connection and on a full table; an open connection with a free slot always succeeds, with the lowest free slot now holding a waiting session |
| Transport.Connection.ProcessSessionPacket | Connector/Connector/Connection.cs:189-192 | a reply for a live session answers it; a reply for a free slot changes nothing |
| Transport.Connection.DeleteSession | Connector/Connector/Connection.cs:349-352 | the session's slot becomes free |
| Transport.Connection.Close | Connector/Connector/Connection.cs:460-465 | an open connection's socket is closed; a closed connection is left as it was |
| Galaxies.Dispatch | Flattiverse.Connector/Flattiverse.Connector/Hierarchy/Galaxy.cs:167-261 | handling a packet keeps every table at its allocated size |
| Galaxies.SessionPacketsOnlyAnswer | Flattiverse.Connector/Flattiverse.Connector/Hierarchy/Galaxy.cs:169-173 | a packet with a session id is handed to that session and changes nothing else |
| Galaxies.AnnouncementsTouchOneSlot | Flattiverse.Connector/Flattiverse.Connector/Hierarchy/Galaxy.cs:184-203 | cluster, team and ship announcements replace slot `Id0` of their table and no other slot |
| Galaxies.FailsExactly | Flattiverse.Connector/Flattiverse.Connector/Hierarchy/Galaxy.cs:194-247 | handling throws iff a team id or a player's team id is past the 33-slot team table, or a unit packet names an absent cluster |
| Galaxies.ParentRequired | Flattiverse.Connector/Flattiverse.Connector/Hierarchy/Galaxy.cs:189-216 | region, upgrade and player packets change nothing when the cluster, ship or team they name is absent |
| Galaxies.UnknownCommandsIgnored | Flattiverse.Connector/Flattiverse.Connector/Hierarchy/Galaxy.cs:177-260 | commands the switch does not list change nothing |
| Galaxies.Step | Flattiverse.Connector/Flattiverse.Connector/Hierarchy/Galaxy.cs:167-261 | bookkeeping for `SignalsFollowWaits`: every event keeps the tables at their allocated sizes |
| Galaxies.Run | Flattiverse.Connector/Flattiverse.Connector/Hierarchy/Galaxy.cs:167-261 | bookkeeping for `SignalsFollowWaits`: so does any sequence of events |
| Galaxies.SignalsFollowWaits | Flattiverse.Connector/Flattiverse.Connector/Hierarchy/Galaxy.cs:58-65 | a login wait is completed at most once: completed signals never outnumber waits |
| Galaxies.TickSignalsOnce | Flattiverse.Connector/Flattiverse.Connector/Hierarchy/Galaxy.cs:248-254 | a tick completes a pending login and clears it; a second tick changes nothing |
| Galaxies.Galaxy.constructor | Flattiverse.Connector/Flattiverse.Connector/Hierarchy/Galaxy.cs:13-37 | a new galaxy has empty tables of 256 clusters, 256 ships and 33 teams, and awaits no login |
| Galaxies.Galaxy.WaitLoginCompleted | Flattiverse.Connector/Flattiverse.Connector/Hierarchy/Galaxy.cs:58-65 | a login completion is now pending |
| Galaxies.Galaxy.Update | Flattiverse.Connector/Flattiverse.Connector/Hierarchy/Galaxy.cs:263-268 | the galaxy takes the header's `Param` as its id and the payload as its configuration |
| Galaxies.Galaxy.PacketReceived | Flattiverse.Connector/Flattiverse.Connector/Hierarchy/Galaxy.cs:167-261 | the packet changes the galaxy's state as `Dispatch` says, and throws exactly when `Dispatch` fails |
| Galaxies.Galaxy.CreatedCluster | Flattiverse.Connector/Flattiverse.Connector/Hierarchy/Galaxy.cs:109-112 | the reply's cluster slot is returned, or the "didn't receive update yet" error when it is empty |
| Galaxies.Galaxy.CreatedTeam | Flattiverse.Connector/Flattiverse.Connector/Hierarchy/Galaxy.cs:135-138 | the same for teams, with an index error past slot 32 |
| Galaxies.Galaxy.CreatedShip | Flattiverse.Connector/Flattiverse.Connector/Hierarchy/Galaxy.cs:161-164 | the same for ships |
| Suns.Apply | Flattiverse.Connector/Flattiverse.Connector/Units/SubComponents/SunSection.cs:64-209 | one setter: it succeeds only with a configuration, and it fails only with 0x31, or with 0x34 when there is no configuration; `Checked`, `ApplyKeepsShape` and the `*ChecksValue` lemmas state the rest |
| Suns.Checked | Flattiverse.Connector/Flattiverse.Connector/Units/SubComponents/SunSection.cs:64-77 | a setter succeeds iff its value check passes and the section has a configuration |
| Suns.FailureOrder | Flattiverse.Connector/Flattiverse.Connector/Units/SubComponents/SunSection.cs:64-77 | a bad value throws 0x31 even without a configuration; a good value without a configuration throws 0x34 |
| Suns.ApplyKeepsShape | Flattiverse.Connector/Flattiverse.Connector/Units/SubComponents/SunSection.cs:64-209 | every setter, with `Energy` and `Ions` corrected to check the new value, keeps 0 <= inner < outer <= 2000, 0 <= from < to <= 360, \|energy\| <= 500 and \|ions\| <= 50 |
| Suns.RunKeepsShape | Flattiverse.Connector/Flattiverse.Connector/Units/SubComponents/SunSection.cs:64-209 | so does any sequence of setter calls, with `Energy` and `Ions` corrected |
| Suns.RadiiBothOrNeither | Flattiverse.Connector/Flattiverse.Connector/Units/SubComponents/SunSection.cs:103-116 | `SetRadii` stores both radii or neither, and succeeds iff 0 <= inner < outer <= 2000 with a configuration |
| Suns.AngelsBothOrNeither | Flattiverse.Connector/Flattiverse.Connector/Units/SubComponents/SunSection.cs:124-137 | `SetAngels` stores both angles or neither, and succeeds iff 0 <= from < to <= 360 with a configuration |
| Suns.OuterCaps | Flattiverse.Connector/Flattiverse.Connector/Units/SubComponents/SunSection.cs:82-116 | the single `OuterRadius` setter caps at 1000 while `SetRadii` accepts up to 2000 |
| Suns.EnergyAsWrittenEscapes | Flattiverse.Connector/Flattiverse.Connector/Units/SubComponents/SunSection.cs:183 | as written, the `Energy` setter stores 1000 and then refuses every later value |
| Suns.IonsAsWrittenEscapes | Flattiverse.Connector/Flattiverse.Connector/Units/SubComponents/SunSection.cs:201 | as written, the `Ions` setter stores 60 and then refuses every later value |
| Suns.EnergyAsWritten | Flattiverse.Connector/Flattiverse.Connector/Units/SubComponents/SunSection.cs:178-191 | as written, `Energy` succeeds iff there is a configuration, the value is finite and the stored energy (not the new value) is within ±500, and then stores the new value |
| Suns.IonsAsWritten | Flattiverse.Connector/Flattiverse.Connector/Units/SubComponents/SunSection.cs:196-209 | as written, `Ions` succeeds iff there is a configuration, the value is finite and the stored ions (not the new value) are within ±50, and then stores the new value |
| Suns.EnergyChecksValue | Flattiverse.Connector/Flattiverse.Connector/Units/SubComponents/SunSection.cs:178-191 | corrected, `Energy` succeeds iff the new value is within ±500 and there is a configuration, and then stores it |
| Suns.IonsChecksValue | Flattiverse.Connector/Flattiverse.Connector/Units/SubComponents/SunSection.cs:196-209 | corrected, `Ions` succeeds iff the new value is within ±50 and there is a configuration, and then stores it |
| Suns.DefaultAsWrittenThrows | Flattiverse.Connector/Flattiverse.Connector/Units/SubComponents/SunSection.cs:18-30 | as written, the default constructor always throws 0x31 |
| Suns.ReadAsWrittenThrows | Flattiverse.Connector/Flattiverse.Connector/Units/SubComponents/SunSection.cs:32-43 | as written, the reading constructor always throws 0x31 |
| Suns.DefaultAnglesAsWrittenThrows | Flattiverse.Connector/Flattiverse.Connector/Units/SubComponents/SunSection.cs:25-26 | with only the radii reordered, the default constructor still throws: `AngelFrom = 45` meets an `angelTo` of 0 (0x31, or 0x34 without a configuration) |
| Suns.ReadAnglesAsWrittenThrows | Flattiverse.Connector/Flattiverse.Connector/Units/SubComponents/SunSection.cs:38-39 | with only the radii reordered, the reading constructor still throws for every packet, with 0x31 when there is a configuration |
| Suns.DefaultsConstruct | Flattiverse.Connector/Flattiverse.Connector/Units/SubComponents/SunSection.cs:18-30 | with the outer bound set first, the default section is radii 100 to 130, angles 45 to 135, energy 4, ions 0, and it is well-shaped |
| Suns.Setup | Flattiverse.Connector/Flattiverse.Connector/Units/SubComponents/SunSection.cs:18-43 | a constructor's sequence of setters: a non-empty one succeeds only with a configuration and fails only with 0x31, or 0x34 without a configuration; the `*Construct*` and `*AsWrittenThrows` lemmas state the outcome of each order |
| Suns.ReadConstructs | Flattiverse.Connector/Flattiverse.Connector/Units/SubComponents/SunSection.cs:32-43 | with the bounds set first and `Ions` corrected to check the new value, reading succeeds iff there is a configuration, inner < outer, from < to <= 360 and ions within ±50; the section then holds the values read, in hundredths |
| Suns.SunSection.Blank | Flattiverse.Connector/Flattiverse.Connector/Units/SubComponents/SunSection.cs:8-16 | a section before its setters run has all six values 0 |
| Suns.SunSection.SetInnerRadius | Flattiverse.Connector/Flattiverse.Connector/Units/SubComponents/SunSection.cs:64-77 | the setter throws and stores as `Apply` says |
| Suns.SunSection.SetOuterRadius | Flattiverse.Connector/Flattiverse.Connector/Units/SubComponents/SunSection.cs:82-95 | the setter throws and stores as `Apply` says |
| Suns.SunSection.SetRadii | Flattiverse.Connector/Flattiverse.Connector/Units/SubComponents/SunSection.cs:103-116 | the setter throws and stores as `Apply` says |
| Suns.SunSection.SetAngels | Flattiverse.Connector/Flattiverse.Connector/Units/SubComponents/SunSection.cs:124-137 | the setter throws and stores as `Apply` says |
| Suns.SunSection.SetAngelFrom | Flattiverse.Connector/Flattiverse.Connector/Units/SubComponents/SunSection.cs:142-155 | the setter throws and stores as `Apply` says |
| Suns.SunSection.SetAngelTo | Flattiverse.Connector/Flattiverse.Connector/Units/SubComponents/SunSection.cs:160-173 | the setter throws and stores as `Apply` says |
| Suns.SunSection.SetEnergy | Flattiverse.Connector/Flattiverse.Connector/Units/SubComponents/SunSection.cs:178-191 | the corrected setter throws and stores as `Apply` says |
| Suns.SunSection.SetIons | Flattiverse.Connector/Flattiverse.Connector/Units/SubComponents/SunSection.cs:196-209 | the corrected setter throws and stores as `Apply` says |
| Suns.SunSection.Build | Flattiverse.Connector/Flattiverse.Connector/Units/SubComponents/SunSection.cs:18-43 | running a constructor's setters on a blank section yields a section holding the result `Setup` specifies, or the first exception |
| Teams.Apply | Flattiverse.Connector/Flattiverse.Connector/GalaxyHierarchy/Team.cs:34-46 | an update replaces name and colour and keeps the active flag; a deactivation clears the flag and keeps name and colour |
| Teams.ActiveOnlyFalls | Flattiverse.Connector/Flattiverse.Connector/GalaxyHierarchy/Team.cs:19-46 | after any updates and deactivations a team is active iff it was and none of them deactivated it: no operation reactivates a team |
| Teams.DeactivateIdempotent | Flattiverse.Connector/Flattiverse.Connector/GalaxyHierarchy/Team.cs:43-46 | deactivating twice is deactivating once |
| Teams.Team.constructor | Flattiverse.Connector/Flattiverse.Connector/GalaxyHierarchy/Team.cs:21-32 | a new team has the given id, name and colour and is active |
| Teams.Team.Update | Flattiverse.Connector/Flattiverse.Connector/GalaxyHierarchy/Team.cs:34-41 | the team's state is `Apply` of the update |
| Teams.Team.Deactivate | Flattiverse.Connector/Flattiverse.Connector/GalaxyHierarchy/Team.cs:43-46 | the team's state is `Apply` of the deactivation |

## Left out

- Networking, `async`/`await`, threads and the `sync` lock are not modelled.
  - The socket is a class that records what it transmitted.
  - A send transmits some prefix of its data, chosen freely.
  - A completed receive is a parameter (`succeeded`, `incoming`) of `Transport.Connection.Receive`.
- The `do/while` loop of `received` that re-arms a receive which completed synchronously is
  modelled as repeated calls of `Receive`. `eventArgs.SetBuffer` and `Dispose` are modelled
  only as the amount of room requested.
- AES is an opaque transform. The model assumes length preservation and CBC chaining. It does
  not model AES itself or the key schedule.
- Randomness, SHA-256 of the user name and `Crypto.HashPassword` are not modelled. The IV,
  the user hash and the key are parameters of `Handshake.Connect`.
- The handshake's connect to the server, the socket options and the read timeout are not
  modelled.
- The second `Connect` overload (Connection.cs:194-335) is not modelled separately.
  - It takes the password hash instead of computing it; with the key as a parameter,
    `Handshake.Connect` covers that.
  - It receives the confirmation into a 16-byte window (Connection.cs:310, against 64 bytes
    at :162). A confirmation longer than 16 bytes is then cut to 16 and accepted there,
    where the modelled first overload refuses it.
- The starting of the receive loop after the handshake (Connection.cs:179-186) is not modelled.
  `Transport.Connection.constructor` starts from the established state.
- The packet wire format is opaque:
  - `Packet.write` and `Packet.Parse` are the codec's `encode` and `parse`;
  - `PacketReader` and `BinaryMemoryReader` are not part of this model;
  - a failed `write` leaves the buffer unchanged.
- The `Received` and `Disconnected` events are modelled as outputs, not as delegates.
  - The batch is returned from `Receive`.
  - A handler that throws is the flag `handlerFails`.
  - Disconnect notices are counted.
  - Exceptions inside `Disconnected` are swallowed by the source and have no effect here.
- `IndexList<Session>` and `Session` are not part of this model.
  - The table is 256 optional slot states.
  - Insertion takes the lowest free slot and fails when the table is full.
  - `Session.Answer` and `Session.Disconnected` become slot states (answered, cancelled).
- `Debug.Assert` calls are not modelled, because they have no effect in release builds.
- Transport.Connection.Send: states the byte stream only while the socket stays open and every packet's encoding fits an emptied buffer. A larger packet is silently dropped by the source's unchecked second `write`, and the contract then says only that the send invariant holds.
- Transport.Connection.SendOne: the same condition, for one packet.
- Galaxy tables hold the raw payload of each object rather than the object. These are not
  part of this model:
  - the `Cluster`, `Ship`, `Team` (Hierarchy) and `Player` constructors;
  - `GalaxyConfig`;
  - `Cluster.ReadRegion` and `Ship.ReadUpgrade`, which are recorded as the payload per id.
- Galaxies.FailsExactly: its "only if" half assumes that none of the following throw: the
  `Cluster`, `Team`, `Ship` and `Player` constructors reading the payload, `GalaxyConfig`,
  `ReadRegion`, `ReadUpgrade`, `SeeNewUnit`, `SeeUpdatedUnit`, `SeeUnitNoMore` and
  `reader.ReadString()`. A malformed payload can make them throw in the source where the
  model succeeds.
- The unit packets 0x1C to 0x1E are not modelled beyond their throw on an absent cluster.
  `SeeNewUnit`, `SeeUpdatedUnit` and `SeeUnitNoMore` are not part of this model, and units
  are not tracked.
- `Console.WriteLine` logging in the galaxy is not modelled.
- The asynchronous `Create*` requests before the reply are not modelled. Only their last
  step, the table lookup, is modelled.
- `sessions.Answer` is modelled as appending the packet to a list of answers.
- `TaskCompletionSource.SetResult` is modelled as a counter of completed login signals.
- Doubles are modelled as exact reals plus infinities and NaN. Floating-point rounding is
  not modelled, including the rounding in `Read2U(100)`/`Read2S(100)`, which are taken as
  the raw 16-bit value divided by 100.
- `SunSection.Write`, `SunSection.Remove` and `SunConfiguration` are not modelled. Only
  whether a configuration is present matters to the setters.
- The getters of `SunSection` and `Team` are not modelled separately. They return the
  fields that `View()` exposes.
- Suns.ApplyKeepsShape: the energy and ion bounds hold for the corrected `Energy` and `Ions` setters only; the source's setters can store an energy of 1000 or ions of 60 (`EnergyAsWrittenEscapes`, `IonsAsWrittenEscapes`).
- Suns.RunKeepsShape: the same, over any sequence of setter calls.
- Suns.SunSection.SetEnergy: implements the corrected check of the incoming value, not the source's test of the stored field. The as-written behaviour is `Suns.EnergyAsWritten`; see Findings.
- Suns.SunSection.SetIons: implements the corrected check of the incoming value, not the source's test of the stored field. The as-written behaviour is `Suns.IonsAsWritten`; see Findings.
- Suns.SunSection.Build: runs the setters a constructor lists, rather than two fixed
  constructors. The source's setter orders and the corrected orders are
  `DefaultSettersAsWritten`, `ReadSettersAsWritten`, `DefaultSetters` and `ReadSetters`.
  The corrected orders set `OuterRadius` before `InnerRadius` and `AngelTo` before
  `AngelFrom`; `DefaultSettersRadiiFirst` and `ReadSettersRadiiFirst` swap the radii only.

## Findings

| source | as written | input that shows it | evidently intended | confidence | as-written member | corrected member |
|---|---|---|---|---|---|---|
| Flattiverse.Connector/Flattiverse.Connector/Units/SubComponents/SunSection.cs:183 | the `Energy` setter range-checks the stored `energy`, not the new `value` | a configured section with energy 0: setting 1000 succeeds, after which setting 0 throws 0x31 | check `value` against ±500 | not executed | Suns.EnergyAsWrittenEscapes | Suns.EnergyChecksValue |
| Flattiverse.Connector/Flattiverse.Connector/Units/SubComponents/SunSection.cs:201 | the `Ions` setter range-checks the stored `ions`, not the new `value` | a configured section with ions 0: setting 60 succeeds, after which setting 0 throws 0x31 | check `value` against ±50 | not executed | Suns.IonsAsWrittenEscapes | Suns.IonsChecksValue |
| Flattiverse.Connector/Flattiverse.Connector/Units/SubComponents/SunSection.cs:22-23 | the default constructor sets `InnerRadius` while `outerRadius` is still 0, so `100 >= 0` throws 0x31 | any `SunSection(configuration)` | set the outer radius and the upper angle first (or use `SetRadii` and `SetAngels`) | not executed | Suns.DefaultAsWrittenThrows | Suns.DefaultsConstruct |
| Flattiverse.Connector/Flattiverse.Connector/Units/SubComponents/SunSection.cs:25-26 | the default constructor sets `AngelFrom` while `angelTo` is still 0, so `45 >= 0` throws 0x31 even once the radii are reordered | any `SunSection(configuration)` with the radius setters swapped | set the upper angle first, or both with `SetAngels` | not executed | Suns.DefaultAnglesAsWrittenThrows | Suns.DefaultsConstruct |
| Flattiverse.Connector/Flattiverse.Connector/Units/SubComponents/SunSection.cs:36 | the reading constructor sets `InnerRadius` while `outerRadius` is still 0, so every value read (at least 0) throws 0x31 | any `SunSection(configuration, reader)` | set the outer radius and the upper angle first (or use `SetRadii` and `SetAngels`), with `Ions` checking the value read (SunSection.cs:201) | not executed | Suns.ReadAsWrittenThrows | Suns.ReadConstructs |
| Flattiverse.Connector/Flattiverse.Connector/Units/SubComponents/SunSection.cs:38-39 | the reading constructor sets `AngelFrom` while `angelTo` is still 0, so every angle read (at least 0) throws 0x31 even once the radii are reordered | any `SunSection(configuration, reader)` with the radius setters swapped | set the upper angle first, or both with `SetAngels`, with `Ions` checking the value read (SunSection.cs:201) | not executed | Suns.ReadAnglesAsWrittenThrows | Suns.ReadConstructs |
