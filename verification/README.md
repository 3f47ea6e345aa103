# A verified model of the UEFI SSH shell

The program is a UEFI application that serves its Shell over SSH: a single-threaded SSH 2.0 server over TCP, and a
console that turns the Shell's text output into terminal bytes and the client's bytes into keystrokes. This project
models the server, the console, the command line and the device-path handling in Dafny 4.11 and proves what they promise.
`dafny verify dfyconfig.toml` checks all of it.

## How it is built

The server is one object updated in place, with buffers it decrypts, compacts and rings through. It is modelled twice.
`Session` and `Connection` give it as functions from state to state, over an environment of arbitrary functions
(`Environment.Env`: keystream, HMAC, SHA-256, X25519, signature, random bytes, the password callback, the success of each
write), so that every theorem holds for all of them. `Server.SshConn` is the object itself, with its arrays, and each of
its methods is proved to do to the object what the function does to the value; `Api` adds the calls, over a transport that
delivers its bytes in pieces of any size, and proves that a connection is at every moment at the end of one of the runs of
`Connection`, and that every call returns and gives up on nothing before its time. The theorems are about runs: any sequence
of input, of calls and of transport failures.

| files | what |
|---|---|
| Bytes, Wire, Algorithms, Environment | integers and bit operations, the SSH wire format, name lists, the outside world |
| RecordLayer, KeySchedule | packets in and out with keystream positions and sequence numbers, hash and key derivation |
| Records, HonestClient | what a record is byte by byte, and the client of a key exchange, both after the RFCs alone |
| Session, Connection | the session, the version line, the input loop and runs, as functions |
| SessionFrames, ServiceInvariants, KexInvariants, Runs | what each packet and each call keeps, up to every run |
| Dialogue, Randomness, Transcript | what each message is answered by, in the RFCs' own numbers, where random bytes go, and everything said in any run |
| SessionTheorems, Starvation, Fragmentation, VersionBuffer, PeerStream, KeyAgreement, Opening | the promises of the protocol |
| Runtime, Messages, Server, Transport, Api | block moves and timeouts, the messages on the wire, the connection object, the transport and clock it is called over, its calls |
| Terminal, ConsoleOutput, ConsoleSimulation | a terminal, the output half of the console, and the simulation between them |
| ConsoleInput, LineEnds, ConsoleKeys | the key decoder as a function, the line ends it types, and the object with its escape buffer and key ring |
| CommandLine, DevicePath | the in-place tokenizer, and building, measuring and reading device paths |

Five promises turn out not to hold as one would put them. Each is proved with an input that breaks it and with the exact
condition under which it holds.

- The version-line limit is checked only while no LF has arrived, so how the input is split shows for longer lines and only
  for them (`Fragmentation.UniformIffShortLines`).
- For the same reason a whole line can be longer than the array it is copied into (`VersionBuffer.OverrunIff`,
  `VersionBuffer.LongVersionTaken`); it fits in every run whose lines are short (`VersionBuffer.VersionFits`).
- SshRead pays back the client's window only when it finds bytes and may send. A client is never starved exactly as long as
  no read takes the debt to half a window while no packet may be sent (`Starvation.NeverStarved`); one that does can leave
  the client without a window for good (`Starvation.DeadEnd`, `Opening.DeadEndReached`).
- The cursor prediction holds for characters one column wide and the controls the shim knows (`ConsoleSimulation.UnitExact`).
- Each line end types one Return unless a LF follows a CR with only sequences and longer characters in between, a line end
  stands inside a sequence, or a carriage return is spelt with too many bytes (`LineEnds.OneReturnIffOrderly`).

## Model

| member | source | states |
|---|---|---|
| SessionTheorems.SessionSafety | files/ssh.c:936-1115 | In every reachable state: authenticated service needs both directions keyed and a session id; a granted shell needs an open channel, a channel needs a login, a login needs a consent of the password callback earlier in the run; at most five refusals ever happen and the fifth closes; the terminal is never smaller than 1 by 1 or larger than 999 by 999 |
| SessionTheorems.NothingTakenBack | files/ssh.c:718-737 | Over any extension of any run the state never moves back, the session id is written once and is the first exchange hash, and no log loses anything |
| SessionTheorems.KexPhases | files/ssh.c:692-736 | While open, the outgoing key epoch is the incoming one, plus one exactly between the two NEWKEYS; KEXINITs sent and received pair up; a wrong guess is dropped at most once in an exchange and only while KEXDH_INIT is awaited |
| SessionTheorems.RekeyDiscipline | files/ssh.c:425-428 | For every interleaving of packets and calls: no channel data and no window adjust between the server's KEXINIT and its next NEWKEYS, and every packet is under the keys of the last NEWKEYS before it |
| SessionTheorems.OutputDecodes | files/ssh.c:358-407 | Everything any run puts on the wire is opened by a receiver that takes the server's keys at each NEWKEYS: the same payloads in order, ending at the same sequence number and keystream position; what the bytes are is SentRecords |
| SessionTheorems.SentRecords | files/ssh.c:358-407 | Byte for byte, the j-th packet of any run: before the first NEWKEYS the plain record of RFC 4253 section 6; after the e-th that record xor the keystream of the e-th keys, from as far into it as earlier packets under them reach, and behind it the HMAC-SHA-256 (32 bytes) or HMAC-SHA-512 (64 bytes) over j modulo 2^32, as four bytes, and the plain record |
| SessionTheorems.KeystreamUsedOnce | files/ssh.c:393-395 | Of two packets under the same keys the later begins in the keystream behind the earlier: no byte of it is used twice |
| SessionTheorems.RoomToRead | files/ssh.c:1181-1192 | Whenever the packet loop has run dry on an open connection there is room for the next read |
| SessionTheorems.NothingLost | files/ssh.c:811-822 | Against a client that keeps to its window RingPush never drops a byte, in any run |
| SessionTheorems.LosslessDelivery | files/ssh.c:811-822 | For such a client, in every reachable state: what SshRead has returned followed by what waits is exactly the channel data received, and client window, ring and debt add up to 32768 |
| Starvation.ReadPaysBack | files/ssh.c:1433-1461 | Told before the call: a read on an open connection leaves half a window or more unpaid if and only if that much will be owed and the ring is empty, or no packet may be sent now, or the socket will refuse the adjust |
| Starvation.PaidUpIff | files/ssh.c:1433-1461 | For every run: at every point of it less than half a window is unpaid or the connection is closed, if and only if no read was held back, that is, made on an open connection with bytes in the ring and no packet allowed, to take the debt to half a window or more |
| Starvation.NeverStarved | files/ssh.c:1433-1461 | So a client that keeps to its window has more than half of it, in hand or still in the ring, at every point of a run, if and only if no read of the run was held back |
| Starvation.StuckStays | files/ssh.c:1433-1461 | A session with an empty ring and the whole window unpaid stays that way, whatever packets within the window and whatever calls follow |
| Starvation.DeadEnd | files/ssh.c:1433-1461 | From every ordinary moment of every run five moves lead there: the client uses up its window and opens a key exchange, SshRead is called before it is over, and the exchange ends; from then on the window stays 0 for as long as the connection lasts |
| Opening.SessionOpens | files/ssh.c:936-1115 | Ordinary moments are reached: where writes succeed, X25519 refuses nothing and the callback consents, an honest client's bytes lead from a fresh connection through version, key exchange, password and channel to a granted shell |
| Opening.DeadEndReached | files/ssh.c:1433-1461 | So every such client is five moves from the dead end |
| SessionTheorems.OutboundWindow | files/ssh.c:1084-1093 | What may still be sent is the initial window plus all adjusts minus all data sent, exactly while no adjust has overflowed and modulo 2^32 otherwise; the grant is never exceeded |
| SessionTheorems.ChunkSent | files/ssh.c:1485-1507 | One round of SshWrite sends one packet: byte 94, the client's number for the channel and, as a string with nothing behind it, the front of the buffer; its length is the least of what is left, window, packet limit and 16384, comes off the window, and is 0 exactly when nothing is left or the client's packet limit is 0 |
| Runs.RunOk | files/ssh.c:936-1115 | The joint invariant of login, channel, windows, key exchange and output holds at the end of every run |
| Runs.RunOnward | files/ssh.c:1246-1284 | Along every run the logs only grow and the state only moves forward |
| Runs.ApplyOk | files/ssh.c:1386-1509 | Every event of a run keeps the joint invariant |
| Runs.DeliverOk | files/ssh.c:936-1115 | Every payload out of the record layer keeps the joint invariant, and a failed handler has closed the connection |
| Runs.TryOneOk | files/ssh.c:1118-1243 | TryProcessOne keeps the joint invariant and reports -1 exactly when the connection is closed |
| Runs.DrainOk | files/ssh.c:1269-1278 | The inner packet loop keeps the joint invariant and stops closed or with less than one maximal packet buffered |
| Runs.ReadRingOk | files/ssh.c:1444-1460 | SshRead's half of flow control keeps the joint invariant |
| Runs.WriteChunkOk | files/ssh.c:1485-1505 | A chunk of SshWrite keeps the joint invariant |
| Runs.CloseChannelOk | files/ssh.c:1516-1529 | SshClose's three packets keep the joint invariant |
| KexInvariants.HandleTransportOk | files/ssh.c:956-1026 | Every transport packet keeps the phases, epochs and counts of the key exchange and leaves login and channel alone |
| KexInvariants.KexInitOk | files/ssh.c:967-988 | A KEXINIT keeps them, whichever side started the exchange |
| KexInvariants.FinishOk | files/ssh.c:639-714 | Finishing the exchange keeps them: one hash more, outgoing keys switched right after NEWKEYS, incoming keys held ready |
| KexInvariants.NewKeysOk | files/ssh.c:718-736 | The client's NEWKEYS keeps them: the incoming direction catches up with the outgoing one, and the exchange is over |
| KexInvariants.NegotiateStep | files/ssh.c:469-544 | Negotiate succeeds if and only if the client's KEXINIT parses and each of its comma-split lists has one of the server's names, given literally; for each direction the first such cipher then sets the key length (aes128-ctr 16, aes192-ctr 24, aes256-ctr 32) and the first such MAC the hash, by the RFC tables of an independent client; the guess is dropped exactly when a packet follows and the first name of the method or host key list is not the one in use; otherwise it has disconnected with nothing else touched |
| KexInvariants.LengthsByName | files/ssh.c:335-356 | The same lengths written out, per name and for each direction: 16, 24, 32 bytes of key; 32 bytes of SHA-256 MAC, 64 of SHA-512 |
| KexInvariants.GuessByName | files/ssh.c:326-333 | What the code's scan to the first comma compares is the first name of the comma-split list |
| KexInvariants.OurKexInit | files/ssh.c:440-458 | The server's KEXINIT always fits its buffer, and whoever parses it gets the server's lists |
| KexInvariants.OfferIs | files/ssh.c:440-456 | The KEXINIT byte for byte: 20, the cookie, ten name lists in the order of RFC 4253 section 7.1 with the names given literally, no guess, a zero word |
| ServiceInvariants.HandleServiceOk | files/ssh.c:1028-1114 | Every service packet keeps login, channel and both windows consistent and leaves the key exchange alone |
| ServiceInvariants.AuthorizeOk | files/ssh.c:785-806 | Consent and refusal keep the login invariant; the fifth refusal disconnects |
| ServiceInvariants.ChannelDataOk | files/ssh.c:1064-1079 | Incoming data keeps the ring, the counters and the window equation |
| ServiceInvariants.WindowAdjustOk | files/ssh.c:1084-1093 | An adjust keeps the outgoing window equation, wrap-around included |
| Dialogue.ServiceAnswered | files/ssh.c:1004-1022 | SERVICE_REQUEST: DISCONNECT 2 before the first keys or for another service, otherwise exactly one packet, 6 and the string ssh-userauth |
| Dialogue.AuthAnswered | files/ssh.c:751-806 | USERAUTH_REQUEST before the login, read by its fields: DISCONNECT 2 if unreadable or for another service; without asking the callback exactly one packet, 51, string password, byte 0, unless it is a readable password of at most 255 bytes that changes nothing; otherwise the callback is asked once, with the name cut at 63 bytes, and yes is exactly one packet 52, no exactly one packet 51 as before, the fifth no a DISCONNECT 14 |
| Dialogue.AuthElsewhere | files/ssh.c:1024-1032 | A request before the first keys ends the connection, one after the login is not looked at |
| Dialogue.FailureBytes | files/ssh.c:741-748 | The failure byte for byte: 51, a length of 8, password, 0 |
| Dialogue.GlobalAnswered | files/ssh.c:1034-1048 | GLOBAL_REQUEST: REQUEST_FAILURE (82) exactly if an answer is wanted |
| Dialogue.OpenAnswered | files/ssh.c:838-877 | CHANNEL_OPEN: the first session channel is confirmed (91) to the client's number as channel 0 with window and packet limit 32768, and its numbers are kept; any further one is refused (92) with reason 4, any other kind with 3 |
| Dialogue.RequestAnswered | files/ssh.c:879-934 | CHANNEL_REQUEST on channel 0: pty-req and window-change set columns, then rows, each if between 1 and 999; shell and env are granted; success is 99 and failure 100, to the client's number, exactly if an answer is wanted |
| Dialogue.DataAnswered | files/ssh.c:1064-1079 | CHANNEL_DATA for channel 0 appends to the ring up to 65535 bytes, counts the rest as lost and is not answered |
| Dialogue.AdjustAnswered | files/ssh.c:1084-1093 | WINDOW_ADJUST adds its second number to the window modulo 2^32 |
| Dialogue.CloseAnswered | files/ssh.c:1099-1105 | CHANNEL_CLOSE is answered by one 97 to the client's number, unless one has gone out |
| Dialogue.NothingAnswered | files/ssh.c:961-1097 | IGNORE, UNIMPLEMENTED, DEBUG, EXT_INFO, extended data and end of file are not answered |
| Dialogue.Ended | files/ssh.c:941-959 | A DISCONNECT ends the connection without an answer, an empty payload with DISCONNECT 2 |
| Dialogue.GuessPassed | files/ssh.c:946-949 | A wrongly guessed packet is passed over once, whatever it is |
| Dialogue.OtherAnswered | files/ssh.c:1107-1113 | Every other number is answered by UNIMPLEMENTED (3) with the number of the packet it came in |
| Dialogue.KexRefused | files/ssh.c:967-1002 | A KEXINIT, KEXDH_INIT or NEWKEYS out of its turn ends the connection with reason 2 |
| Dialogue.DhRefused | files/ssh.c:580-624 | A KEXDH_INIT without a string of 32 bytes, or with a refused point, ends it with reason 3; any other goes on with the next 32 random bytes as private key |
| Dialogue.RecordRefused | files/ssh.c:1171-1230 | A bad length or padding ends it with reason 2, a wrong MAC with reason 5 |
| Dialogue.LineHeard | files/ssh.c:1131-1169 | A line ended by LF or CR LF: passed over unless it begins with SSH-; taken without its end as the client's version if it begins with SSH-2.0 or SSH-1.99 and has eight bytes; otherwise DISCONNECT 2 |
| Dialogue.LineAwaited | files/ssh.c:1131-1142 | Without a LF the server waits while there are at most 254 bytes, then disconnects |
| Dialogue.ReadSays | files/ssh.c:1444-1460 | A read returns the oldest bytes; at 16384 unpaid bytes or more, when a packet may be sent, it sends one WINDOW_ADJUST (93) of exactly that many to the client's number and owes nothing |
| Dialogue.CloseSays | files/ssh.c:1516-1529 | Closing says exit-status (98), end of file (96) and close (97), in this order and to the client's number, or those up to the one the socket refuses |
| Dialogue.GiveUpSays | files/ssh.c:1415-1430 | Giving up is DISCONNECT 11 with its reason |
| Transcript.EveryPacket | files/ssh.c:358-407 | Every packet of every run is one of eighteen kinds and reads back as exactly its fields; what belongs to a channel (91, 93, 94, 96 to 100) is addressed to the number the client gave when it first asked for a session channel |
| Transcript.Addressed | files/ssh.c:829-836 | So the first integer behind the number of such a packet is that number |
| Transcript.Confirmations | files/ssh.c:741-806 | In every run USERAUTH_SUCCESS has been sent as often as the callback has consented, at most once and exactly when the client is logged in; SERVICE_ACCEPT as often as the login service has been asked for |
| Transcript.DataReaches | files/ssh.c:1485-1507 | In every run the strings of the data packets addressed to the client's channel are all the data ever sent |
| Transcript.NothingDrawnTwice | files/ssh.c:375-440 | In every run cookies, private keys and padding are consecutive output of the generator, and no byte of it serves twice; the public value of each reply belongs to the 32 bytes drawn for it |
| RecordLayer.OpenSealed | files/ssh.c:1171-1242 | Any payload framed with 4 to 255 bytes of padding to whole blocks, authenticated and encrypted, the receiver opens: the payload, the same sequence number and keystream position, though it decrypts the first block early and the rest later; that both sides do what the RFC says is Records.SealedBytes and Records.RecordOpened |
| RecordLayer.StreamRoundTrip | files/ssh.c:358-407 | The same for any sequence of payloads with any key changes at NEWKEYS |
| RecordLayer.PadLen | files/ssh.c:370-374 | Padding is at least 4, less than a block more, and fills the record to whole blocks |
| RecordLayer.ReceiveProgress | files/ssh.c:1181-1199 | A receiver that needs more bytes holds less than one maximal packet with the longest MAC |
| RecordLayer.StepMore | files/ssh.c:1180-1243 | More input changes nothing about a step that can finish, and a step that cannot has done only work the longer input needs too |
| RecordLayer.CryptTwice | files/ssh.c:393-395 | Counter mode undoes itself at the same keystream position |
| Records.SealedBytes | files/ssh.c:370-407 | What the sender puts out, without the functions that build it: length field by its value, padding length, payload, padding; under keys each byte xor the keystream at its place, and the HMAC of sequence number and plain record behind; position and number move on |
| Records.RecordOpened | files/ssh.c:1198-1242 | A whole record is taken if and only if its tag is the HMAC over the sequence number, as four bytes, and the plain record, and at least four bytes of padding lie inside it; otherwise MAC mismatch or bad padding, in this order; the payload is what the padding leaves, and the receiver goes on behind the tag with the next number |
| Records.LengthDecides | files/ssh.c:1171-1199 | The receiver waits for 4 bytes, or for 16 under keys; refuses a record unless it has 9 to 35000 bytes in whole blocks of 8 or 16; and then waits for the record with its tag and no longer |
| Bytes.XorBit | files/ssh.c:393-395 | The byte operation of the cipher, bit by bit: set exactly where the two bytes differ |
| Fragmentation.SplittingIsInvisible | files/ssh.c:1246-1284 | From any reachable state, any two ways to split the same input give the same packets handled, packets sent, keys and session, if the lines up to the version are short enough |
| Fragmentation.UniformIffShortLines | files/ssh.c:1131-1142 | The exact condition, whatever has already arrived of the version line: splitting the rest of the input is invisible at every point if and only if each line up to the client's version has at most 254 bytes before its LF |
| Fragmentation.LongLineShows | files/ssh.c:1136-1142 | A longer line is refused as too long when its LF has not come with it, and not when it has: two splits of the same bytes that end differently |
| VersionBuffer.CopyFitsIff | files/ssh.c:1145-1157 | A whole version line is copied inside the 256-byte array, NUL included, if and only if its LF is at most the 256th byte, or the 257th after a CR |
| VersionBuffer.VersionFits | files/ssh.c:1145-1157 | In every run whose lines are short the version kept has at most 254 bytes, so the copy is inside the array |
| VersionBuffer.OverrunIff | files/ssh.c:1131-1163 | For every stream of bytes: some way of delivering its beginning, in reads the receive buffer has room for, makes the copy leave the array, if and only if the first line that begins with SSH- is one of SSH 2.0 of more than 255 bytes and it and the lines before it fit the receive buffer |
| VersionBuffer.LongVersionTaken | files/ssh.c:1136-1157 | A line of 256 bytes that arrives with its LF in one read is taken, one byte more than fits with the NUL |
| Fragmentation.FeedSplit | files/ssh.c:1246-1284 | Two reads in a row are one read of both, inside the version line, inside the first block and right after NEWKEYS alike |
| Fragmentation.SameBytesSameRun | files/ssh.c:1246-1284 | Two connections fed the same bytes in any pieces are the same connection |
| PeerStream.PeerIsHeard | files/ssh.c:1171-1242 | A peer with matching keys that sends any packets the server accepts, padded as it likes, through any key changes, has exactly its payloads handled, in order; the session is the one that handling them in turn leads to, at the peer's sequence number and keystream position, with nothing left over; the peer's bytes are those of Records.SealedBytes |
| PeerStream.DeliverIn | files/ssh.c:718-736 | Handling a packet moves the incoming keys exactly at NEWKEYS, to the keys held ready |
| KeyAgreement.KeysAgree | files/ssh.c:580-716 | With an honest client and commutative X25519, in the first and every later exchange, whatever else the client sends and whatever calls, closing, time-outs or loss of the transport come in between: the client never gives up, and while the connection is open both sides have the same exchange hashes, the first is the session id of both, and each direction has the same keys at both ends. The client is HonestClient: its own message layouts, algorithm tables, eight-part hash and key letters A to F, after the RFCs |
| KeyAgreement.ClientFinishes | files/ssh.c:639-669 | Given one shared secret, that client accepts the reply (byte 31, three strings and nothing behind, its host key, a signature of its own hash), and its hash and its keys, derived at the exact lengths its tables say, are the server's |
| KeyAgreement.ServerFinishes | files/ssh.c:639-714 | FinishKex puts the reply on the wire first and leaves hash, session id and both key sets as computed |
| KeyAgreement.StepKeeps | files/ssh.c:936-1115 | Every step of the joint run keeps both sides in agreement |
| KeyAgreement.ReplyParses | files/ssh.c:671-684 | The KEXDH_REPLY is byte 31 and exactly three strings: the host key blob and the signature blob, each a type name and its bytes, around the public value |
| KeyAgreement.SuitesAre | files/ssh.c:469-544 | From the two KEXINITs as sent, read by the client's own layout and tables, it arrives at the server's cipher key length and MAC for each direction |
| HonestClient.HashIs | files/ssh.c:638-650 | The server's exchange hash is SHA-256 over the client's version, SSH-2.0-UefiSshShell_0.1, the client's and the server's KEXINIT, host key, the client's and the server's public value, each as a string, and the secret as an mpint: RFC 4253 section 8 |
| HonestClient.KeysAre | files/ssh.c:664-700 | The server's keys are those of letters A, C, E for client to server and B, D, F for server to client (initialisation vector, cipher, MAC), each derived at its own length |
| HonestClient.ListsAre | files/ssh.c:482-498 | The server's reads find each list of a KEXINIT where a client that reads the message by its shape finds it, and succeed exactly when it does |
| KeySchedule.DerivedPrefix | files/ssh.c:554-578 | Deriving more and using less is deriving less |
| KeySchedule.DerivedBlock | files/ssh.c:554-578 | K1 is HASH(K, H, letter, session id) and each further block is HASH(K, H, all blocks before) |
| KeySchedule.DeriveKey | files/ssh.c:554-578 | The 96-byte scratch buffer filled 32 bytes at a time yields exactly the derivation |
| KeySchedule.CutIsExact | files/ssh.c:664-700 | Always deriving 16, 32 and 64 bytes and using a part is deriving each key at its own length |
| Wire.RoundTrip | files/ssh.c:171-282 | Any bytes, integers, strings and mpints written without overflow are read back item for item |
| Wire.EncodedReads | files/ssh.c:240-282 | A message laid out item by item after RFC 4251 section 5 is read back item by item, whatever follows it |
| Wire.MessageFields | files/ssh.c:171-282 | A packet of a number and items has exactly those fields and nothing behind them |
| Wire.PutU32Value | files/ssh.c:171-182 | The four bytes of an integer are its big-endian value |
| Wire.WAllSticky | files/ssh.c:192-200 | An overflow stays recorded through every later write |
| Wire.MpintCanonical | files/ssh.c:225-238 | WMpint keeps the big-endian value; its body is the only canonical form of it and the shortest non-negative one |
| Wire.WBuf.PutBytes | files/ssh.c:192-200 | Appends or records the overflow; never writes outside what is left of the capacity |
| Wire.WBuf.PutStr | files/ssh.c:214-218 | Length and bytes, with the same frame |
| Wire.WBuf.PutMpint | files/ssh.c:225-238 | Strips leading zeros in a loop and writes the mpint, with the same frame |
| Wire.RBuf.GetInt | files/ssh.c:257-267 | Reads and advances, or sets the sticky error |
| Wire.RBuf.GetStr | files/ssh.c:269-282 | Reads a string that fits, or sets the sticky error and yields nothing |
| Messages.WriteKexInit | files/ssh.c:440-456 | The writes of the cookie and the lists, in order, leave exactly the KEXINIT of the session functions in the payload buffer |
| Messages.WriteReply | files/ssh.c:671-684 | The signature blob, written as a length and two strings, is the nested string of the reply |
| Messages.MpintBytes | files/ssh.c:622-631 | A shared secret never overflows the 37 bytes its mpint is written into |
| Messages.ReadLists | files/ssh.c:482-498 | Twelve reads with one sticky error: the lists if all of them succeeded, nothing otherwise |
| Algorithms.PickAlg | files/ssh.c:308-324 | An offset and length in the client's list: its first entry that the server has, or none |
| Algorithms.ListHas | files/ssh.c:289-306 | Whether a name is an entry of the server's list |
| Algorithms.FirstEntryLen | files/ssh.c:326-333 | Everything before the first comma |
| Algorithms.PickMeetsRfc | files/ssh.c:308-324 | Negotiation as RFC 4253 section 7.1 has it: the first name of the comma-split client list that is in the comma-split server list, and none if and only if there is no such name |
| Algorithms.KexRoundTrip | files/ssh.c:440-494 | A KEXINIT that fits its buffer is parsed back to its lists |
| Algorithms.OwnListsPickHeads | files/ssh.c:69-73 | A client offering the server's own lists gets the head of each |
| Server.SshConn.constructor | files/ssh.c:1315-1351 | A new object stands for the initial state |
| Server.SshConn.SendPacket | files/ssh.c:358-407 | Builds, pads, authenticates and encrypts in the transmit buffer; the bytes it hands to the socket are the record logged, whose every byte is told by SessionTheorems.SentRecords; a refused write closes |
| Server.SshConn.Protect | files/ssh.c:384-398 | MAC over sequence number and plain record, then encryption in place; the result is the record of Records.SealedBytes |
| Server.SshConn.Disconnect | files/ssh.c:409-423 | Says goodbye once and closes |
| Server.SshConn.SendKexInit | files/ssh.c:432-467 | Draws a cookie, keeps the payload for the hash, sends it |
| Server.SshConn.Negotiate | files/ssh.c:469-544 | Negotiates in place what the state function does, whose outcome is the subject of KexInvariants.NegotiateStep |
| Server.SshConn.OnKexInit | files/ssh.c:967-988 | Keeps the KEXINIT, answers with the server's own unless it is out, negotiates; refused once an exchange is past its KEXINITs |
| Server.SshConn.OnKexDhInit | files/ssh.c:580-624 | Checks the public value, draws a private one, refuses a bad point |
| Server.SshConn.FinishKex | files/ssh.c:638-714 | Hash, session id, six keys, reply, NEWKEYS, outgoing switch, in this order; that they are those of the RFC is KeyAgreement.ClientFinishes |
| Server.SshConn.OnUserauth | files/ssh.c:751-784 | The password dialogue up to the callback, read field by field with one sticky error; its answers are Dialogue.AuthAnswered |
| Server.SshConn.Authorize | files/ssh.c:785-806 | Consent opens the service; refusals count to five; its answers are Dialogue.AuthAnswered |
| Server.SshConn.OnChannelOpen | files/ssh.c:838-877 | One session channel, the rest refused |
| Server.SshConn.OnChannelRequest | files/ssh.c:879-934 | pty-req, shell, window-change and env, each with its own answer |
| Server.SshConn.RingPush | files/ssh.c:811-822 | Byte by byte into the 64 KiB ring up to one free slot; the rest is dropped |
| Server.SshConn.RingTake | files/ssh.c:1445-1447 | The oldest byte out of the ring |
| Server.SshConn.OnChannelData | files/ssh.c:1064-1079 | Data into the ring, or a protocol error |
| Server.SshConn.OnChannelClose | files/ssh.c:1099-1105 | Answers a close once |
| Server.SshConn.HandlePacket | files/ssh.c:936-1115 | The whole dispatch, the dropped guess included |
| Server.SshConn.TakeLine | files/ssh.c:1132-1168 | Finds, checks and removes a version line in the receive buffer as the step on values does, which keeps the line whole |
| Server.SshConn.DropFront | files/ssh.c:1161-1162 | Compaction of the receive buffer by an overlapping move |
| Server.SshConn.LearnLength | files/ssh.c:1172-1191 | Decrypts the first block in place and checks the length once |
| Server.SshConn.SameMac | files/ssh.c:1213-1220 | Accumulates the differences of all bytes: equal if and only if the MAC is |
| Server.SshConn.OpenBody | files/ssh.c:1198-1229 | Decrypts the rest in place, then checks MAC and padding, as Records.RecordOpened tells it |
| Server.SshConn.TryProcessOne | files/ssh.c:1118-1243 | One step of the input machine on the receive buffer equals the step on values |
| Api.SshNew | files/ssh.c:1303-1355 | A new connection is at the start of a run |
| Api.Receive | files/ssh.c:1255-1268 | One read into the free part of the buffer, no byte lost or repeated |
| Api.Packets | files/ssh.c:1269-1278 | The inner loop, which ends because the buffer shrinks |
| Api.ProcessInput | files/ssh.c:1246-1284 | Returns 0 only after a read that found nothing and with no packet left to take, -1 exactly when the connection is closed, which only input or a transport that is gone can do; ends for every finite transport |
| Api.SshPoll | files/ssh.c:1380-1384 | The same: everything the transport has is read and handled |
| Api.SshAccept | files/ssh.c:1386-1431 | Always returns; 0 only with a shell granted to a client the password callback has accepted, otherwise closed; sends the version line first unless it is out; turns a client away itself only when the time since the last byte from it is spent, by the spins or by the clock, and the transport has nothing more |
| Api.TakeBytes | files/ssh.c:1444-1448 | The oldest bytes of the ring, as many as fit, in order |
| Api.SshRead | files/ssh.c:1433-1461 | Reads the transport dry, then returns exactly the next bytes of the client's stream, as many as were asked for or all that wait; -1 only with nothing left and the stream over; with nothing left otherwise 0, on an open channel that the client has neither closed nor ended |
| Api.AwaitWindow | files/ssh.c:1471-1483 | True exactly when the reason to wait is gone, false only on a closed connection or when the time is spent; where there was no reason nothing is read |
| Api.SshWrite | files/ssh.c:1463-1509 | Always returns when the packet limit is not 0; 0 means the data packets addressed to the client's channel, read back by their fields, carry exactly the buffer, -1 a prefix of it, and that the channel can take no more or the time since the last packet sent was spent waiting for the window |
| Api.SshClose | files/ssh.c:1511-1549 | Always returns, with the connection closed: a channel that can be closed gets its exit status, end of file and close first, and the goodbye comes once the client has closed too or has had its time |
| Runtime.MemMove | files/uefirt.c:364-386 | An overlapping move in either direction leaves exactly the moved block and everything outside it as it was |
| Runtime.MemCpy | files/uefirt.c:351-362 | A block copy changes the target range and nothing else |
| Transport.RtTimedOut | files/uefirt.c:40-49 | A wait is over at the spin limit whatever the clock says, and sooner only after 64 spins and with two clock readings more than the limit and a second apart |
| Runtime.SpinsEnd | files/uefirt.c:40-49 | A wait is over at exactly the spin that passes four times the limit, whatever the clock; without a clock not before |
| Runtime.NeverEarly | files/uefirt.c:40-49 | A wait that ends sooner ends because more than the limit and a second have passed |
| Runtime.EndsIff | files/uefirt.c:40-49 | Where nothing wraps, a wait ends exactly when its spins have passed four times the limit, or on every 64th spin when a working clock shows more than the limit and a second |
| ConsoleSimulation.CursorSimulation | files/ConsoleShim.c:114-255 | From a clear, reset or explicit cursor address on, after any calls with strings of characters one column wide and LF, CR, BS and TAB: predicted column, row and pending wrap are those of an autowrap terminal that read the emitted bytes, and it has shown exactly the characters of the strings |
| ConsoleSimulation.UnitExact | files/ConsoleShim.c:122-171 | A unit leaves the prediction right if and only if it takes one column, or is a control other than ESC and DEL, and in the case of VT and FF, which the terminal takes for a LF and the shim for nothing, only on the last row with no wrap pending |
| ConsoleSimulation.StringStep | files/ConsoleShim.c:122-171 | A predictable string keeps the prediction and shows its characters in order |
| ConsoleSimulation.DigitsRead | files/ConsoleShim.c:72-83 | A number emitted in decimal is read back as the parameter it is |
| ConsoleSimulation.EncodeShown | files/ConsoleShim.c:85-97 | An encoded unit is shown as that one character |
| ConsoleSimulation.CursorMoves | files/ConsoleShim.c:239-255 | An accepted cursor address moves the terminal there from anywhere |
| ConsoleSimulation.ClearHomes | files/ConsoleShim.c:196-205 | Clearing wipes everything shown and homes the terminal from anywhere |
| ConsoleSimulation.AttributeArrives | files/ConsoleShim.c:218-237 | An attribute arrives as a reset and the two colours: 30 or, with bit 3, 90, and 40, each plus the colour with its bits for red and blue exchanged |
| ConsoleSimulation.ResetArrives | files/ConsoleShim.c:266-275 | A reset arrives as default rendition, a cursor that shows, an empty screen and a homed cursor |
| ConsoleSimulation.VisibleArrives | files/ConsoleShim.c:257-264 | Showing and hiding the cursor arrive as that |
| ConsoleOutput.Output.Flush | files/ConsoleShim.c:21-55 | Empties the buffer to the client, or, once a write is refused, to nobody for good |
| ConsoleOutput.Output.EmitByte | files/ConsoleShim.c:57-63 | Appends a byte, flushing a full buffer first, and loses none |
| ConsoleOutput.Output.EmitNum | files/ConsoleShim.c:72-83 | The digits of a number, produced backwards and emitted forwards |
| ConsoleOutput.Output.EmitUtf8 | files/ConsoleShim.c:85-97 | The one to three bytes of a unit |
| ConsoleOutput.Output.PutUnit | files/ConsoleShim.c:122-171 | One unit: bytes and prediction |
| ConsoleOutput.Output.OutputString | files/ConsoleShim.c:114-175 | A string: bytes and prediction, with nothing left in the buffer |
| ConsoleOutput.Output.ClearScreen | files/ConsoleShim.c:196-205 | Bytes and prediction |
| ConsoleOutput.Output.SetAttribute | files/ConsoleShim.c:218-237 | Bytes, or refusal of an attribute above 0x7F |
| ConsoleOutput.Output.SetCursorPosition | files/ConsoleShim.c:239-255 | Bytes and prediction, or refusal of a place off the screen |
| ConsoleOutput.Output.Reset | files/ConsoleShim.c:266-275 | Bytes and prediction |
| ConsoleOutput.MakeAll | files/ConsoleShim.c:21-275 | Any sequence of calls: bytes and prediction are those of the calls in order, the client has had all the bytes as long as no write was refused, and none after one was |
| ConsoleInput.StreamOk | files/ConsoleShim.c:452-532 | After any bytes: at most 23 bytes of an escape sequence are held, a proper prefix of an SS3 or CSI sequence; at most three bytes of a character are missing; the accumulator stays within 21 bits |
| ConsoleInput.FeedAppend | files/ConsoleShim.c:552-557 | Decoding does not depend on how the stream is cut into reads |
| ConsoleInput.AsciiLines | files/ConsoleShim.c:513-531 | ASCII without escapes types its characters and one Return for each CR LF, CR and LF |
| LineEnds.SeenAll | files/ConsoleShim.c:452-532 | The decoder's flag told from the bytes alone: it is set exactly when the last plain byte, one outside every escape sequence and longer character, is a CR |
| LineEnds.ReturnTyped | files/ConsoleShim.c:452-532 | Exactly when the next byte types a Return: it is plain and a CR, or plain and a LF and the last plain byte is no CR, or it completes a carriage return spelt with too many bytes |
| LineEnds.OneReturnIffOrderly | files/ConsoleShim.c:513-531 | For every stream of bytes: each CR LF, CR and LF types exactly one Return, at every point, if and only if no CR stands inside a sequence, no LF of its own stands inside one or after a CR with no plain byte in between, and no carriage return is spelt with too many bytes |
| LineEnds.ReturnLost | files/ConsoleShim.c:518-524 | CR, cursor up, LF types one Return for two line ends |
| LineEnds.ReturnLostAcrossCharacter | files/ConsoleShim.c:488-524 | The same across a two-byte character |
| LineEnds.ReturnInSequence | files/ConsoleShim.c:471-487 | A CR or LF inside a control sequence types none |
| ConsoleInput.FlushFromFresh | files/ConsoleShim.c:439-450 | A sequence given up is the ESC key followed by exactly what a decoder that has seen nothing makes of the bytes held back, whatever they are |
| ConsoleInput.FlushTypes | files/ConsoleShim.c:439-450 | So ASCII held back is its characters and one Return for each line end |
| ConsoleInput.ControlSequence | files/ConsoleShim.c:461-487 | A control sequence anywhere in a stream, even inside a character: with at most 21 bytes before its final one it is its one key and leaves the decoder as it was; of a longer one the first 24 bytes vanish and the rest is typed |
| ConsoleInput.LetterKeys | files/ConsoleShim.c:361-434 | ESC [ or ESC O and a letter: A, B, C, D are up, down, right, left (1 to 4), H and F Home and End (5, 6), P to S F1 to F4 (11 to 14); any other final byte is no key |
| ConsoleInput.NumberKeys | files/ConsoleShim.c:382-404 | ESC [, a number and a tilde: 1 and 7 Home, 2 Insert, 3 Delete, 4 and 8 End, 5 and 6 the page keys, 11 to 15, 17 to 21, 23 and 24 F1 to F12, by their scan codes |
| ConsoleInput.CharacterKey | files/ConsoleShim.c:318-334 | A character types itself, delete a backspace; the control flag is set exactly for control letters other than backspace, tab, line feed and return |
| ConsoleInput.FourArrive | files/ConsoleShim.c:488-512 | A four-byte character types its unit if it has one and nothing if it lies beyond the units |
| ConsoleInput.CutShort | files/ConsoleShim.c:488-512 | A character cut short is dropped, and the byte that cuts it short counts from the start |
| ConsoleInput.UnitRoundTrip | files/ConsoleShim.c:488-512 | A unit encoded by the output side is decoded to itself |
| ConsoleInput.StringArrives | files/ConsoleShim.c:488-531 | Every string of printable units that EmitUtf8 encodes comes back through FeedByte into the key ring exactly, when there is room |
| ConsoleInput.StoreAllKeeps | files/ConsoleShim.c:307-316 | A full ring keeps the first keys and drops the rest |
| ConsoleKeys.Input.PushKeyData | files/ConsoleShim.c:307-316 | Into the ring unless it is full |
| ConsoleKeys.Input.PushKey | files/ConsoleShim.c:318-334 | The key with its control flag |
| ConsoleKeys.Input.PopKey | files/ConsoleShim.c:570-578 | The oldest key first |
| ConsoleKeys.Input.InjectExit | files/ConsoleShim.c:348-359 | Types "exit" and Return into an empty ring, at most 40 times |
| ConsoleKeys.Input.CsiNumber | files/ConsoleShim.c:366-368 | The leading decimal parameter, in 64 bits |
| ConsoleKeys.Input.HandleCsi | files/ConsoleShim.c:361-413 | The key of a completed sequence, by the final byte just stored |
| ConsoleKeys.Input.FeedByte | files/ConsoleShim.c:452-532 | One byte on the stored state equals the step on values; the recursion ends |
| ConsoleKeys.Input.FlushEsc | files/ConsoleShim.c:439-450 | Replays what was held back from an empty escape buffer |
| ConsoleKeys.Input.PumpInput | files/ConsoleShim.c:534-568 | Takes from the channel exactly what can be had at once, runs it through the decoder once and in order, and leaves the rest for later: no byte lost or repeated; a client that is gone gets "exit" typed |
| ConsoleKeys.ReadyConserves | files/ConsoleShim.c:534-568 | What can be had at once and what is left for later are together what the channel holds |
| CommandLine.Tokenize | files/SshShellServer.c:117-143 | The in-place tokenizer leaves at most 24 C strings in the buffer that are exactly the arguments of the line |
| CommandLine.TakeArgument | files/SshShellServer.c:126-142 | One argument terminated in place; what came before and what follows stay as they are |
| CommandLine.QuotingUndone | files/SshShellServer.c:117-143 | Quoting and joining with blanks is undone, empty arguments included, if and only if no argument among the first 24 holds a quote; arguments past the 24th are lost and nothing else |
| CommandLine.PlainWords | files/SshShellServer.c:117-143 | However many blanks and tabs stand before, between and behind the words of a line, its arguments are exactly the words, up to the limit, if and only if none of these begins with a quote |
| DevicePath.DevPathLen | files/SshShellServer.c:247-261 | The offset of the node at which the walk stops |
| DevicePath.WalkRoundTrip | files/SshShellServer.c:247-261 | A path walks back into the nodes it was made of |
| DevicePath.BuildPath | files/SshShellServer.c:308-326 | The buffer for the firmware: the device's nodes, the file's node, the end |
| DevicePath.FileOnWire | files/SshShellServer.c:308-326 | The file's node and the end byte for byte: 4, 4, the length, the name in 16-bit units, low bytes first, a NUL, and 0x7F, 0xFF, 4, 0 |
| DevicePath.BuiltPath | files/SshShellServer.c:308-326 | It walks to the device's nodes and the file's node if and only if the node's length fits its two bytes |
| DevicePath.LastCut | files/SshShellServer.c:279-284 | The loop finds the place after the last backslash before the NUL |
| DevicePath.OwnDirectory | files/SshShellServer.c:264-292 | The buffer ends up with the directory of the last file node that fits |
| DevicePath.DirectoryOfBuilt | files/SshShellServer.c:264-326 | Of a path built on a device without file nodes, that is the file name up to its last backslash |

## Left out

- wolfCrypt: cipher, hashes, X25519, signatures and the random generator are arbitrary total functions; their error returns, and failures to allocate, do not occur in the model. A refused X25519 point does.
- Network: `files/net.c` is a finite script of reads of any size, ending in silence or loss, and a socket whose every write may be refused, which closes the connection.
- Clock: RtNow may answer anything at any time; only the readings and the stalls are kept.
- Server.SshConn.TakeLine: keeps the client's version line whole and does not model the 256-byte array or what lies behind it; exactly when the source's copy stays inside is `VersionBuffer.CopyFitsIff`.
- Api.SshWrite: requires a packet limit above 0 once a channel is open, because with 0 the loop sends empty packets without end (`SessionTheorems.ChunkSent`).
- Extended data from the client is ignored, as in the source, and not counted against its window.
- SshClose and channel replies are sent without asking whether a key exchange is open, as in the source; the rekey discipline is about channel data and window adjusts.
- Guessed key exchange packets: the rule is the source's own, which compares the client's first method with the one chosen and not with the server's first.
- The connection object: the channel fields, the login fields and the algorithms for the next keys are grouped into records; a packet body is handed to SendPacket as the bytes the payload buffer holds.
- KeyAgreement.KeysAgree: runs over packets and calls of the session; that the packets cross the wire unchanged is `PeerStream.PeerIsHeard` and `SessionTheorems.OutputDecodes`.
- ConsoleOutput.Output: the window size is read once, when the object is made; a resize between calls, which can leave the cursor beyond the edge, is not modelled. Bytes mirrored to the local screen after a disconnect are not either.
- ConsoleSimulation.UnitExact: for characters at most two columns wide, and not for the C1 controls 0x80 to 0x9F; what a terminal does with raw controls is what `Terminal.Control` does, which knows LF, VT, FF, CR, BS, TAB and ESC.
- ConsoleKeys.Input: keystroke notifications (FireNotify, FireBreak) are calls into other programs and leave no trace in the model; when a held escape sequence is given up is left to chance.
- Device paths: a path handed in is assumed to stop inside its bytes, as the firmware promises.
- SshPrintHostKey, Print, the option switch of ParseArgs, launching the Shell, protocol installation and its checksums, memory allocation and the host key: firmware calls and text output.
