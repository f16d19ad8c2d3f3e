# Models of otservpp's message codec, pools, connections, timers and translators

This project models the parts of the otservpp game server that are small in code and rich in state
or arithmetic, and proves what they are for. Each module follows one source component; what the
source does by changing an object is a class here, every method of which is proved equal to a
function on the object's state, and the properties are lemmas over those functions and over all runs
of them.

| file | module | models |
|---|---|---|
| `bytes.dfy` | `Bytes` | octets and little-endian numbers |
| `collections.dfy` | `Collections` | facts about sets and sequences for the other modules |
| `adler32.dfy` | `Adler32` | the checksum loop of `crypto.cpp`, against section 2.2 of RFC 1950 |
| `machine_words.dfy` | `MachineWords` | 32-bit words with wrapping arithmetic, and their bytes in memory |
| `xtea.dfy` | `XteaCipher` | both in-place XTEA loops of `crypto.cpp` |
| `xtea_known_answer.dfy` | `XteaKnownAnswer` | one block through all 32 rounds |
| `out_message.dfy` | `OutMessages` | `BasicOutMessage` and `StandardOutMessage` |
| `in_message.dfy` | `InMessages` | `BasicInMessage` and `StandardInMessage` |
| `standard_protocol.dfy` | `StandardProtocol` | sender against receiver: round trip and corruption |
| `reused_message.dfy` | `ReusedMessages` | the read loop's one message, whose cursor is never reset |
| `fields.dfy` | `Fields` | the typed adders against the typed getters |
| `connection_pool.dfy` | `ConnectionPools` | leasing SQL connections, with handlers that re-enter |
| `pool_connect.dfy` | `PoolConnect` | connecting all of a pool's connections |
| `connection.dfy` | `Connections` | the send queue, the read loop and closing of a client connection |
| `scheduler.dfy` | `Scheduler` | deferred and interval tasks over a deadline timer |
| `mysql_service.dfy` | `MysqlService` | worker threads and queued operations of the MySQL service |
| `object_to_tuple.dfy` | `ObjectToTuple` | translation of Lua tables to tuples |

Asynchronous operations are steps of the environment: a run is an arbitrary list of events, events
that cannot happen in a state are passed over, and a lemma over all runs holds for every interleaving.
What a user's handler does is part of the event or of the request. Randomness, clocks, sockets and
foreign libraries do not appear; luabind's conversion is a function parameter of the translation.

## Results where the code and its documentation part

- `encode` passes a `size_t` to `addPrefix`, which would store eight bytes where two are left and two
  are read back; the model stores the two bytes that the size of the reserve and the receiver provide for.
- `addPrefix` asserts `prefixPos - sizeof(T) >= 0` on an unsigned difference, which always holds; that the
  prefix fits is therefore a demand on the caller, and `ReplayRefines` says for which calls it is met.
  After header and checksum an outer length fits exactly when it takes two bytes at most (`OuterPrefixFits`).
- `parseHeaderAndGetBodyBuffer` accepts bodies of up to 15340 bytes, but `setRemainingSize` asserts that
  the end of the message, header included, is at most 15340. Frames with payloads of 15326 to 15333 bytes
  pass the size check and then hit the assertion (`FrameRoundTrip`).
- The smallest body is said to be 8, one checksum and one cipher block; it is 12.
- `movePos` adds unsigned numbers: a distance close to 2^32 moves the cursor backward without a
  throw (`MovedExactly`).
- `setRemainingSize` adds unsigned numbers as well: a length close to 2^32 passes its assertion and puts the end
  before the cursor (`RemainingExactly`). No caller passes more than 16 bits.
- `addString` cuts the stored length to 16 bits but stores every character. A string comes back whole exactly
  when it is shorter than 65536 (`TakeWire`); of one of 65539 letters three come back, and 65536 stay unread
  (`LongStringCut`). A `StandardInMessage` is too small to hold such a string; the message template is not.
- `Connection` reads every frame into one message and never resets its cursor. A frame is handed to the protocol at
  the first byte of its body exactly when the cursor was at the front and the length is one a body can have
  (`HandedOverIff`); in every run that is the first frame and no other (`OnlyFirstHandedOver`). Later the
  length is taken from what the last handler left unread: as many bytes are read as announced exactly when
  those bytes hold an accepted length that ends where the header says (`LaterHeaderIff`). Even then the
  checksum is looked for too far on: `WholeFrameRefused` is a frame that is read whole and refused, and that a
  new message accepts. After a handler that has read its message to the end, or but for one byte, every next
  header throws and the connection is dropped (`SecondFrameThrows`). The results about the read loop and the
  round trip are about a cursor that starts anew at every frame.
- Swapping two unequal bytes at a distance that is a multiple of 65521 leaves the checksum unchanged
  (`SwapDetected`). No received message is that long, so the receiver notices every swap (`SwapThrows`).
- `connect` promises to call the handler after attempting every connection; for an empty pool it is
  never called (`EmptyPoolNeverReports`).
- `connect` erases a failed connection through a reference into the deque that it erases from, and erasing
  elsewhere than at an end invalidates the references that later failures search with. As written it is
  sure to do what it promises exactly in the completion orders in which every connection that fails, except the last to
  fail, is then first or last in the pool (`AsWrittenMeetsIff`); with three connections of which the middle
  one fails first, a second failure searches with a stale reference (`MiddleFailsFirst`).
- `sendAndStop` is said to stop the connection when finished. It does exactly when nothing was queued before it or
  the message being written was itself sent by `sendAndStop`, which then stops the connection earlier
  (`SendAndStopStopsIff`). Behind a plain message its continuation is dropped; `SendAndStopForgotten` is
  a run in which both are written and the connection stays up.
- `IntervalTask` is said to run until cancelled; an expiry that is already queued when `cancel` comes still
  runs the body with success and re-arms the timer (`CancelStopsIffNoSuccessQueued`).
- The MySQL service is said to have as many threads as connections at all times; the thread of a destroyed
  connection stays until it has run one more operation (`NotAlwaysEqual`). The numbers are equal exactly when
  every connection's thread has come to its loop test since the connection was destroyed (`EqualNumbersIff`).
- A row that is no table is reported under the path of its last key, the same path as that key's value in
  it (`RowSharesPath`). In one table the two cannot both miss the shape: with distinct keys at every level, two
  offending values have the same path exactly when they are the same (`PathTellsOffender`). What is printed
  tells paths apart, as long as keys hold no dot and no opening bracket (`RenderingTells`).

## Model

| member | source | states |
|---|---|---|
| Bytes.NumberOfOctets | otservpp/message/basicoutmessage.hpp:146-153 | a stored number is read back modulo 256 to the stored width |
| Bytes.OctetAt | otservpp/message/basicoutmessage.hpp:146-153 | a stored number's byte i is its digit of weight 256^i: the least significant comes first |
| Bytes.OctetsOfNumber | otservpp/message/basicinmessage.hpp:99-111 | reading bytes as a number loses nothing |
| Adler32.Compute | otservpp/crypto.cpp:34-76 | the blocked, unrolled, deferred loop returns s2 * 65536 + s1 of RFC 1950 for every non-empty buffer, and 1 for a negative length |
| Adler32.Block | otservpp/crypto.cpp:45-69 | after a block both sums are congruent to s1 and s2 and below their worst-case bounds, within 32 bits all along |
| Adler32.Absorb | otservpp/crypto.cpp:46-46 | one byte keeps the sums congruent and bounded, with no wrap-around |
| Adler32.WorstClosedForm | otservpp/crypto.cpp:42-48 | the worst case of the second sum is 255n(n+1)/2 + (n+1)65520 |
| Adler32.BlockLengthIsLargest | otservpp/crypto.cpp:42-42 | a block length is safe for all bytes and reduced sums exactly when it is at most 5552 |
| Adler32.ClosedForms | otservpp/crypto.cpp:34-76 | both checksum halves as plain and weighted sums, modulo 65521 |
| Adler32.ModulusIsPrime | otservpp/crypto.cpp:71-72 | 65521 has no divisor between 2 and itself |
| Adler32.PrimeFactor | otservpp/crypto.cpp:71-72 | the modulus divides a multiple by a byte-sized factor only by dividing the other factor |
| Adler32.OneByteChangeDetected | otservpp/crypto.cpp:34-76 | replacing one byte keeps the checksum exactly when the byte is the same |
| Adler32.SwapDetected | otservpp/crypto.cpp:34-76 | swapping two bytes keeps the checksum exactly when they are equal or their distance is a multiple of 65521 |
| MachineWords.AddAndTakeAway | otservpp/crypto.cpp:97-99 | wrapping subtraction and addition of the same word undo each other |
| MachineWords.PartsAssembled | otservpp/crypto.cpp:116-128 | the bytes of a word and the word of four bytes determine each other |
| XteaCipher.MixTellsKeys | otservpp/crypto.cpp:122-124 | whatever else goes into a half round, its result is another for every other key word |
| XteaCipher.RoundTellsKeys | otservpp/crypto.cpp:122-124 | two keys do the same to a block in a round exactly when they agree on the words that `sum & 3` and, one delta on, `sum >> 11 & 3` select |
| XteaKnownAnswer.KnownAnswer | otservpp/crypto.cpp:108-131 | the words 41424344 45464748 in memory become 497df3d0 72612cb5 under the key 00010203 04050607 08090a0b 0c0d0e0f |
| XteaCipher.Encrypt | otservpp/crypto.cpp:108-131 | the in-place loop applies the block cipher to each group of the region and changes nothing else |
| XteaCipher.Decrypt | otservpp/crypto.cpp:82-106 | the same for decryption |
| XteaCipher.EncryptRound | otservpp/crypto.cpp:122-124 | one pass of the inner loop is the numbered round and advances the schedule |
| XteaCipher.DecryptRound | otservpp/crypto.cpp:97-99 | one pass of the inner loop undoes the numbered round and steps the schedule back |
| XteaCipher.EncryptRounds | otservpp/crypto.cpp:118-125 | rounds 0 to 31 in that order |
| XteaCipher.DecryptRounds | otservpp/crypto.cpp:92-100 | rounds 31 down to 0 undone, starting at delta << 5 |
| XteaCipher.ScheduleTop | otservpp/crypto.cpp:93-93 | delta << 5 is the schedule's value after 32 rounds |
| XteaCipher.RoundsInvert | otservpp/crypto.cpp:97-99 | a round of decryption undoes the round of encryption of the same number, and the other way round |
| XteaCipher.ForwardBackward | otservpp/crypto.cpp:95-100 | steps that undo each other do so over any number of them taken in reverse |
| XteaCipher.PutsMap | otservpp/crypto.cpp:115-130 | rewriting the groups one after the other in place maps the whole region and leaves the rest |
| XteaCipher.CipherInverts | otservpp/crypto.cpp:82-131 | for every key and buffer of whole groups, decryption undoes encryption and encryption undoes decryption |
| OutMessages.OutMessage.constructor | otservpp/message/basicoutmessage.hpp:17-22 | a new message has the reserve and nothing visible |
| OutMessages.OutMessage.AddPrefix | otservpp/message/basicoutmessage.hpp:38-44 | a prefix goes in front of the visible bytes, into the reserve |
| OutMessages.OutMessage.AddNumber | otservpp/message/basicoutmessage.hpp:146-153 | the number's octets go to the end |
| OutMessages.OutMessage.AddString | otservpp/message/basicoutmessage.hpp:155-161 | a 16-bit length, then all the characters |
| OutMessages.OutMessage.AddRaw | otservpp/message/basicoutmessage.hpp:96-99 | the bytes go to the end |
| OutMessages.OutMessage.AddPadding | otservpp/message/basicoutmessage.hpp:175-178 | that many equal bytes go to the end |
| OutMessages.OutMessage.GetSize | otservpp/message/basicoutmessage.hpp:32-36 | the number of visible bytes |
| OutMessages.ReplayRefines | otservpp/message/basicoutmessage.hpp:27-44 | any interleaving of prefixes and additions makes visible the prefixes in reverse order, the old bytes and the additions in order, exactly as long as the prefixes fit the reserve |
| OutMessages.OuterPrefixFits | otservpp/message/standardoutmessage.cpp:17-21 | after a header of two bytes and a checksum of four, an outer length fits the reserve exactly when it takes at most two bytes, and then uses it up; a `size_t` does not fit |
| OutMessages.OutMessage.AddHeader | otservpp/message/standardoutmessage.cpp:6-9 | the payload's 16-bit length is put in front |
| OutMessages.OutMessage.XteaEncrypt | otservpp/message/standardoutmessage.cpp:11-15 | the visible bytes become their padded encryption |
| OutMessages.OutMessage.Encode | otservpp/message/standardoutmessage.cpp:17-21 | checksum and a two-byte length are put in front |
| OutMessages.OutMessage.Seal | otservpp/protocol/standardprotocol.hpp:74-79 | header, encryption and encoding use up the reserve exactly and leave the payload's frame in the buffer |
| InMessages.InMessage.constructor | otservpp/message/basicinmessage.hpp:20-23 | for any body size the cursor starts at 0 and the size at the header's |
| InMessages.InMessage.GetRemainingSize | otservpp/message/basicinmessage.hpp:45-49 | the number of unread bytes |
| InMessages.InMessage.MovePos | otservpp/message/basicinmessage.hpp:113-117 | the cursor moves in 32-bit arithmetic or the call throws |
| InMessages.MovedExactly | otservpp/message/basicinmessage.hpp:113-117 | a move succeeds exactly when the bytes are there, or when it wraps around; then what it skips is what was next |
| InMessages.InMessage.GetRawChunk | otservpp/message/basicinmessage.hpp:106-111 | for every 32-bit length a pointer to where the cursor was, the cursor moved, or a throw |
| InMessages.InMessage.GetStrChunk | otservpp/message/basicinmessage.hpp:83-86 | the next bytes, consumed, or a throw |
| InMessages.InMessage.GetNumber | otservpp/message/basicinmessage.hpp:99-104 | the number stored in the next bytes, or a throw |
| InMessages.NumberRead | otservpp/message/basicinmessage.hpp:99-111 | a number stored in the next bytes is read back and its bytes are consumed |
| InMessages.InMessage.GetString | otservpp/message/standarinmessage.cpp:21-24 | as many characters as the 16-bit length says, or a throw |
| InMessages.InMessage.SetRemainingSize | otservpp/message/basicinmessage.hpp:129-133 | the end moves in 32-bit arithmetic, or the assertion fails |
| InMessages.HeaderParsedIff | otservpp/message/standarinmessage.cpp:9-19 | wherever the cursor is, exactly when a header is accepted and what it sets |
| InMessages.CheckedExactly | otservpp/message/standarinmessage.cpp:26-33 | wherever the cursor is, the checksum is accepted exactly when it is there and right, and the assertion fails exactly when nothing follows it |
| InMessages.DecryptedIff | otservpp/message/standarinmessage.cpp:40-50 | for every key and message, decryption throws exactly when the rest is empty or no whole number of groups, and succeeds exactly when the inner length ends in bounds; the resulting cursor |
| InMessages.HandledIff | otservpp/protocol/standardprotocol.hpp:34-39 | onMessage is called exactly when the rest is the checksum of what follows, and that whole groups with an inner length in bounds |
| InMessages.InMessage.ParseHeader | otservpp/message/standarinmessage.cpp:9-19 | reads the body size; throws, fails the assertion or sets the end |
| InMessages.InMessage.DoChecksum | otservpp/message/standarinmessage.cpp:26-33 | throws unless the stored number is the Adler-32 checksum of the rest |
| InMessages.InMessage.XteaDecrypt | otservpp/message/standarinmessage.cpp:40-50 | throws unless the rest is whole groups; else deciphers it in place and cuts it to the inner length |
| InMessages.InMessage.HandleMessage | otservpp/protocol/standardprotocol.hpp:34-43 | checksum, then decryption |
| StandardProtocol.SizeLimits | otservpp/message/standarinmessage.cpp:13-15 | the smallest body is 12, and which payloads meet each of the two size limits |
| StandardProtocol.HeaderRead | otservpp/message/standarinmessage.cpp:9-19 | for every encoded body size below 2^16 which of the three outcomes the header has |
| StandardProtocol.ChecksumAccepted | otservpp/message/standarinmessage.cpp:26-33 | an encoded frame passes the checksum |
| StandardProtocol.PayloadRecovered | otservpp/message/standarinmessage.cpp:40-50 | decrypting an enciphered payload leaves exactly the payload, its padding stripped |
| StandardProtocol.PaddingLeft | otservpp/message/standardoutmessage.cpp:11-15 | deciphering gives back the message followed by one to eight bytes of value 0x33, up to a whole group |
| StandardProtocol.FrameRoundTrip | otservpp/protocol/standardprotocol.hpp:34-39 | with the cursor anew, for every key, payload and earlier buffer contents the receiver gets exactly the payload, exactly when it is at most 15325 bytes; exactly which longer ones throw and which fail the assertion |
| StandardProtocol.OneByteChangeThrows | otservpp/message/standarinmessage.cpp:26-33 | in any accepted frame any other value of any byte from the checksum on makes doChecksum throw |
| StandardProtocol.SwapThrows | otservpp/message/standarinmessage.cpp:26-33 | in any accepted frame swapping two checksummed bytes throws exactly when they differ |
| ReusedMessages.HandedOverIff | otservpp/protocol/connection.hpp:241-245 | wherever the cursor is, a frame is handed over as announced and at its first byte exactly when the cursor is at the front and the header announces 8 to 15338 bytes |
| ReusedMessages.LaterHeaderIff | otservpp/protocol/connection.hpp:241-245 | past the front, exactly when a header is accepted and when as many bytes are read as it announces: by the unread bytes at the cursor; the cursor then stands behind them |
| ReusedMessages.OnlyFirstHandedOver | otservpp/protocol/connection.hpp:233-266 | in every run of accepted frames from a new message, whatever the handlers read, the first frame is handed over and no other; every later one at least two bytes into its body |
| ReusedMessages.WholeFrameRefused | otservpp/message/standarinmessage.cpp:26-33 | a later frame that is read whole and refused by the checksum, while a new message accepts it |
| ReusedMessages.SecondFrameThrows | otservpp/protocol/connection.hpp:233-266 | after any first frame that was checked and read to the end, or but for one byte, every next header throws |
| Fields.TakeWire | otservpp/message/basicinmessage.hpp:57-76 | in a message of any size, a field comes back unchanged exactly when its length fits its prefix, and then consumes exactly its bytes |
| Fields.TakeText | otservpp/message/basicoutmessage.hpp:155-161 | a string of any length is read back up to its length modulo 2^16, and what is left unread |
| Fields.LongStringCut | otservpp/message/basicoutmessage.hpp:155-161 | a string of 65539 letters comes back as three, with 65536 bytes unread |
| Fields.FieldsRoundTrip | otservpp/message/basicinmessage.hpp:57-117 | any list of fields that fit is returned unchanged, exactly its bytes are consumed, and nothing throws |
| Fields.StrictPrefixThrows | otservpp/message/basicinmessage.hpp:113-117 | the same getters on any strict prefix of the bytes throw PacketException |
| Fields.AddAll | otservpp/message/basicoutmessage.hpp:46-79 | adding fields one by one appends their wire form |
| Fields.GetAll | otservpp/message/standarinmessage.cpp:21-24 | calling the getters one by one takes the fields one by one |
| ConnectionPools.ConnectionPool.constructor | otservpp/sql/connectionpool.cpp:5-10 | all connections are idle |
| ConnectionPools.ConnectionPool.GetConnection | otservpp/sql/connectionpool.h:94-107 | queues the request or serves it with the front connection, handler included |
| ConnectionPools.ConnectionPool.ReturnToPool | otservpp/sql/connectionpool.cpp:17-29 | stores the connection or serves the front request, handler included |
| ConnectionPools.ConnectionPool.DeletePointer | otservpp/sql/connectionpool.cpp:31-37 | dropping a pointer returns its connection |
| ConnectionPools.ConnectionPool.CallHandler | otservpp/sql/connectionpool.h:104-104 | a handler of finitely many nested actions gets a fresh lease and may request and drop pointers before it returns |
| ConnectionPools.KeepServe | otservpp/sql/connectionpool.h:101-104 | the invariant survives a handler call, whatever the handler and those it causes do |
| ConnectionPools.KeepReturn | otservpp/sql/connectionpool.cpp:17-29 | the invariant survives a return and all it causes |
| ConnectionPools.EveryRunIsSound | otservpp/sql/connectionpool.h:94-107 | after every run and at every handler call in it: idle, leased and travelling connections partition the fixed set, none is idle while a request waits, and both queues are in order |
| ConnectionPools.NoConnectionIsShared | otservpp/sql/connectionpool.h:27-37 | at any handler call or after any run no connection has two holders, and no held one is idle or on its way |
| ConnectionPools.GetPlaces | otservpp/sql/connectionpool.h:94-107 | a request always arrives; it is the next to be called, with the front idle connection, or the last to wait |
| ConnectionPools.DropHandsOn | otservpp/sql/connectionpool.cpp:17-37 | a pointer dropped by a handler is gone, and its connection serves the first waiting request at once or goes to the back of the idle ones |
| ConnectionPools.LetGoHandsOn | otservpp/sql/connectionpool.cpp:17-37 | the same for a pointer destroyed elsewhere, once its return reaches the strand |
| ConnectionPools.BothQueuesAreFair | otservpp/sql/connectionpool.h:139-144 | in every run each request from outside or from a called handler is served or waits, once; those from outside alone are served in their order; connections that left followed by idle ones are those that entered |
| ConnectionPools.DrainServesEveryone | otservpp/sql/connectionpool.cpp:17-37 | when the waiting handlers drop at once, one return serves each of them once, in order, with that connection, and leaves it last in the pool |
| PoolConnect.ConnectControl.OnCompletion | otservpp/sql/connectionpool.h:67-78 | one completion erases a failed connection, keeps the first error, and reports when no attempt is left |
| PoolConnect.ConnectReports | otservpp/sql/connectionpool.h:62-80 | after any completions so far: the pool, the first error, the outstanding attempts and the reports |
| PoolConnect.ConnectIsReportedOnce | otservpp/sql/connectionpool.h:38-53 | for every pool and completion order: no report before the last completion, one then, with the first error and the number of survivors; no error exactly when all are up; the pool is exactly those that succeeded |
| PoolConnect.AsWrittenMeetsIff | otservpp/sql/connectionpool.h:65-79 | with the references of the source, no search is stale exactly in the completion orders in which every failure but the last happens at an end of the pool; then connect reports and leaves the pool as promised |
| PoolConnect.MiddleFailsFirst | otservpp/sql/connectionpool.h:67-70 | with three connections, a failure of the middle one and then another is no such order |
| PoolConnect.EmptyPoolNeverReports | otservpp/sql/connectionpool.h:62-80 | with no connection the handler is never called |
| Connections.Connection.TrySendOrEnqueueThen | otservpp/protocol/connection.hpp:335-350 | refused when closed for writing; else queued, and sent when nothing was queued |
| Connections.Connection.SendFront | otservpp/protocol/connection.hpp:352-384 | encodes the front message and starts its write, or aborts |
| Connections.Connection.OnWriteCompleted | otservpp/protocol/connection.hpp:370-383 | pops and continues, ignores a cancelled write, or aborts |
| Connections.Connection.KeepSending | otservpp/protocol/connection.hpp:386-392 | sends the front message if there is one |
| Connections.Connection.OnReadCompleted | otservpp/protocol/connection.hpp:241-285 | asks for the body, dispatches and goes on, returns when closed, or aborts |
| Connections.Connection.Stop | otservpp/protocol/connection.hpp:124-135 | closes both directions and the socket |
| Connections.Connection.Abort | otservpp/protocol/connection.hpp:329-333 | tells the protocol and stops |
| Connections.HeaderParsedLength | otservpp/message/standarinmessage.cpp:9-19 | the body length that the read loop uses is what header parsing finds in a fresh message |
| Connections.SendPathIsSound | otservpp/protocol/connection.hpp:335-392 | every event keeps the send path's invariant, handlers' own sends included |
| Connections.MessagesGoOutOnceInOrder | otservpp/protocol/connection.hpp:335-392 | in every run: written then queued messages are the accepted ones in order, none is encoded twice, at most one write is in flight and it is the front's, and a non-empty queue on an open connection always has one |
| Connections.SendAndStopStopsIff | otservpp/protocol/connection.hpp:192-198 | over all runs, the connection is stopped by the time the message is written exactly when nothing was queued before it or the message being written was itself sent to stop |
| Connections.SendAndStopForgotten | otservpp/protocol/connection.hpp:192-198 | a run that writes a queued sendAndStop message and leaves the connection open |
| Connections.SendAndStopIsLast | otservpp/protocol/connection.hpp:192-198 | a sendAndStop accepted on an empty queue is the last message written, and the connection is stopped when it is written, whatever follows |
| Connections.AcceptedAreOffered | otservpp/protocol/connection.hpp:335-350 | in every run the accepted messages are those that other code and handlers send while the connection is not closed for writing, in order |
| Connections.HalfStops | otservpp/protocol/connection.hpp:137-148 | stopSending ends accepting and stopReceiving ends dispatching for good, each leaving the other direction and the socket alone |
| Connections.AbortsExactly | otservpp/protocol/connection.hpp:321-333 | the protocol is told once per failed read or write, timeout, impossible header, encode that throws or handler that throws, and by nothing else; the connection closes by these and by stops only, and then both ways |
| Connections.LostAreAborts | otservpp/protocol/connection.hpp:329-333 | the same, counted over every run |
| Connections.FailureIsFinal | otservpp/protocol/connection.hpp:233-286 | in every run a failing event, a throwing handler among them, closes the connection for good: whatever follows nothing is dispatched and, once started, nothing more is read |
| Connections.FramesOfFlat | otservpp/protocol/connection.hpp:233-266 | whole frames followed by anything are split at their boundaries |
| Connections.ReadLoopIsSound | otservpp/protocol/connection.hpp:233-286 | with the cursor anew at every frame, every event keeps: at most one read, one as long as the connection receives, and every byte read belongs to the frame that is due |
| Connections.DispatchesFollowTheWire | otservpp/protocol/connection.hpp:229-266 | in every run of the loop with the cursor anew at every frame the dispatched frames are the first complete frames read, in wire order, all of them while receiving, and only the first goes to handleFirstMessage |
| Connections.NothingDispatchedAfterStop | otservpp/protocol/connection.hpp:268-286 | once closed for reading nothing is dispatched any more |
| Scheduler.TimerTask.Cancel | otservpp/scheduler.hpp:16-23 | the live wait is queued as aborted, and the result says whether there was one |
| Scheduler.TimerTask.Schedule | otservpp/scheduler.hpp:35-57 | the live wait is aborted and a new one registered |
| Scheduler.TimerTask.Restart | otservpp/scheduler.hpp:143-160 | start and reschedule, with the interval they set |
| Scheduler.TimerTask.Deliver | otservpp/scheduler.hpp:117-127 | an interval task re-arms unless aborted, and the function runs with the code |
| Scheduler.EveryRunIsSound | otservpp/scheduler.hpp:20-57 | over every interleaving: at most one live wait, and the issued waits are the live, queued and delivered ones, each once |
| Scheduler.Balance | otservpp/scheduler.hpp:35-57 | as many waits were issued as are live, queued and delivered together |
| Scheduler.IssuedExactly | otservpp/scheduler.hpp:83-89 | in every run a deferred task waits once per start, and an interval task once more per success it was delivered |
| Scheduler.DeferredRunsAtMostOncePerStart | otservpp/scheduler.hpp:62-70 | in every run a deferred task runs with success at most once per start |
| Scheduler.DeferredRunsOnce | otservpp/scheduler.hpp:62-70 | once its one expiry is delivered a deferred task runs no more until it is started again |
| Scheduler.IntervalIsUsed | otservpp/scheduler.hpp:143-160 | from a start or reschedule on, the timer is armed with its interval and no other |
| Scheduler.DeliveredAtMostOnce | otservpp/scheduler.hpp:39-52 | no wait is delivered twice, and the function ran once per delivery with its code |
| Scheduler.CancelAbortsLive | otservpp/scheduler.hpp:16-23 | cancel returns true exactly when it aborts the live wait |
| Scheduler.QuietStaysQuiet | otservpp/scheduler.hpp:118-160 | with nothing live and no success queued the function never runs with success until restarted |
| Scheduler.QueuedSuccessStillRuns | otservpp/scheduler.hpp:122-126 | an expiry queued before a cancel still runs the function with success |
| Scheduler.CancelStopsIffNoSuccessQueued | otservpp/scheduler.hpp:100-106 | cancel stops all later successful runs exactly when no expiry was queued |
| Scheduler.StartedIntervalGoesOn | otservpp/scheduler.hpp:137-160 | from any sound state a started interval task that nobody cancels always has a live wait or a queued success, reschedules and races included |
| Scheduler.NextSuccess | otservpp/scheduler.hpp:100-106 | and then the timer and the io_service alone bring its next successful run |
| Scheduler.WrapperCalls | otservpp/scheduler.hpp:287-293 | over any codes the wrapper throws exactly at the first that is neither success nor aborted, and calls the plain function once per success before it |
| MysqlService.Service.constructor | otservpp/sql/mysqlservice.cpp:9-15 | no connection, no thread, the first id is 1 |
| MysqlService.Service.Construct | otservpp/sql/mysqlservice.cpp:38-69 | a fresh id, and a thread of its own in the group |
| MysqlService.Service.RunOne | otservpp/sql/mysqlservice.cpp:53-54 | takes the front operation, or leaves the loop when the service is stopped |
| MysqlService.Service.TestLoop | otservpp/sql/mysqlservice.cpp:55-58 | goes on exactly while the connection exists; else the thread ends and leaves the group |
| MysqlService.Service.ShutdownService | otservpp/sql/mysqlservice.cpp:27-31 | stops the io_service, keeping the invariant |
| MysqlService.EveryRunIsSound | otservpp/sql/mysqlservice.cpp:38-69 | every connection has its own thread in the group, queued and executing operations belong to distinct existing connections |
| MysqlService.ThreadsCoverConnections | otservpp/sql/mysqlservice.h:68-75 | until shutdown threads are connections plus orphans |
| MysqlService.OrphansAreUnended | otservpp/sql/mysqlservice.cpp:53-58 | a thread is an orphan exactly when its connection was destroyed and it has not come to its loop test since |
| MysqlService.EqualNumbersIff | otservpp/sql/mysqlservice.h:68-75 | until shutdown there are as many threads as connections exactly when every destruction was followed by the loop test of that connection's thread |
| MysqlService.NotAlwaysEqual | otservpp/sql/mysqlservice.h:68-75 | after one construct and destroy there is a thread and no connection |
| MysqlService.OrphanWaits | otservpp/sql/mysqlservice.cpp:53-58 | a destroyed connection's waiting thread stays as long as it gets no operation |
| MysqlService.OrphanTakesNoMore | otservpp/sql/mysqlservice.cpp:53-58 | once it has taken one it never waits for another |
| MysqlService.ThreadsCycle | otservpp/sql/mysqlservice.cpp:53-55 | in every run a thread comes to its loop test only after an operation that it took and completed |
| MysqlService.OperationsInOrder | otservpp/sql/mysqlservice.cpp:53-54 | in every run the operations that threads execute and those still queued are the posted ones, once each and in order |
| MysqlService.ShutdownIsFinal | otservpp/sql/mysqlservice.cpp:27-31 | after shutdown no operation starts, and every waiting thread can leave without leaving the group |
| MysqlService.AvailableCoverQueue | otservpp/sql/mysqlservice.cpp:53-55 | threads of existing connections that execute nothing are at least the queued operations |
| MysqlService.IdleCoverQueue | otservpp/sql/mysqlservice.cpp:53-55 | in every run idle threads are at least queued operations whenever no thread is at its loop test |
| MysqlService.NoneWaitsBehindAnother | otservpp/sql/mysqlservice.h:68-75 | from every sound state all queued operations can start although none that executes completes |
| ObjectToTuple.Translate | otservpp/script/hook/object2tuple.hpp:37-47 | expects a table and fills the tuple, or reports the key path |
| ObjectToTuple.Fill | otservpp/script/hook/object2tuple.hpp:124-138 | the items from a position down to the first are put in place, the later ones kept, or the first failure is reported |
| ObjectToTuple.Put | otservpp/script/hook/object2tuple.hpp:140-150 | one item is put and no other touched, or its key path is reported |
| ObjectToTuple.PutTuples | otservpp/script/hook/object2tuple.hpp:171-190 | one tuple per entry, in order, or the path of the first that fails |
| ObjectToTuple.TranslatesExactly | otservpp/script/hook/object2tuple.hpp:20-36 | translation succeeds with given items exactly on the tables of the shape that hold them |
| ObjectToTuple.TranslationInvertsLayout | otservpp/script/hook/object2tuple.hpp:20-36 | with distinct keys at every level, translating a laid out result gives the result |
| ObjectToTuple.FailureNamesFirstOffender | otservpp/script/hook/object2tuple.hpp:78-131 | a failure carries the key path of the first value that misses the shape, last key to first and rows in order; success means there is none |
| ObjectToTuple.PathNamesSpot | otservpp/script/hook/object2tuple.hpp:78-131 | the key path of a value consists of exactly the keys of the fields and the numbers of the rows that lead to it |
| ObjectToTuple.RowSharesPath | otservpp/script/hook/object2tuple.hpp:184-187 | a row that is no table has the path of the value under its last key |
| ObjectToTuple.PathTellsOffender | otservpp/script/hook/object2tuple.hpp:78-131 | in one table with distinct keys at every level, two offending values have the same key path exactly when they are the same |
| ObjectToTuple.RenderingTells | otservpp/script/hook/object2tuple.hpp:78-122 | different paths of keys without dot and opening bracket are printed differently |
| ObjectToTuple.OneIsEarlier | otservpp/script/hook/object2tuple.hpp:124-138 | that order is total, so the first offender is one value |

## Left out

- Sockets, io_service threads, acceptors and service registration: completions are environment steps.
- RSA and OpenSSL (`otservpp/crypto.cpp:134-164`) and the key fields of login messages: foreign calls with no visible algorithm.
- MySQL calls, statement binding and the bundled amy library: wrappers over a library that cannot be seen.
- Lua adapters, hook dispatch, logging and exception plumbing; a Lua value is a datatype whose tables list their entries in iteration order, which is the order luabind's iterator yields, and error texts other than the key path are not modelled.
- The overload of `put` for plain vectors (`otservpp/script/hook/object2tuple.hpp:152-169`), whose catch does not rethrow.
- Login protocol bodies, account I/O, the world map, disabled query classes and `executeQuery`: stubs or unfinished.
- Switching protocols by taking over a connection (`otservpp/protocol/connection.hpp:86-106`), object lifetimes of captured pointers, and the use of the protocol pointer after `stop` has reset it.
- `float` and `double` fields, alignment, big-endian hosts and lambda utilities.
- The capacity of the outgoing vector and its growth policy: a growing vector is a freshly allocated array of the new size.
- The state of the cursor after a PacketException: the connection drops the message, so a throw is final.
- Reuse of one incoming message for several frames in the read loop's runs: `Connection` never resets the cursor, and `Connections` starts every frame from a fresh cursor as the constructor sets it; `ReusedMessages` says what the code does instead.
- Unencrypted sending and the first message's handler beyond its checksum.
- Copies of pool pointers and exceptions thrown by a pool's handlers.
- StandardProtocol.FrameRoundTrip: is about a fresh cursor, which the source has for the first frame only; bodies of 65536 bytes and more are outside it, because their length does not fit the prefix; the repository means messages to have at most 20000 (`otservpp/message/standardoutmessage.h:12`).
- Adler32.Compute: the source's `uint_fast32_t` may be wider than 32 bits; the proof is for exactly 32, which is the tightest case.
- OutMessages.OutMessage.AddPrefix: the fit that its assertion was meant to check is a demand on the caller.
- OutMessages.OutMessage.Encode: stores a two-byte length, where the source passes a `size_t` that the reserve cannot take.
- OutMessages.OutMessage.Seal: rests on the two-byte length, too; buffers of 2^30 bytes and more, where the cast of the size to 32 bits signed could wrap, are outside it.
- InMessages.InMessage.MovePos: distances are 32-bit, as the type of the parameter says; buffers within 65536 bytes of 2^32 are left out.
- InMessages.InMessage.GetStrChunk: lengths that wrap, for which the source would read outside the buffer, are left out; the getters pass 16 bits at most.
- ConnectionPools.ConnectionPool.CallHandler: handlers are finite trees of actions; a handler that drops its pointer and requests itself again recurses forever in the source.
- PoolConnect.ConnectControl.OnCompletion: the failed connection is erased by its identity, where the source searches with a reference into the deque it erases from; `control.unique()` is that no attempt is outstanding.
- PoolConnect.ConnectIsReportedOnce: rests on erasing by identity as well; `AsWrittenMeetsIff` says for which orders the source agrees, and what a stale reference finds is not modelled.
- Connections.ReadLoopIsSound: is about the loop with a fresh cursor at every frame.
- Connections.DispatchesFollowTheWire: is about that loop, too.
- Connections.Connection.OnReadCompleted: the cursor is fresh at every frame; a header that announces 15339 or 15340 bytes is treated as invalid, where the source fails an assertion; a success brings exactly the bytes asked for.
- Connections.SendPathIsSound: a timeout may come at any moment, which allows more runs than the timers do; that `stop` and `send` run on the strand is an atomic step.
- Connections.Connection.Stop: `isStopped` is not modelled; it is true as soon as either direction is closed.
- Scheduler.TimerTask.Deliver: a wait ends with success or operation_aborted; other errors of the io_service are not modelled, and what the bound function does to the task follows its call as later events.
- MysqlService.EveryRunIsSound: that a connection has one outstanding operation at most and is destroyed without any is a condition on its users; ids are unbounded, and an exception inside an operation ends the program in the source.
- ObjectToTuple.Fill: the position is a parameter where the source recurses over templates, and tuples of keys are not empty.
