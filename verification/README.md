# Verified models of evmrelay

Dafny 4.11 models of the parts of evmrelay that carry its correctness, and proofs about them. Each module follows one component of the program; a component whose methods update fields is a class here, and its methods are tied to functions on values about which the run-wide properties are proved.

| component | modules |
|---|---|
| multi-word integers: carries, products, reciprocals, division, modular arithmetic | `Words`, `Limbs`, `Reciprocal`, `DivWords`, `Normalize`, `Division`, `Knuth`, `WideDivision` |
| discv5 packet codec and WHOAREYOU handshake | `PacketCodec`, `Discv5Crypto`, `Handshake`, `HandshakeRuns`, `HandshakeTalk` |
| discv4 endpoint proof and ENR requests | `Bonding`, `BondingRuns` |
| dial scheduler, shared pool, dial history | `Scheduler`, `SchedulerPool`, `SchedulerOffers`, `SchedulerObjects` |
| peer producer and the order of cached peers | `PeerQueue`, `PeerQueueRuns`, `CachedPeers` |
| block tracker, event filter, watch service, claim verification | `ChainTracker`, `EventWatch`, `WatchService`, `WatchAnswers`, `WatchObjects`, `BridgeEvent` |
| canonical formats and the ENR tree | `Bytes`, `ClaimCodec`, `Base64Url`, `EnrText`, `EnrTree` |

How the models are set up:

- Machine words are `int` ranges and every wrap-around, truncation and shift is written out; limbs are little-endian sequences of 64-bit words. The bit operations the code uses are recursive functions on numbers.
- Coroutines are steps between two suspension points, in any order. A spawned coroutine begins in a later step. Time is a sequence of clock readings that never goes back; an operation reads it as often as the code does.
- Cryptography, DNS lookup, RLP bodies and record parsing are function-valued arguments. Byte arrays of fixed size are types.
- The handshake proofs take this for granted of the foreign functions: both sides of a key agreement get the same secret; decryption undoes encryption; a node's record is at most 300 bytes and names the node. What depends on no collision is asked only of what the run itself uses, its scope: among the identity messages signed and checked in the run, a client's signature verifies for exactly the one it was made over; among the nodes asked, no other has a client's address; and a packet delivered in the run with another address's mask has another keystream within the first six bytes. Every run has such a finite scope (`HandshakeRuns.RunHasScope`). Sizes are the program's: 64-byte signatures, and any other size is refused, as are keys that are not 33 bytes and ciphertexts too short for their tag.
- The identity proof is signed over the code's own concatenation, and what it binds is derived (`Discv5Crypto.SignatureBinds`). `HandshakeRuns.SoundExists` exhibits functions of these sizes that meet all of the laws, and `HandshakeRuns.SoundRunExists` a run under them that ends in an accepted handshake.
- Random nonces and challenges do not repeat.
- The network of the handshake model is the set of all packets ever sent, so that loss, repetition and reordering are all allowed. A client gets a packet's masked bytes and the endpoint they came from; everything else it reads from the bytes.
- Counters that the code keeps in 64 bits are unbounded here; 32-bit log indices and subscription ids wrap.

Where the code and its comments differ the model follows the code: a block at height 0 is accepted but never becomes the tip, so `tip_hash` can be empty after blocks were seen; the packet decoder accepts later protocol versions, which the encoder never writes.

Findings worth knowing:

- Overlapping pings to one endpoint: the first to time out erases the second's pending entry, and the second's PONG is dropped (`Bonding.OverlapDropsReply`). Safety is unaffected. A ping keeps its entry exactly as long as no stop, no later ping to the endpoint and no end of a ping to it has come (`Bonding.OwnsWhileUndisturbed`), and its wait ends in a bond exactly when the last PONG to reach it by then had a non-zero expiration (`Bonding.WakeBonds`).
- A chain may keep a peer queued while it has a free slot exactly when the pool is too small for all chains' slots together (`SchedulerPool.RoomyRunsNeverIdle`, `SchedulerPool.CrampedRunIdles`).
- A dial that connects after the scheduler was stopped is counted and told nothing by that stop (`SchedulerPool.LateConnectionStays`). A connection's session is kept exactly until the chain's next stop after it, and is told to disconnect exactly when that stop finds it alive (`SchedulerPool.SessionFate`).
- Without listed log indices, `verify_receipt_log` reads a block-wide log index as a position in the receipt. A run delivers the log of a block's second receipt and the claim made from it is refused (`BridgeEvent.SecondReceiptRefused`); all claims of a receipt are backed exactly when the receipts before it have no logs (`BridgeEvent.UnlistedReceiptBackedIff`).
- A record that stands twice in one ENR tree counts twice against the record limit, so that a result below the limit can miss a published record (`EnrTree.ResolveRepeated` resolves such a tree). A walk is cut short exactly when the tree has more than 8192 labels or at least as many records, counted with repetition, as the limit (`EnrTree.FinishesIffFits`). If no tree repeats a record or has more than 8192 labels, a result below the limit misses nothing (`EnrTree.ShortResultIsExact`).
- The identity proof is hashed without lengths between its parts, and parts of other sizes can give the same bytes (`Discv5Crypto.IdMessageAmbiguous`); the sizes the clients use are fixed, and then they cannot (`Discv5Crypto.IdMessageInjective`).
- Auth data of 65536 bytes or more, and handshake signatures or keys of 256 bytes or more, do not survive encoding (`PacketCodec.DecodeInverse`, `PacketCodec.ParseInverse`).

## Model

| member | source | states |
|---|---|---|
| Words.AddWithCarry | include/rlp/intx.hpp:161-169 | x + y + carry is the word plus 2^64 times the carry out |
| Words.SubWithCarry | include/rlp/intx.hpp:197-207 | x - y - carry is the word less 2^64 times the borrow |
| Words.UMul | include/rlp/intx.hpp:398-429 | the 128-bit result is the exact product of two words, with no carry lost between the four half products |
| Words.BitAndLowMask | include/rlp/intx.hpp:400-412 | AND with k ones is the remainder modulo 2^k |
| Words.BitOrDisjoint | include/rlp/intx.hpp:412-426 | OR of a multiple of 2^k with a value below 2^k is their sum |
| Limbs.AddWords | include/rlp/intx.hpp:171-184 | the sum of two n-word values plus carry is the n words plus 2^(64n) times the carry out |
| Limbs.SubWords | include/rlp/intx.hpp:209-224 | the difference is the n words less 2^(64n) times the borrow |
| Limbs.UMulWords | include/rlp/intx.hpp:1447-1467 | the 2n words are the exact product of two n-word values |
| Limbs.MulWords | include/rlp/intx.hpp:1469-1487 | the n words are the product modulo 2^(64n) |
| Limbs.ValueInjective | include/rlp/intx.hpp:171-224 | equal values of equal length are the same words |
| Reciprocal.Reciprocal2By1 | include/rlp/intx.hpp:642-661 | the table start and four wrapping refinements give floor((2^128-1)/d) - 2^64 for every normalised d |
| Reciprocal.Stage3 | include/rlp/intx.hpp:655-657 | the error bound after the third refinement |
| Reciprocal.ReciprocalIsFloor | include/rlp/intx.hpp:642-661 | the two-sided bound determines the floor quotient |
| DivWords.Reciprocal3By2 | include/rlp/intx.hpp:663-692 | gives floor((2^192-1)/d) - 2^64 for every normalised two-word d |
| DivWords.AbsorbLow | include/rlp/intx.hpp:665-677 | the correction for the low word keeps the residual within one divisor |
| DivWords.AbsorbProduct | include/rlp/intx.hpp:679-691 | the correction for the product reaches the exact reciprocal |
| DivWords.UDivRem2By1 | include/rlp/intx.hpp:694-716 | exact quotient and remainder of two words by one, despite wrap-around |
| DivWords.UDivRem3By2 | include/rlp/intx.hpp:718-746 | exact quotient and remainder of three words by two, despite wrap-around |
| DivWords.Correct3By2 | include/rlp/intx.hpp:731-745 | the two corrections always end at the true quotient |
| Normalize.CountLeadingZeros | include/rlp/intx.hpp:503-517 | the halving loop finds the position of the highest set bit |
| Normalize.ShiftLeft | include/rlp/intx.hpp:1594-1612 | shifting word by word is multiplication by a power of two with the right carries |
| Normalize.SignificantWords | include/rlp/intx.hpp:1580-1590 | everything above the count is zero and the top counted word is not |
| Normalize.NormalizeArgs | include/rlp/intx.hpp:1569-1615 | numerator and divisor are scaled by one power of two, the divisor's top bit is set and the numerator's top part is below the divisor |
| Division.UDivRemBy1 | include/rlp/intx.hpp:1623-1639 | in place: old value = quotient * d + remainder, remainder below d |
| Division.UDivRemBy2 | include/rlp/intx.hpp:1647-1663 | in place: old value = quotient * d + remainder for a two-word d |
| Division.SubMul | include/rlp/intx.hpp:1678-1694 | in place: subtracts multiplier times y and returns the exact borrow word |
| Division.AddInPlace | include/rlp/intx.hpp:1667-1676 | in place: adds y and returns the exact carry |
| Knuth.OverflowStep | include/rlp/intx.hpp:1711-1717 | when the top two words equal the divisor's, the all-ones digit is right and the window holds the remainder |
| Knuth.EstimateStep | include/rlp/intx.hpp:1718-1734 | the estimated digit is right after at most one add-back |
| Knuth.AddBack | include/rlp/intx.hpp:1727-1733 | adding the divisor back once cancels the borrow |
| Knuth.UDivRemKnuth | include/rlp/intx.hpp:1696-1736 | in place: old value = quotient * d + remainder with remainder below d, for every length |
| WideDivision.UDivRem | include/rlp/intx.hpp:1740-1776 | u = q*v + r and r < v for every word count, every numerator and every non-zero divisor, through all three paths |
| WideDivision.ShiftRightWords | include/rlp/intx.hpp:1769-1775 | shifting the remainder back divides by the scaling power |
| WideDivision.ReduceOnce | include/rlp/intx.hpp:1989-1995 | one subtraction is enough when the top word is at most the modulus's |
| WideDivision.AddModFast | include/rlp/intx.hpp:1987-2001 | the fast path is (x + y) mod m |
| WideDivision.AddMod | include/rlp/intx.hpp:1982-2006 | (x + y) mod m, carry included |
| WideDivision.MulMod | include/rlp/intx.hpp:2008-2011 | (x * y) mod m |
| Bytes.DecodeEncode | include/base/byte_encoding.hpp:17-39 | reading n big-endian bytes of a value that fits gives the value |
| Bytes.EncodeDecode | include/base/byte_encoding.hpp:17-39 | writing what was read gives the same bytes |
| Bytes.ByteBuffer.AppendUint | include/base/byte_encoding.hpp:17-39 | the shift loop appends the big-endian bytes |
| Bytes.ByteBuffer.AppendLengthPrefixedBytes | include/base/byte_encoding.hpp:47-51 | appends the 8-byte length and the bytes |
| Bytes.ByteBuffer.AppendLengthPrefixedArrays | include/base/byte_encoding.hpp:53-61 | appends the 8-byte count and every array in order |
| ClaimCodec.ClaimPayload | src/eth/bridge_observation.cpp:148-178 | the appended buffer is the canonical encoding |
| ClaimCodec.DecodeClaimPayload | src/eth/bridge_observation.cpp:180-209 | the reader accepts and returns exactly what the decoding function says |
| ClaimCodec.PayloadReader.ReadUintBytes | src/eth/bridge_observation.cpp:41-67 | the shift-or loop reads a big-endian integer or leaves the reader where it was |
| ClaimCodec.PayloadReader.ReadArraysBytes | src/eth/bridge_observation.cpp:95-116 | reads count and arrays when they fit, with no overflow in the size test |
| ClaimCodec.DecodeInverse | src/eth/bridge_observation.cpp:148-209 | decoding an encoded claim gives that claim |
| ClaimCodec.EncodeInverse | src/eth/bridge_observation.cpp:148-209 | re-encoding an accepted payload gives the same bytes |
| ClaimCodec.AcceptedIffEncoded | src/eth/bridge_observation.cpp:180-209 | a payload is accepted exactly when it is the encoding of a well-typed claim |
| ClaimCodec.HeadLayout | src/eth/bridge_observation.cpp:148-160 | domain, chains, contract, block and log index stand at fixed bytes of the payload |
| ClaimCodec.TailLayout | src/eth/bridge_observation.cpp:160-178 | topics and data follow, and the remaining fields stand at fixed bytes behind them, with nothing after |
| Base64Url.Decode | src/discv5/discv5_enr.cpp:138-180 | the loop refuses exactly the texts with a foreign character and otherwise yields the floor(6n/8) bytes the text writes |
| Base64Url.EmitByte | src/discv5/discv5_enr.cpp:172-176 | an emitted byte is that of the unbounded accumulator: 32-bit wrap-around never reaches it |
| Base64Url.RoundTrip | src/discv5/discv5_enr.cpp:70-180 | decoding the section 5 of RFC 4648 encoding of any bytes, with any amount of padding, gives the bytes |
| PacketCodec.DecodeInverse | src/discv5/discv5_client.cpp:569-707 | decoding an encoded packet gives flag, nonce, auth data, message and the sender's unmasked header, if and only if the auth data is under 65536 bytes |
| PacketCodec.EncodeInverse | src/discv5/discv5_client.cpp:569-707 | re-encoding an accepted packet gives its bytes if and only if its version is the current one |
| PacketCodec.CtrConcat | src/discv5/discv5_client.cpp:600-655 | unmasking in two passes is unmasking in one |
| PacketCodec.EncodeThenAppend | src/discv5/discv5_client.cpp:1779-1807 | appending the ciphertext to a packet encoded without it is encoding with it |
| PacketCodec.WrongDestination | src/discv5/discv5_client.cpp:569-625 | a packet masked for one address does not decode under another whose keystream starts differently |
| PacketCodec.ParseInverse | src/discv5/discv5_client.cpp:984-1008 | the four handshake fields are recovered if and only if both sizes fit one byte |
| PacketCodec.MakeInverse | src/discv5/discv5_client.cpp:1755-1762 | rebuilding accepted handshake auth data gives the same bytes |
| PacketCodec.HandshakeAuthLayout | src/discv5/discv5_client.cpp:1755-1762 | source id, the two sizes, signature, key and record stand at these places of the handshake auth data |
| Discv5Crypto.SignatureBinds | src/discv5/discv5_client.cpp:281-366 | among messages whose signatures are not mistaken for one another, an identity proof verifies for exactly the challenge, ephemeral key and destination it was made for; sizes other than 64 bytes are refused |
| Discv5Crypto.IdMessageInjective | src/discv5/discv5_client.cpp:281-299 | with the sizes of key and destination fixed, the concatenated bytes determine all three parts |
| Discv5Crypto.IdMessageAmbiguous | src/discv5/discv5_client.cpp:281-299 | with other sizes they do not: a byte moved from the challenge to the key leaves the same bytes |
| Discv5Crypto.LawsConsistent | src/discv5/discv5_client.cpp:192-395 | functions of the program's sizes, with 64-byte signatures over plain byte strings, obey all laws for two nodes and all messages, nodes and masks they tell apart |
| Handshake.Discv5Client.ReceiveWhoareyou | src/discv5/discv5_client.cpp:1351-1381 | only a challenge that echoes the pending nonce is stored, with the packet's unmasked header as its data |
| Handshake.Discv5Client.ReceiveMessage | src/discv5/discv5_client.cpp:1383-1468 | a message that cannot be read leads to a challenge, one that can is handled and leaves the sessions alone |
| Handshake.Discv5Client.ReceivePlaintext | src/discv5/discv5_client.cpp:1423-1467 | a NODES answer is taken only if it names the last request or none is remembered, a FINDNODE request is answered later, anything else changes nothing |
| Handshake.Discv5Client.ReceiveHandshake | src/discv5/discv5_client.cpp:1470-1589 | session stored, dropped on a failed decryption, challenge erased on success |
| Handshake.Discv5Client.Receive | src/discv5/discv5_client.cpp:1249-1590 | from the bytes: undersized and undecodable datagrams and wrong auth sizes change nothing, the rest is dispatched on the flag |
| Handshake.DeliveredToDestination | src/discv5/discv5_client.cpp:569-707 | at its destination the datagram of a packet does exactly what the packet says, for every kind of packet |
| Handshake.DeliveredElsewhere | src/discv5/discv5_client.cpp:569-625 | at a client under whose address the keystream starts differently it changes nothing |
| Handshake.Discv5Client.Findnode | src/discv5/discv5_client.cpp:1592-1826 | the three ways to send, with the new maps and the packet, or no packet when a step before the send fails; in a session the packet opens under the other side's read key (`HandshakeTalk.FindnodeOpens`) |
| Handshake.Discv5Client.AskRandomly | src/discv5/discv5_client.cpp:1655-1693 | an unanswered request is dropped first; the new one stays when the filler cannot be drawn and goes when the packet cannot be encoded |
| Handshake.Discv5Client.AnswerChallenge | src/discv5/discv5_client.cpp:1696-1826 | session stored and request erased only when the whole packet was built |
| Handshake.Discv5Client.Whoareyou | src/discv5/discv5_client.cpp:1858-1903 | stores and sends one challenge whose data is the packet's own unmasked header, replacing an older one |
| HandshakeRuns.RunHasScope | src/discv5/discv5_client.cpp:1249-1973 | every run has a finite scope that holds all identity messages it signs or checks, all nodes it asks and all masks it meets |
| HandshakeRuns.SoundExists | src/discv5/discv5_client.cpp:192-395 | a setup of two clients with the program's sizes is sound in every scope its functions tell apart |
| HandshakeRuns.SoundRunExists | src/discv5/discv5_client.cpp:1249-1973 | such a setup has a sound scope and a run within it that ends in an accepted handshake |
| HandshakeRuns.WhoareyouPending | src/discv5/discv5_client.cpp:1358-1370 | a challenge that echoes the pending nonce comes from the node the request was for |
| HandshakeRuns.DatagramIsPacket | src/discv5/discv5_client.cpp:569-707 | in every run the masked bytes of a sent packet do what the packet says at the client it is masked for and nothing elsewhere |
| HandshakeRuns.KeysAgree | src/discv5/discv5_client.cpp:1516-1552 | a handshake that passes the checks answers the held challenge, was masked for this client, and both sides derive the same keys |
| HandshakeRuns.AcceptedIff | src/discv5/discv5_client.cpp:1470-1565 | a handshake is accepted by a client if and only if it is masked for the client and the client still holds the challenge it answers |
| HandshakeRuns.KeepStep | src/discv5/discv5_client.cpp:1327-1973 | every step of every client, failed sends included, keeps the protocol invariant |
| HandshakeRuns.SessionsMirror | src/discv5/discv5_client.cpp:1516-1565 | in every run the session a responder stored for an accepted handshake has the keys of the session its initiator stored the other way round, and each names the other side |
| HandshakeRuns.ChallengeConsumedOnce | src/discv5/discv5_client.cpp:1557-1563 | in every run no challenge is consumed by two accepted handshakes |
| HandshakeRuns.HandshakeCompletes | src/discv5/discv5_client.cpp:1351-1903 | any two clients, sound for the one proof and three masks it takes, have a run that ends in an accepted handshake, whatever is drawn |
| HandshakeRuns.DeliveryAccepts | src/discv5/discv5_client.cpp:1470-1565 | in every run delivering a handshake's bytes adds an acceptance if and only if it is masked for the client and its challenge is still held |
| HandshakeTalk.FindnodeOpens | src/discv5/discv5_client.cpp:1609-1653 | while two clients' sessions mirror each other, a request sent in session goes to the other's address and opens there under the key the other reads with, and its id is remembered |
| HandshakeTalk.FindnodeHeard | src/discv5/discv5_client.cpp:1383-1468 | so its bytes lead to no challenge there, and to an answer exactly when the request body reads back |
| HandshakeTalk.NodesOpen | src/discv5/discv5_client.cpp:1905-1973 | an answer goes to the address of the client that asked and opens there under the key that client reads with |
| HandshakeTalk.NodesHeard | src/discv5/discv5_client.cpp:1423-1449 | the records of an answer are taken, in the other node's name, if and only if it answers the last request sent in the session or none is remembered |
| HandshakeTalk.RequestAnswered | src/discv5/discv5_client.cpp:1383-1973 | from every state of every run in which two clients' sessions mirror each other, either can ask the other and learn its records, without a challenge, and the sessions mirror each other afterwards |
| HandshakeTalk.AcceptedTalk | src/discv5/discv5_client.cpp:1516-1565 | in every run the sessions of an accepted handshake mirror each other for as long as both sides hold them, whatever was asked since |
| HandshakeTalk.HandshakeHeard | src/discv5/discv5_client.cpp:1552-1589 | the request an accepted handshake carries is the one its sender remembers, and is answered like any other |
| HandshakeTalk.UnreadableHandshake | src/discv5/discv5_client.cpp:1552-1562 | a handshake that passes every check but does not open costs the session there was and keeps the challenge |
| HandshakeTalk.ChallengedIff | src/discv5/discv5_client.cpp:1383-1421 | a message for the client is challenged if and only if no session with its sender's address opens it |
| HandshakeTalk.ChallengeAnswered | src/discv5/discv5_client.cpp:1351-1826 | a challenge to the request that is out leads to a handshake signed over that challenge, with the own record if and only if the challenger knows none, and to keys with the initiator named first; any other challenge changes nothing |
| HandshakeTalk.RandomRequestLives | src/discv5/discv5_client.cpp:1655-1693 | a request sent at random can still be challenged if and only if its nonce was drawn and nothing but the filler failed |
| Bonding.ReplyKeyInjective | src/discv4/discv4_client.cpp:470-472 | a reply key determines address, port and packet type, whatever text the address is |
| Bonding.KeepStep | src/discv4/discv4_client.cpp:149-592 | every step of every interleaving keeps the bonding invariant |
| Bonding.BondedOnlyIfProven | src/discv4/discv4_client.cpp:474-536 | in every run an endpoint is bonded only if it sent a PING or a PONG with the hash of a PING addressed to it |
| Bonding.PongEntriesHaveSlots | src/discv4/discv4_client.cpp:206-235 | in every run an entry under a PONG key has the slot of a ping to that endpoint, and no handler writes through null |
| Bonding.AnswerBonds | src/discv4/discv4_client.cpp:206-536 | a PONG leads a waiting ping to a new bond if and only if the entry is still the ping's own, the PONG echoes its hash and the 32-bit expiration is not zero |
| Bonding.OwnsWhileUndisturbed | src/discv4/discv4_client.cpp:74-536 | in every run the entry is the ping's own if and only if since its start there was no stop, no ping to the endpoint and no end of one |
| Bonding.SlotIsLastAnswer | src/discv4/discv4_client.cpp:206-235 | in every run a ping's slot is filled if and only if the last PONG that echoed its hash while the entry was its own had a non-zero expiration |
| Bonding.WakeBonds | src/discv4/discv4_client.cpp:474-536 | in every run the end of a wait bonds a new endpoint if and only if that last PONG exists and is non-zero |
| Bonding.OverlapDropsReply | src/discv4/discv4_client.cpp:512-526 | a run in which an overlapping ping's answer is dropped |
| BondingRuns.BondedIffProven | src/discv4/discv4_client.cpp:149-536 | in every run an endpoint is bonded if and only if an earlier step answered its PING or ended a ping to it whose last PONG counted; so a bond is never lost |
| BondingRuns.EnrIsLastResponse | src/discv4/discv4_client.cpp:381-444 | in every run an ENR request holds the record of the last response from its endpoint that echoed its hash while the entry was its own, and none before |
| Bonding.Discv4Client.SendPing | src/discv4/discv4_client.cpp:485-513 | registers the entry and a new slot, only while running |
| Bonding.Discv4Client.FinishSend | src/discv4/discv4_client.cpp:515-521 | a failed send erases whatever entry is under the key |
| Bonding.Discv4Client.FinishWait | src/discv4/discv4_client.cpp:523-536 | the entry under the key goes and a filled slot bonds |
| Bonding.Discv4Client.ReceivePing | src/discv4/discv4_client.cpp:149-205 | an answered PING bonds its sender |
| Bonding.Discv4Client.ReceivePong | src/discv4/discv4_client.cpp:206-235 | fills the slot of the current entry for its own hash only |
| Bonding.Discv4Client.RequestEnr | src/discv4/discv4_client.cpp:412-444 | registers under a key of its own, without a PONG slot |
| Bonding.Discv4Client.ReceiveEnrResponse | src/discv4/discv4_client.cpp:381-410 | fills the response slot for its own hash only |
| Bonding.Discv4Client.Stop | src/discv4/discv4_client.cpp:74-84 | clears the pending replies and keeps slots and bonds |
| Scheduler.SpawnSpaced | include/discv4/dial_scheduler.hpp:141-156 | dialing a node outside the history keeps all dials of a node an expiry apart |
| Scheduler.ExpireKeeps | include/discv4/dial_history.hpp:52-61 | pruning never forgets a node before its cooldown is over |
| Scheduler.EnqueueKeeps | include/discv4/dial_scheduler.hpp:107-162 | keeps counts, caps and spacing, and moves the pool total by what it moves the chain's count |
| Scheduler.ReleaseKeeps | include/discv4/dial_scheduler.hpp:166-186 | the same for release and its drain loop, after which no peer waits while both caps leave room |
| Scheduler.DrainTotals | include/discv4/dial_scheduler.hpp:173-185 | the drain stops only when a cap is reached or the queue is empty |
| Scheduler.DrainServes | include/discv4/dial_scheduler.hpp:173-185 | the drain looks at the queue from the front; each peer it passes was in the history at its reading, or was dialed with the next one; the rest stays as it was |
| Scheduler.StopTellsSessions | include/discv4/dial_scheduler.hpp:190-202 | stopping forgets every session and disconnects exactly those that still exist, whether or not the scheduler was stopped before |
| SchedulerPool.CountsExact | include/discv4/dial_scheduler.hpp:107-245 | in every run the total is the sum of the chains' counts, each count is the number of unfinished dials, neither cap is exceeded, and until the stop a session is kept for every connection ever counted; re-entrant enqueues and stopped chains included |
| SchedulerPool.DialsSpaced | include/discv4/dial_history.hpp:34-61 | in every run two dials of one node by one scheduler are at least the expiry apart |
| SchedulerOffers.HistoryTellsDials | include/discv4/dial_history.hpp:34-61 | for the history of a run the two lookups answer whether some dial of the node is less than the expiry old |
| SchedulerOffers.FilterRespected | include/discv4/dial_scheduler.hpp:119-138 | in every run each peer a chain ever queued or dialed passes its filter |
| SchedulerOffers.StoppedForGood | include/discv4/dial_scheduler.hpp:107-202 | in every run a chain that was stopped queues nothing and never dials again |
| SchedulerOffers.OfferFate | include/discv4/dial_scheduler.hpp:107-162 | in every run a peer offered to a running chain is dropped if and only if the filter refuses it or its node was dialed less than the expiry ago; any other becomes the newest dial if both caps leave room, and otherwise the last of the queue |
| SchedulerPool.SessionFate | include/discv4/dial_scheduler.hpp:190-241 | in every run a connection's session is kept if and only if the chain was not stopped since, and was told to disconnect if and only if the first stop since found it alive |
| SchedulerPool.StopReachesConnected | include/discv4/dial_scheduler.hpp:190-202 | in every run a stop tells a connection made since the stop before it if and only if its session still exists |
| SchedulerPool.LateConnectionStays | include/discv4/dial_scheduler.hpp:190-241 | a run that ends with a dial connected after the stop, counted and told nothing |
| SchedulerPool.RoomyRunsNeverIdle | include/discv4/dial_scheduler.hpp:141-186 | when the pool has room for every chain's slots, no scheduler ever holds a queued peer while its chain has a free slot |
| SchedulerPool.CrampedRunIdles | include/discv4/dial_scheduler.hpp:141-186 | on every smaller pool some run does leave one queued |
| SchedulerObjects.DialHistory.Add | include/discv4/dial_history.hpp:34-37 | the entry expires one expiry after the reading |
| SchedulerObjects.DialHistory.Has | include/discv4/dial_history.hpp:43-48 | true exactly before the entry's time, and the clock is read only when there is an entry |
| SchedulerObjects.DialHistory.Expire | include/discv4/dial_history.hpp:51-61 | erasing while iterating keeps exactly the entries not yet due |
| SchedulerObjects.DialScheduler.Enqueue | include/discv4/dial_scheduler.hpp:107-162 | the objects change as the enqueue function says, which settles every offer as in `SchedulerOffers.OfferFate` |
| SchedulerObjects.DialScheduler.DrainQueue | include/discv4/dial_scheduler.hpp:173-185 | the loop does what the drain function says |
| SchedulerObjects.DialScheduler.Release | include/discv4/dial_scheduler.hpp:166-226 | slot, pool, history and queue change as the release function says |
| SchedulerObjects.DialScheduler.Connected | include/discv4/dial_scheduler.hpp:227-241 | one more validated connection now and in all, and its session is kept |
| SchedulerObjects.DialScheduler.Stop | include/discv4/dial_scheduler.hpp:190-202 | no more dials, an empty queue, and every session that still exists is disconnected and forgotten |
| PeerQueue.NodeKeyInjective | src/eth/eth_peer_queue.cpp:348-359 | different nodes have different keys |
| PeerQueue.BacklogBounded | src/eth/eth_peer_queue.cpp:241-283 | in every run the scheduler's backlog is within max_pending_peers |
| PeerQueue.HandedOverBounded | src/eth/eth_peer_queue.cpp:93-162 | in every run a node is handed over at most 1 + max_disconnect_requeues times |
| PeerQueue.CountsMatchSeen | src/eth/eth_peer_queue.cpp:38-283 | in every run whose feedback is about dialed peers, cached plus discovered counts are the size of the seen set |
| PeerQueue.DialFeedbackIsKnown | src/eth/eth_peer_queue.cpp:93-162 | such feedback never introduces a node |
| PeerQueue.FeedbackAccountedFor | src/eth/eth_peer_queue.cpp:93-162 | in every run each disconnect is counted once by connection and at most once by reason, and every back-off, requeue and drop is one of those counted |
| PeerQueue.AdmitEffect | src/eth/eth_peer_queue.cpp:241-279 | a refused candidate leaves the seen set as it was, an admitted unknown one is new |
| PeerQueueRuns.HeldTold | src/eth/eth_peer_queue.cpp:136-260 | in every run the back-off map holds a node at a reading if and only if its last TooManyPeers feedback is less than the back-off old then |
| PeerQueueRuns.SeenTold | src/eth/eth_peer_queue.cpp:241-283 | in every run a node is in the seen set if and only if an earlier candidate with it was accepted |
| PeerQueueRuns.DisconnectsTold | src/eth/eth_peer_queue.cpp:146-155 | in every run a node's disconnect count is the number of its lost connections, up to the limit |
| PeerQueueRuns.StepsTold | src/eth/eth_peer_queue.cpp:50-283 | in every run each candidate is accepted if and only if it is not backing off, its node was not accepted before and there is room, each lost peer is offered again if and only if it was lost less often than the limit, every drop is counted under its own reason, and exactly the accepted ones are handed to the scheduler; all told from the steps before |
| PeerQueueRuns.BackoffRespected | src/eth/eth_peer_queue.cpp:134-260 | in every run no step within the back-off after a TooManyPeers feedback hands the node over |
| PeerQueueRuns.TallyTold | src/eth/eth_peer_queue.cpp:93-132 | in every run each feedback count is the number of the feedbacks it stands for |
| PeerQueue.EthPeerQueue.EnqueueCandidate | src/eth/eth_peer_queue.cpp:241-283 | queue, scheduler, pool and clock change as the candidate function says, roll-back included, which accepts exactly as in `PeerQueueRuns.StepsTold`; without a scheduler the peer is only remembered |
| PeerQueue.EthPeerQueue.EnqueueDiscoveredPeer | src/eth/eth_peer_queue.cpp:56-67 | an accepted peer is counted as discovered |
| PeerQueue.EthPeerQueue.ReportPeerDisconnected | src/eth/eth_peer_queue.cpp:93-162 | the disconnect is counted, then back-off, drop or requeue as the report function says |
| PeerQueue.EthPeerQueue.PreloadCachedPeers | src/eth/eth_peer_queue.cpp:38-49 | queue, scheduler, pool and clock are those after offering every cached peer exactly once, one after the other, in rotated and spread order |
| PeerQueue.PreloadEffect | src/eth/eth_peer_queue.cpp:38-49 | offering a list takes or drops each peer once, the cached count grows with the seen set and the backlog bound holds |
| CachedPeers.Rotate | src/eth/eth_peer_queue.cpp:285-304 | the loop-free rotation is the rotation function |
| CachedPeers.RotatedAt | src/eth/eth_peer_queue.cpp:285-304 | element i is element i + offset around the end |
| CachedPeers.SpreadForDialSlots | src/eth/eth_peer_queue.cpp:306-346 | the nested loops end and compute the spread function, whose whole order is `CachedPeers.SpreadInOrder` |
| CachedPeers.SpreadIsPermutation | src/eth/eth_peer_queue.cpp:306-346 | for every length and slot count no peer is lost or repeated |
| CachedPeers.BandStartsFirst | src/eth/eth_peer_queue.cpp:320-343 | with k the smaller of slots and peers, the peer at position b < k of the result is the one at n * b / k of the list |
| CachedPeers.SpreadInOrder | src/eth/eth_peer_queue.cpp:320-343 | from the start of the result on, the places in the bands go strictly upwards: a smaller offset before a larger one of any band, equal offsets in band order |
| CachedPeers.NothingToSpread | src/eth/eth_peer_queue.cpp:309-326 | one slot or one peer leaves the list as it is |
| CachedPeers.PreloadOrderIsPermutation | src/eth/eth_peer_queue.cpp:285-346 | rotating and spreading together lose and repeat none |
| ChainTracker.Tracker.MarkSeen | src/eth/chain_tracker.cpp:14-46 | refines a list of accepted blocks: true exactly when the hash is not among the last W accepted |
| ChainTracker.Tracker.IsSeen | src/eth/chain_tracker.cpp:48-51 | true exactly for the last W accepted hashes |
| ChainTracker.Tracker.Reset | src/eth/chain_tracker.cpp:68-75 | nothing is accepted afterwards |
| ChainTracker.ReplaceHolds | src/eth/chain_tracker.cpp:22-29 | writing at the head and moving it pushes onto a full first-in first-out list |
| ChainTracker.TipIsFirstHighest | src/eth/chain_tracker.cpp:39-43 | the tip is the maximum accepted height with the first hash that reached it |
| ChainTracker.AcceptedAreSeparated | src/eth/chain_tracker.cpp:14-46 | two accepted blocks with one hash have at least W others between them |
| EventWatch.MatchesLog | src/eth/event_filter.cpp:13-57 | the loop decides exactly the eth_getLogs match |
| EventWatch.DeliveredFrom | src/eth/event_filter.cpp:80-148 | a delivery is one of the logs, at its own index, to a subscription that matches it |
| EventWatch.DeliveredTo | src/eth/event_filter.cpp:80-148 | every log reaches every subscription that matches it |
| EventWatch.EventWatcher.Watch | src/eth/event_filter.cpp:63-68 | appends the subscription under the next 32-bit id |
| EventWatch.EventWatcher.Unwatch | src/eth/event_filter.cpp:70-78 | keeps exactly the other subscriptions, in order |
| EventWatch.EventWatcher.ProcessReceipt | src/eth/event_filter.cpp:114-148 | delivers as the delivery function says and counts the logs that matched at least once |
| EventWatch.EventWatcher.ProcessBlockLogs | src/eth/event_filter.cpp:80-112 | the same from index 0 without a transaction hash |
| WatchService.ReceiptsAsBlockLogs | src/eth/eth_watch_service.cpp:1109-1138 | without log indices receipts deliver the same logs and block-wide indices, in order, as the block's logs together |
| WatchService.LogsConserved | src/eth/eth_watch_service.cpp:1127-1137 | logs seen are logs matched plus logs discarded |
| WatchService.RequestsAccountedFor | src/eth/eth_watch_service.cpp:988-1102 | in every run requests made are pending plus answered, each answered at most once and with its own block |
| WatchService.RequestsSeparated | src/eth/eth_watch_service.cpp:988-1017 | in every run two requests for one hash have at least W other accepted blocks between them |
| WatchService.SubscriptionsAgree | src/eth/eth_watch_service.cpp:927-982 | in every run service and watcher hold the same subscription ids, and logs seen are matched plus discarded |
| WatchAnswers.AnswerDelivers | src/eth/eth_watch_service.cpp:1061-1102 | in every run the first block of a message that names a pending request is delivered with the number and hash the request was sent with; every later block and every block of any other message with number 0 and the zero hash |
| WatchAnswers.DeliveryOfBlock | src/eth/eth_watch_service.cpp:1109-1138 | each delivery of such a block is one of its logs, with that number and hash and its place in the block, to a subscription that wants it |
| WatchAnswers.BlockDelivered | src/eth/eth_watch_service.cpp:1109-1138 | and every log of the block is delivered to every subscription that wants it at that number |
| WatchAnswers.PendingTold | src/eth/eth_watch_service.cpp:988-1102 | in every run a request is pending if and only if it was sent and no message with a block has named it since |
| WatchAnswers.RequestFate | src/eth/eth_watch_service.cpp:988-1017 | in every run a block is asked for if and only if there is a way to send, none of the last W accepted blocks has its hash and the request encodes; its number was never used before |
| WatchAnswers.WatchFilterMatches | src/eth/eth_watch_service.cpp:927-968 | a subscription of watch_event matches a log if and only if address, unless zero, first topic and block range do |
| WatchAnswers.WithoutExact | src/eth/event_filter.cpp:70-78 | unwatching keeps exactly the subscriptions with another id, in their order |
| WatchAnswers.ProcessCounts | src/eth/eth_watch_service.cpp:1109-1138 | processing a block sees each log once, matches exactly those some subscription wants and discards the rest |
| WatchObjects.EthWatchService.WatchEvent | src/eth/eth_watch_service.cpp:927-968 | the service and its watcher gain the subscription with its filter |
| WatchObjects.EthWatchService.RemoveSubscription | src/eth/eth_watch_service.cpp:974-982 | both lose it |
| WatchObjects.EthWatchService.RequestReceipts | src/eth/eth_watch_service.cpp:988-1017 | the tracker and the request maps change as the request function says |
| WatchObjects.EthWatchService.ProcessReceipts | src/eth/eth_watch_service.cpp:1109-1138 | deliveries, counters and the wrapping index as the processing function says |
| WatchObjects.EthWatchService.ReceiveReceipts | src/eth/eth_watch_service.cpp:1061-1102 | only the first block of an answer is matched with its request, and the deliveries are those of `WatchAnswers.AnswerDelivers` |
| BridgeEvent.VerifiedIffBacked | src/eth/bridge_event.cpp:62-120 | a claim is verified if and only if a successful receipt of its block and transaction has the claimed log at the claimed index |
| BridgeEvent.VerifyReceiptLog | src/eth/bridge_event.cpp:62-120 | the verdict is that of the first failing check |
| BridgeEvent.RunClaimIsBacked | src/eth/bridge_event.cpp:62-120 | in every run of the watch service the claim made from a delivered event is backed by the receipt it came from, if that receipt succeeded and lists consecutive indices |
| BridgeEvent.UnlistedBackedIff | src/eth/bridge_event.cpp:82-99 | without listed indices every claim of a receipt is backed if and only if its logs are numbered from zero |
| BridgeEvent.UnlistedReceiptBackedIff | src/eth/bridge_event.cpp:82-99 | in a block without listed indices every claim of a receipt is backed if and only if the receipts before it have no logs |
| BridgeEvent.SecondReceiptRefused | src/eth/bridge_event.cpp:82-99 | a run of the watch service that delivers a log whose claim is out of range |
| BridgeEvent.AppendMessage | src/eth/bridge_event.cpp:122-139 | the buffer is the identifier preimage |
| BridgeEvent.PreimageInjective | src/eth/bridge_event.cpp:122-139 | different events have different preimages |
| EnrText.SplitBranchLabels | src/discv5/enr_tree.cpp:63-88 | the loop yields the trimmed, non-empty texts between commas |
| EnrText.LabelsOfJoin | src/discv5/enr_tree.cpp:63-88 | splitting undoes joining with commas |
| EnrText.TrimCopy | src/discv5/enr_tree.cpp:31-42 | the result is a contiguous part of the text, drops only white space and has none at either end |
| EnrText.TrimIsUnique | src/discv5/enr_tree.cpp:31-42 | there is only one such part |
| EnrTree.ResolveUrl | src/discv5/enr_tree.cpp:231-289 | ends for every lookup function; each label is looked up at most once and is reachable, none before one nearer to the roots, neither bound is exceeded, and it stops early only at a bound |
| EnrTree.WalkReachesAll | src/discv5/enr_tree.cpp:255-286 | when no bound was hit the labels looked up are exactly the reachable ones |
| EnrTree.WalkIsComplete | src/discv5/enr_tree.cpp:255-289 | when no bound was hit the result is exactly the valid records on reachable labels |
| EnrTree.Resolve | src/discv5/enr_tree.cpp:203-229 | no record twice, at most the limit, none that no tree publishes; below the limit, with no walk cut short, exactly the published ones |
| EnrTree.ResolvedIsExact | src/discv5/enr_tree.cpp:203-289 | when every tree was walked to its end the merged records are exactly those on reachable labels of the trees |
| EnrTree.FinishesIffFits | src/discv5/enr_tree.cpp:255-289 | a walk is not cut short if and only if the tree has at most 8192 labels and fewer records, counted with repetition, than the limit |
| EnrTree.ShortResultIsExact | src/discv5/enr_tree.cpp:203-289 | if no tree repeats a record or has more than 8192 labels, a result below the limit is exactly what the trees publish |
| EnrTree.RepetitionHidesRecord | src/discv5/enr_tree.cpp:208-286 | a one-label tree with a record twice and then another gives, for a limit of two, only the repeated one |
| EnrTree.ResolveRepeated | src/discv5/enr_tree.cpp:203-289 | resolving such a tree, given by its text records, returns one record while another is published |

## Left out

- The C++ that surrounds the modelled steps: sockets, timers, DNS, files, logging, command lines. They appear as inputs or as steps of the environment.
- Hashes, ciphers, key derivation and elliptic curves: function arguments, with the laws listed above.
- RLP: message bodies and records are written and read by function arguments.
- Handshake.Discv5Client.Receive: datagrams over 1280 bytes, which the receive buffer cuts off, are not distinguished.
- Handshake.Discv5Client.Whoareyou: a challenge whose random values or packet cannot be made is one that is not sent; a send the socket refuses is a packet the network loses.
- Discv5 counters of packets and refusals, and what the crawler does with the records of a NODES answer.
- Bonding: timers are not modelled; a waiting coroutine may be woken at any time.
- PeerQueue: the list of discovery bootnodes and `needs_discovery`, which only reads it and the cached count.
- WatchService: counters of messages and of decode failures, and the decoding of a log's parameters before a callback.
- EventWatch.EventWatcher.ProcessReceipt: callbacks do not change the subscriptions while a log is being dispatched.
- CachedPeers.SpreadForDialSlots: band arithmetic is on unbounded integers, so lists whose length times the slot count exceeds 64 bits are not distinguished.
- EnrTree: the recursive `resolve_entry` is not called by the resolver and is not modelled.
- EnrTree.ShortResultIsExact: one direction only. Which records a repeated one pushes out depends on the order of the walk, and a repetition late in it pushes out none.
- The integer header's signed and mixed-width operators, its conversions from and to text, and its division for two-word integers, which is the general one at a fixed length.
- The RLPx session, the ETH codecs, the RPC manager and the finality policy are not part of this model.
