# A verified model of the wg2awg proxy and its configuration tools

`wg2awg` sits between a WireGuard peer and an AmneziaWG peer and rewrites each packet from one form to the other: it
replaces the message types by values from configured ranges, puts padding in front, recomputes the MAC1 field, and can
disguise the result as another protocol. A Flask panel keeps the peer configuration and prints the templates from which
decoy packets are made. This project states what those parts do, in Dafny, and proves the properties they are built on.

The C code changes buffers and records in place, and so do the methods here: each is proved against a function of the
old state, and the properties are proved about those functions. Machine words are `newtype`s, so that every sum, product
and cast the verifier accepts is one that loses no bit in the C code; where the C code wraps on purpose, the model takes
the remainder explicitly. Masks are proved bit by bit.

`dafny verify dfyconfig.toml` checks the whole project.

## How the files are organised

- **Public keys** (RFC 7748, section 5). `Field25519`, `X25519`, `Scalars` and `PublicKeys` define the field modulo
  2^255 - 19, the ladder of the RFC, clamping and the resulting key. `Limbs51`, `Curve64`, `Ladder64`, `Invert64`,
  `Format64` and `PublicKey64` are the 64-bit back end; `Limbs26`, `Fiat32`, `Fiat32Invert`, `Fiat32Format`,
  `Fiat32Ladder` and `PublicKey32` the 32-bit one. The two ladders do not end in the same coordinates: the 64-bit one
  also runs the leading zero bit, which multiplies both coordinates by the same power of 4·u. For the base point that
  factor is a power of 36, and `PowersOf36` computes 36^(p-1) = 1 by a chain of squarings, so the division by Z that
  both back ends perform by exponentiation removes it and both write the same 32 bytes. Nothing here relies on p being
  prime. `MontgomeryCurve` says what the ladder step and the scalar are in terms of the curve and the number.
- **Session table**. `SessionTable` is the table as one thread sees it; `SessionSeqlock` is the protocol between the
  writer and the reader, one memory access per step; `SessionRefinement` connects the two, and `SessionLookups` says
  what the answer of a concurrent lookup means.
- **BLAKE2s**. `Rfc7693` is the hash as the RFC defines it for a whole message, `Blake2s` the streaming code. `BvWords`
  proves that the word operations are those of 32-bit vectors, `Rfc7693Vectors` carries that over to a compression, and
  `Rfc7693Abc` and `Rfc7693Block` compute two known digests in this way, round by round.
- **Packet translation**. `Transform` gives both translations as functions on packets, `TransformBuffers` the code that
  performs them in a buffer, `TransformWire` what they mean on the wire, `HotPath` the shortcuts of the three forwarding
  loops, `FastRand` the generator that fills the padding.
- **Disguises**. `Obfs` gives wrapping and unwrapping as functions and whole streams of packets, `ObfsBuffer` the code,
  `ObfsFields` what an observer reads in the headers.
- **Recovery**. `Recovery` is the timer handler that decides when to reconnect and when to exit.
- **Batches**. `Batches` is segmentation offload on sending and splitting on receiving.
- **The whole link**. `Link` puts translation and disguise together.
- **Templates**. `CpsText` is the template language with its parser and printer, `CpsTemplate` the parsed record,
  `CpsGenerate` the generator, `CpsMakers` four of the template makers of the panel, `CpsMeaning` all of these in terms of
  characters and bytes.
- **Peer configuration**. `ConfText` is line splitting, stripping and `key = value` lines; `PeerConf` the parser, the
  filter for the running configuration and the rebuilding of the file; `PeerConfText` the text line by line.
- `Words`, `Powers`, `Bits`, `LittleEndian`, `ByteWords`, `Exponents` and `Wrappers` hold what several of them share.

## Facts the proofs brought out

- `dns_like` adds up to 40 bytes although `obfs_profile_overhead_max` returns 34 (src/obfs.c:591, whose comment counts
  a 17-byte name). `Obfs.OverheadCovered` says exactly for which sequence numbers 34 is enough, and `Obfs.OverheadExceeded`
  gives one where it is not. The wrap buffer is large enough all the same (`Obfs.AdmittedPacketsFit`).
- The receiver removes the marker only until it has seen it once, while the sender sends it three times: packets 2 and 3
  of a lossless stream arrive with the marker still in front (`Obfs.LosslessStream`). If the three marked packets are
  lost, nothing that does not itself begin with the marker is ever accepted (`Obfs.LostMarkersAreFatal`).
- A transport packet is padded only if the headroom covers S4; without the padding the receiver drops or misreads it
  (`Transform.ShortHeadroomLosesPacket`); `Transform.RoundTrip` has the exact condition.
- The silent run that makes the program exit has asked for a reconnect first if and only if the exit guard is at least
  35 seconds (`Recovery.ReconnectIsTriedFirst`); `Recovery.ExitWithoutReconnect` is a trace with 30.
- The gateway's shortcut looks at a packet before its disguise is off. With a disguise, whenever it fires it makes
  something else of the packet than unwrapping and translating would (`Link.GatewayAgrees`,
  `Link.ShortcutBeforeUnwrapping`).
- The zeros that `stun_ice` and `dns_like` leave behind a packet change its size, by which the receiver recognises
  handshakes: `Link.LinkDelivers` says exactly which packets of a lossless link come back, `Link.ZerosLoseResponse` gives
  handshakes that do not.
- Multiplication in the 64-bit back end has a margin: limbs below 0x4a48c389475ddf are safe by their size alone, and no
  larger bound is (`Limbs51.SharpBound`); at 0x4a48c38962f6fb a bit is lost (`Limbs51.LimbsTooLarge`).
- A lookup during which two puts hit the same slot can return the address of another index
  (`SessionRefinement.TwoPutsMislead`); the address is still one that was written whole.
- A template size is stored in 16 bits: `<r 65537>` is accepted and makes one byte (`CpsText.SizesAreCut`).
- The filter for the running configuration looks for the comment line `#Disabled=true`, the panel at the field
  `_disabled`, which an ordinary `_disabled = yes` line also sets. `PeerConf.RuntimeConfMeans` says exactly when the two
  agree, `PeerConf.KeyedFieldEscapesFilter` gives a text where they do not.

## Model

| member | source | states |
|---|---|---|
| Bits.EqMaskCorrect | src/curve25519.c:67-74 | the branch-free equality mask is all ones exactly for equal words, for all 2^128 pairs |
| Bits.GteMaskCorrect | src/curve25519.c:76-87 | the branch-free comparison mask is all ones exactly when a >= b, including across the sign bit |
| Limbs51.ProductValue | src/curve25519.c:198-225 | the five column sums with the 19-fold wrap are worth the product modulo p, for all limbs |
| Limbs51.MulWideBound | src/curve25519.c:121-128 | for operand limbs below 0x4a48c389475ddf (about 1.16·2^54) no column reaches the 2^117 the carries assume |
| Limbs51.SquareWideIsMulWide | src/curve25519.c:257-283 | pairing equal products, doubling and premultiplying by 19 gives the same columns as multiplying by itself |
| Limbs51.ReduceValue | src/curve25519.c:130-168 | the carry chain, the fold of the top limb by 19 and the last carry keep the value modulo p |
| Limbs51.ReduceBound | src/curve25519.c:227-255 | every narrowing cast after the carries fits 64 bits; the result has limb 1 below 2^51+2^13 and the others below 2^51 |
| Limbs51.SharpBound | src/curve25519.c:227-255 | the fold of the top limb stays within the word for all operands with limbs below m, whatever the low limb holds, if and only if m <= 0x4a48c389475ddf |
| Limbs51.LimbsTooLarge | src/curve25519.c:227-255 | with every limb 0x4a48c38962f6fb the cast drops a bit and the result is not the product |
| Curve64.CarryWide | src/curve25519.c:130-168 | the carry loop in place is the carry chain, without overflow of a 128-bit word |
| Curve64.Fmul | src/curve25519.c:227-255 | for operands with limbs below 0x4a48c389475ddf, which covers every sum and difference the ladder multiplies, the result is the product modulo p within the tight bounds; no word operation or cast drops a bit |
| Curve64.Fsquare | src/curve25519.c:285-309 | the same for squaring in place, including outputs of the subtraction |
| Curve64.FsquareTimes | src/curve25519.c:311-330 | count repeated squarings raise to 2^count, by loop induction |
| Ladder64.Fsum | src/curve25519.c:375-381 | the sum of two elements, limbs at most doubled |
| Ladder64.Fdifference | src/curve25519.c:383-426 | b - a modulo p without underflow, and the result is still a permitted operand of multiplication and squaring |
| Ladder64.Fscalar | src/curve25519.c:428-462 | the product with a small constant modulo p, with its bound |
| Ladder64.PointSwapConditional | src/curve25519.c:468-492 | the masked swap exchanges both coordinates exactly when the bit is 1 and changes nothing otherwise |
| Ladder64.AddAndDouble | src/curve25519.c:499-562 | on the C buffers and in its order the step computes the double-and-add formulas of RFC 7748 and keeps all limb bounds |
| Ladder64.ShlByteBits | src/curve25519.c:564-582 | shifting the byte left exposes its bits from the most significant down |
| Ladder64.SmallLoop | src/curve25519.c:584-592 | four double steps with alternating buffers run the abstract ladder over the eight bits of one byte, highest first |
| Ladder64.BigLoop | src/curve25519.c:594-602 | the byte loop runs it over all bits of the scalar, most significant first |
| Ladder64.LadderCmult | src/curve25519.c:604-614 | the ladder ends in the abstract state for exactly the 256 bits of the clamped scalar |
| X25519.EagerIsRfc7748 | src/curve25519.c:564-573 | swapping back after every step gives the same state as the deferred swaps of RFC 7748 for every bit string |
| X25519.LeadingZeroRescales | src/curve25519.c:604-614 | a leading zero bit multiplies the coordinates of each end point by a common factor, a power of 4·u |
| MontgomeryCurve.StepDoubles | src/curve25519.c:499-562 | one ladder step doubles on the curve with A = 486662: X' = (X² - Z²)², Z' = 4XZ(X² + 486662·XZ + Z²), for all coordinates |
| MontgomeryCurve.StepAdds | src/curve25519.c:499-562 | and adds: X' = 4(X2·X3 - Z2·Z3)², Z' = 4·x1·(X2·Z3 - Z2·X3)² |
| MontgomeryCurve.LadderMultiplies | src/curve25519.c:564-616 | whatever relation `n-th multiple` the two formulas respect, the ladder over the bits of n ends with the n-th and the next multiple |
| MontgomeryCurve.ScalarBitsValue | src/curve25519.c:564-616 | the bits the ladder runs over are the binary digits of the scalar's little-endian number |
| MontgomeryCurve.KeyIsMultiple | src/curve25519.c:763-800 | the key is the multiple by 2^254 + 8·(k / 8 mod 2^251) of the base point, divided out |
| MontgomeryCurve.KeyIgnoresOtherBits | src/curve25519.c:763-800 | secrets that agree in bits 3 to 253 and points that agree in their low 255 bits have the same key |
| Invert64.Crecip | src/curve25519.c:332-373 | the inversion chain returns z^(p-2) for every z |
| Format64.Fexpand | src/curve25519.c:616-637 | the limbs are worth the little-endian bytes modulo 2^255 |
| Format64.CarryPass | src/curve25519.c:639-658 | one carry pass in place, without overflow |
| Format64.SecondCarryFull | src/curve25519.c:686-699 | after the second pass every limb is below 2^51 and the element is unchanged |
| Format64.Trim | src/curve25519.c:701-723 | the masked subtraction leaves the unique representative below p |
| Format64.Store | src/curve25519.c:725-743 | shifting and joining the limbs writes exactly their value in 32 bytes |
| Format64.Fcontract | src/curve25519.c:745-750 | for every vector of limbs below 2^63 the bytes are the little-endian canonical representative |
| Format64.ExpandThenContract | src/curve25519.c:616-750 | expanding and contracting gives back the same bytes if and only if they encode a number below p |
| Scalars.ClampSecret | src/curve25519.c:56-61 | the three masks leave 2^254 plus eight times bits 3 to 253 of the secret |
| Scalars.ClampedValue | src/curve25519.c:56-61 | a clamped secret k stands for 2^254 + 8·(k / 8 mod 2^251) |
| Scalars.ClampedEveryBit | src/curve25519.c:56-61 | of the 256 bits, 0, 1, 2 and 255 are clear, 254 is set and every other is the secret's own |
| Scalars.ClampedBits | src/curve25519.c:56-61 | a clamped scalar has 256 bits of which the first is zero |
| PublicKey64.ScalarOfPoint | src/curve25519.c:752-761 | the bytes are X·Z^(p-2) modulo p |
| PublicKey64.Curve25519Generic | src/curve25519.c:763-791 | the 64-bit back end from bytes to bytes, for every secret and base point |
| Limbs26.FoldedValue | src/curve25519_fiat32.c:308-422 | the nineteen columns of the alternating 26/25-bit limbs, folded by 19, are worth the product modulo p |
| Limbs26.ReduceBound | src/curve25519_fiat32.c:308-422 | the two carry sweeps end within the tight bounds |
| Fiat32.FeMul | src/curve25519_fiat32.c:308-422 | product modulo p for loose operands; every 32- and 64-bit word operation is exact |
| Fiat32.FeSqr | src/curve25519_fiat32.c:440-544 | square modulo p with the shared products |
| Fiat32.FeMul121666 | src/curve25519_fiat32.c:631-745 | multiplication by 121666 modulo p |
| Fiat32.FeAdd | src/curve25519_fiat32.c:222-255 | sum of tight elements, a loose element |
| Fiat32.FeSub | src/curve25519_fiat32.c:265-298 | difference modulo p of tight elements without underflow, a loose element |
| Fiat32Invert.FeLooseInvert | src/curve25519_fiat32.c:556-604 | returns z^(p-2) for every loose z |
| Fiat32Format.FeFromBytes | src/curve25519_fiat32.c:26-47 | the limbs are worth the little-endian bytes modulo 2^255 |
| Fiat32Format.SubtractModulus | src/curve25519_fiat32.c:104-158 | the borrow chain subtracts p and tells by its borrow whether the value was below p |
| Fiat32Format.CmovNonzero32 | src/curve25519_fiat32.c:98-102 | the masked move selects by whether the word is zero |
| Fiat32Format.FeFreeze | src/curve25519_fiat32.c:104-158 | every tight element becomes its unique representative below p |
| Fiat32Format.FeToBytes | src/curve25519_fiat32.c:160-196 | writes the little-endian canonical representative |
| Fiat32Ladder.FeCswap | src/curve25519_fiat32.c:618-628 | exchanges the limbs exactly when the bit is 1 |
| Fiat32Ladder.EitherConstant | src/curve25519_fiat32.c:833-839 | BB + 121666·E and AA + 121665·E are the same element |
| Fiat32Ladder.LadderStep | src/curve25519_fiat32.c:822-839 | the step of the 32-bit ladder computes the formulas of RFC 7748 on its arrays |
| Fiat32Ladder.Ladder255 | src/curve25519_fiat32.c:790-845 | the loop over bit positions 254 down to 0 with deferred swaps is the ladder of RFC 7748 on 255 bits |
| PublicKey32.Curve25519Generic | src/curve25519_fiat32.c:752-860 | the 32-bit back end writes the RFC 7748 public key for every scalar and point |
| PublicKeys.ProjectivelyEqual | src/curve25519.c:499-614 | for every scalar and point the two ladders end with Xa·Zb = Xb·Za modulo p; where u is 0 modulo p both sides are 0 |
| PublicKeys.AffineIgnoresFactor | src/curve25519.c:752-761 | a common factor m with m^(p-1) = 1 does not change X·Z^(p-2) |
| PublicKeys.Key64IsRfcKey | src/curve25519.c:797-800 | for base point 9 the key of the 64-bit back end is the RFC 7748 key, for every secret |
| BackEndsAgree.SamePublicKey | src/curve25519.c:763-800 | for every secret the two back ends write the same 32 bytes, the RFC 7748 public key |
| SessionTable.PutKeepsWellFormed | src/session_table.c:81-115 | a put keeps the table well formed: each valid entry lies in its index's four-slot window with all earlier window slots valid, and no index is stored twice |
| SessionTable.TargetCases | src/session_table.c:81-100 | a put reuses the slot of its index, takes a free slot, or evicts the first one only when the whole window belongs to others |
| SessionTable.PutUpdatesLookup | src/session_table.c:81-115 | after a put its index reads the new address, at most one other index is displaced, and all others read what they did |
| SessionTable.RunIsWellFormed | src/session_table.c:81-139 | every state reachable from the empty table is well formed |
| SessionTable.LookupIsLatestOrMiss | src/session_table.c:47-115 | over every run a lookup misses or returns the address of the latest put of that index |
| SessionTable.SetPeerKeepsWellFormed | src/session_table.c:129-139 | assigning a peer slot changes no lookup |
| SessionTable.PeerIsLatest | src/session_table.c:81-139 | over every run a session's peer is the one last assigned to its own index since it came into the table, -1 at first; an evicted session's peer never reaches its successor |
| SessionTable.CounterCountsPuts | src/session_table.c:101-115 | over every run a slot's counter is twice the number of puts on it, modulo 2^32 |
| SessionTable.WindowSlots | src/session_table.c:33-41 | the window is four consecutive slots of 4096, going round |
| SessionTable.FindIsStored | src/session_table.c:35-45 | in a well-formed table the probe finds the index if and only if it is stored anywhere |
| SessionTable.Sessions.SessionPut | src/session_table.c:81-115 | the two probe loops and the field writes in place are the abstract put, peer slot kept or reset included |
| SessionTable.Sessions.SessionLookup | src/session_table.c:47-79 | the retrying lookup, with the counter even, is the abstract lookup |
| SessionTable.Sessions.SessionGetEntry | src/session_table.c:35-45 | the probe loop finds the entry of the index |
| SessionTable.Sessions.SetPeerSlotIfIndex | src/session_table.c:129-139 | stores the peer slot only while the entry still belongs to the index |
| SessionTable.Sessions.FindSoleEntryWithAddr | src/session_table.c:146-191 | returns the first valid entry when all valid entries have its address; otherwise the table is empty or two entries differ |
| SessionSeqlock.EvenMeansWhole | src/session_table.c:101-115 | whenever a slot's counter is even and positive, index, length and bytes are those of one put, the one the counter numbers |
| SessionSeqlock.NextKeepsWriterInv | src/session_table.c:81-115 | every single memory access of either thread keeps the writer's invariant |
| SessionSeqlock.RunKeepsInv | src/session_table.c:47-115 | the writer's and the reader's invariants hold in every state of every interleaving |
| SessionSeqlock.LookupIsNeverTorn | src/session_table.c:47-115 | over every interleaving a returned address and length were written whole by a single put, no older than the last one finished before the lookup; with at most one put on the slot during the lookup it is of the requested index; misses are the subject of the next rows |
| SessionLookups.MissIsJustified | src/session_table.c:47-79 | over every interleaving: when a lookup misses, each of its four slots was, in some state since it began, invalid or in the hands of another index |
| SessionLookups.UndisturbedLookup | src/session_table.c:47-79 | when no put touched the window since it began, a lookup ends with exactly the answer of the sequential lookup on the table of all ended puts, hit or miss |
| SessionLookups.LookupCanEnd | src/session_table.c:47-79 | from every reachable state with an idle writer, reader steps alone end the lookup |
| SessionRefinement.NextKeepsAbstract | src/session_table.c:81-115 | every step of the protocol keeps the finished slots equal to the sequential table |
| SessionRefinement.QuietTableIsSequential | src/session_table.c:81-115 | whenever the writer is idle the shared table is the sequential one after the same puts |
| SessionRefinement.TwoPutsMislead | src/session_table.c:47-79 | a concrete interleaving with two puts on the slot in which a lookup returns the address of another index |
| Blake2sStream.Mix | src/blake2s.c:34-44 | the mixing macro on the array is G of RFC 7693 |
| Blake2sStream.Compress | src/blake2s.c:46-87 | the compression in place is F of RFC 7693, from the two counter words |
| Blake2sStream.CounterAdds | src/blake2s.c:111-141 | adding to t0 and carrying into t1 when the sum wraps keeps both words of the offset counter |
| Blake2sStream.CounterValue | src/blake2s.c:111-141 | t0 + 2^32·t1 is the byte count modulo 2^64 |
| Blake2sStream.BlocksOfMessage | src/blake2s.c:97-152 | key block and data padded with zeros are the blocks of RFC 7693, the empty message and exact multiples included |
| Blake2sStream.LastBlock | src/blake2s.c:143-152 | compressing what the buffer keeps, with the final flag and the full count, completes the hash of the whole message |
| Blake2sStream.Stream.constructor | src/blake2s.c:97-109 | the initial state, keyed or not, represents no data |
| Blake2sStream.Stream.Update | src/blake2s.c:111-141 | any update appends to the data represented; the bytes compressed are counted exactly and the last block is never compressed |
| Blake2sStream.Stream.Final | src/blake2s.c:143-152 | after any sequence of updates the digest is that of RFC 7693 for the concatenation |
| Blake2sStream.Blake2s256 | src/blake2s.c:154-159 | the one-shot hash is BLAKE2s of RFC 7693, whose constants and order of steps the next four rows fix |
| Rfc7693.IvIsSquareRoots | src/blake2s.c:4-7 | the eight words are the first 32 fractional bits of the square roots of the first eight primes |
| Rfc7693Abc.DigestOfAbc | src/test_blake2s.c:14-21 | the digest of "abc" is the one of RFC 7693, appendix B |
| Rfc7693Block.DigestOfFullBlock | src/test_blake2s.c:34-43 | the digest of the 64 bytes 0 to 63, a block in which no two words are equal, is the expected one |
| Rfc7693Vectors.StartIs | src/blake2s.c:97-110 | the first chain value on vectors, for every key and output length |
| Rfc7693Vectors.LocalIs | src/blake2s.c:53-71 | how counter and final flag enter a compression, on vectors, for every chain value |
| Rfc7693Vectors.KeyAndBlock | src/blake2s.c:97-169 | a keyed hash of one block is two compressions, the key with counter 64 and the data, final, with 64 plus its length |
| Rfc7693Vectors.RoundIs | src/blake2s.c:21-84 | for all states and messages, a round of the RFC is the round on 32-bit vectors with the machine's own additions, shifts and exclusive ors |
| BvWords.BvSum | src/blake2s.c:21-32 | addition modulo 2^32 is bit-vector addition, for all words |
| BvWords.BvXor | src/blake2s.c:21-32 | the bitwise exclusive or is that of bit vectors, for all words |
| BvWords.BvRotate7 | src/blake2s.c:21-32 | rotation by 7 is the two shifts of the C macro on bit vectors, for all words |
| Blake2sStream.Blake2s128Mac | src/blake2s.c:161-169 | the keyed 16-byte hash |
| Blake2sStream.ComputeMac1Key | src/blake2s.c:171-176 | the MAC1 key is the hash of the eight label bytes followed by the public key |
| Blake2sStream.RecomputeMac1 | src/blake2s.c:178-182 | bytes 116 to 131 become the keyed hash of bytes 0 to 115, nothing else changes |
| Blake2sStream.RecomputeMac1Response | src/blake2s.c:184-188 | the same at byte 60 of a response |
| FastRand.StepIsNonZero | src/fastrand.c:6-11 | the generator never reaches the state zero, in which it would stay |
| FastRand.StepOfOne | src/fastrand.c:6-11 | the shifts 13, 7 and 17 spread the lowest bit to the bits 0, 6, 13, 17, 23 and 30 |
| FastRand.Rng.U64 | src/fastrand.c:6-11 | one call advances the state and returns it, never zero |
| FastRand.Rng.Fill | src/fastrand.c:17-28 | fills exactly the range, eight bytes a draw and the rest from one more, and leaves the state after those draws |
| Transform.HRange.Pick | src/transform.h:29-34 | the value picked always lies in the range, the full 32-bit range included |
| Transform.OverlapsIsCommonValue | src/transform.c:10-12 | two ranges overlap if and only if they share a value |
| Transform.RangesDisjoint | src/transform.c:14-59 | in a validated configuration no value belongs to two of the four ranges |
| Transform.PadsFit | src/transform.c:14-59 | in a validated configuration every padded handshake packet fits the packet buffer |
| TransformWire.ValidateAccepts | src/transform.c:14-59 | a configuration is accepted if and only if every parameter is in its range and no value belongs to two header ranges |
| Transform.KindsByBytes | src/transform.c:107-218 | the four packet kinds by size and first four bytes, both directions |
| Transform.HandshakeClassified | src/transform.c:246-306 | a handshake packet as sent is always recognised as something, and as its own kind exactly when no earlier test of the receiver takes it |
| Transform.RoundTrip | src/transform.c:107-306 | for every WireGuard packet, headroom, keys and random word, receiving what was sent gives the packet back if and only if what was sent cannot be mistaken for another kind |
| Transform.DistinctSizesRoundTrip | src/transform.c:107-306 | with distinct handshake totals, enough headroom, sizes that miss the totals and padding that spells no transport header, the round trip always succeeds |
| Transform.RestoredMacs | src/transform.c:107-306 | the restored handshake packet equals the original outside the MAC fields; with an inbound key MAC1 is the keyed hash under it and MAC2 is zero; with no key at all it is the original |
| Transform.ShortHeadroomLosesPacket | src/transform.c:199-220 | with S4 = 8 and no headroom no transport packet survives the round trip |
| TransformBuffers.ConfigRecord.ConfigValidate | src/transform.c:14-59 | the checks in their order; a configuration that passes has sizes that fit and disjoint ranges |
| TransformBuffers.ConfigRecord.ConfigCompute | src/transform.c:61-91 | fills in keys, totals and flags, and nothing else |
| TransformBuffers.DerivedIsComputed | src/transform.c:61-91 | what it computes is what both translations rely on, and validity is not affected |
| TransformBuffers.EndsShareKeys | src/transform.c:61-91 | a client and a gateway with the same two public keys use each other's MAC1 keys crosswise |
| TransformWire.KeysOfMode | src/transform.c:61-91 | outgoing MACs are keyed for the other end's public key and incoming ones for one's own, by mode; no key for the zero key; the key is the hash of `mac1----` and the public key |
| TransformWire.PeerKeysInOrder | src/transform.c:66-70 | the i-th peer's MAC1 key is made of the i-th peer's public key |
| TransformBuffers.TransformOutboundWithMac1 | src/transform.c:107-220 | in the buffer or, without headroom, in the spare one, the outgoing bytes are those of the translation; what follows the packet is untouched; junk is asked for exactly with Jc > 0 and a 148-byte packet that starts with 1, 0, 0, 0 |
| TransformWire.JunkBeforeInitiations | src/transform.c:107-220 | for a sent packet that cannot be mistaken, junk is asked for if and only if Jc > 0 and the other end takes the packet for a handshake initiation; never for an unknown packet |
| TransformWire.SentKindIsSeen | src/transform.c:107-306 | sent bytes that cannot be mistaken are taken for the kind they were sent as |
| TransformWire.SeedsDiffer | src/transform.c:142-192 | response and cookie padding come from the random word with fixed bits turned over |
| TransformBuffers.TransformInbound | src/transform.c:246-306 | in place: accepts exactly the packets the translation accepts, returns its bytes at the right offset, leaves junk untouched |
| TransformBuffers.GenerateJunk | src/transform.c:308-324 | Jc sizes, each between 1 and Jmax and at least Jmin, the i-th from the i-th draw of a generator seeded with the first junk bytes |
| HotPath.ShortcutIsGeneral | src/proxy_s2c_client.c:57-78 | whenever the inbound shortcut fires the general translation gives the same bytes at the same offset |
| HotPath.ShortcutMissesOnlySizes | src/proxy_s2c_client.c:57-78 | it declines a transport packet only for a size that equals a handshake total |
| HotPath.InboundShortcut | src/proxy_s2c_client.c:57-78 | the shortcut in place: fires under its condition, then holds the translation of the bytes it was given, else changes nothing |
| HotPath.ReceivePacket | src/proxy_s2c_client.c:57-85 | in the loop towards the client, shortcut first and general translation after it are together the general translation |
| HotPath.OutboundShortcut | src/proxy_c2s_client.c:153-171 | the outbound shortcut fires exactly for transport packets and sends what the general translation sends for some random word |
| HotPath.PickReaches | src/transform.h:29-34 | every value of a range is picked for some random word, so the shortcut's own choice is always one of the general translation's |
| Link.GatewayWithoutDisguise | src/proxy_c2s_gateway.c:105-147 | with the disguise off, the gateway's shortcut on the packet as it came makes no difference |
| Link.GatewayAgrees | src/proxy_c2s_gateway.c:105-147 | with a disguise, for every packet and receiver, the gateway's result is that of unwrapping and translating if and only if its shortcut does not fire |
| Link.ShortcutBeforeUnwrapping | src/proxy_c2s_gateway.c:105-147 | a configuration under which the gateway makes another packet of what unwrapping would give back |
| Obfs.WrappedBody | src/obfs.c:399-570 | for each of the nine disguises the receiver finds the body the sender put in, with the trailing bytes it keeps |
| Obfs.OneDelivery | src/obfs.c:97-570 | what one wrapped packet gives at a receiver in any state, and what the receiver knows afterwards |
| Obfs.SteadyStream | src/obfs.c:101-122 | over any stream to a receiver that has seen the marker, the packets still marked arrive with it, all others exactly, each with its trailing zeros |
| Obfs.LosslessStream | src/obfs.c:82-570 | between freshly started ends, for any seeds: packets 1 and from 4 on exactly, 2 and 3 with the marker in front, and tx_seq mod 4 zero bytes after it for `stun_ice` and `dns_like`, none for the other seven |
| Obfs.OffStream | src/obfs.c:124-397 | without a disguise every packet passes unchanged |
| Obfs.LostMarkersAreFatal | src/obfs.c:108-122 | once the three marked packets are lost, no later packet that does not look marked is accepted |
| Obfs.OverheadCovered | src/obfs.c:572-595 | the stated overhead bounds the added bytes for every disguise except `dns_like`, and for that one exactly under a condition on the sequence number; 40 always suffices |
| Obfs.OverheadExceeded | src/obfs.c:572-595 | a sequence number for which `dns_like` adds 40 bytes, more than the 34 stated |
| Obfs.AdmittedPacketsFit | src/obfs.c:572-595 | packets admitted by the stated overhead fit the wrap buffer all the same |
| ObfsFields.StunReads | src/obfs.c:133-157 | what an observer reads in a `stun_ice` header: request type, length of everything behind it, cookie, transaction id |
| ObfsFields.DtlsReads | src/obfs.c:159-182 | in a `dtls_record` header: type, version, epoch 0, the sequence number modulo 2^48, the length behind it |
| ObfsFields.RtpReads | src/obfs.c:184-208 | in an `rtp_media` header: version, payload type, sequence number, time stamp moved on by 3000, source |
| ObfsFields.RtpStream | src/obfs.c:184-208 | over a whole run of packets the sequence number goes up by one and the time stamp by 3000 from values of the seed, and the source never changes |
| ObfsFields.SourceReads | src/obfs.c:210-226 | in a `source_query` header: the prefix and two bytes of the sequence number |
| ObfsFields.RaknetReads | src/obfs.c:228-242 | in a `raknet` header: the 64-bit nonce, big-endian |
| ObfsFields.QuicReads | src/obfs.c:244-272 | in a `quic_short` header: first byte, three lengths, connection id, packet number |
| ObfsFields.EnetReads | src/obfs.c:274-308 | in a `game_enet` header: peer, time, counts, and each command's kind, channel and number |
| ObfsFields.KcpReads | src/obfs.c:310-356 | in a `game_kcp` header: every field, little-endian, and the length of marker, packet and padding |
| ObfsFields.DnsReads | src/obfs.c:358-395 | in a `dns_like` header: id, flags, counts, label letters, the fixed suffix, type and class |
| ObfsFields.TrailerReads | src/obfs.c:124-397 | the marker and every padding byte behind the packet |
| ObfsFields.AfterSendingIs | src/obfs.c:97-397 | the session after n packets |
| ObfsFields.ReceiverCounts | src/obfs.c:82-122 | over any packets whatever, the receiver's number counts the accepted ones, its window of 16 the ones refused for want of the marker, and nothing else changes but the marker flag |
| ObfsFields.AllowanceIsReached | src/obfs.c:572-595 | for seven disguises the stated overhead is reached by some packet, so none smaller would do |
| Link.LinkDelivers | src/transform.c:107-306 | translation, disguise, unwrapping and translation over a lossless stream: the k-th packet comes back if and only if k is 0 or at least 3, no zeros follow it, and what was sent cannot be mistaken |
| Link.ZerosLoseResponse | src/obfs.c:133-157 | a handshake response sent first over `stun_ice` or `dns_like` is lost for every seed that is not a multiple of four |
| ObfsBuffer.ObfsSession.constructor | src/obfs.c:82-95 | the starting state of a session |
| ObfsBuffer.ObfsSession.ObfsWrap | src/obfs.c:124-397 | wraps exactly the packets that fit, writes the wrapped bytes into the buffer and advances the session; otherwise changes nothing |
| ObfsBuffer.ObfsSession.MarkerUnwrapIfNeeded | src/obfs.c:108-122 | skips the marker, asks for it or passes, and remembers having seen it |
| ObfsBuffer.ObfsSession.ObfsUnwrap | src/obfs.c:399-570 | accepts exactly when there is a payload, points at it, and advances the receiver |
| ObfsBuffer.WriteQuic | src/obfs.c:244-272 | the byte loops of the QUIC-like header write the connection id and packet number in place |
| ObfsBuffer.WriteEnet | src/obfs.c:274-308 | the loop over commands writes the ENet-like header |
| ObfsBuffer.WriteDns | src/obfs.c:358-395 | the DNS-like header with its variable label |
| Recovery.StepKeepsMeaning | src/proxy_control.c:142-213 | each tick keeps the meaning of all five counters, the inactive one included, and exits exactly when a silent run reaches the guard |
| Recovery.ExitCharacterised | src/proxy_control.c:87-213 | over every trace the loop has exited if and only if some E consecutive ticks brought no remote traffic while the client's idle count stayed at most 12; until then total = S·reconnects + silent with silent < S, idle length = I·reconnects + inactive with inactive < I, and warned iff total reached the limit |
| Recovery.ReconnectsWithinRun | src/proxy_control.c:168-200 | a silent run of T ticks that has not exited has asked for exactly floor(T/S) reconnects |
| Recovery.ReconnectsWithinIdleRun | src/proxy_control.c:201-213 | m ticks in a row at which the client had been idle beyond the grace period have asked for exactly floor(m/I) reconnects |
| Recovery.RequestRule | src/proxy_control.c:142-213 | a reconnect is asked for at a tick if and only if the tick completes a multiple of S silent ticks or a multiple of I idle ones |
| Recovery.TicksOfSeconds | src/proxy_control.c:69-100 | limits are whole five-second ticks, at least one; the warning comes at half the silent limit; the grace period is a minute |
| Recovery.ReconnectsBeforeExit | src/proxy_control.c:168-200 | the run that ends in an exit has asked for floor((E-1)/S) reconnects before it |
| Recovery.SilentTimeout | src/config_runtime.c:371-391 | the derived interval is at least 30 seconds and, with a guard of 60 or more, at most half of it |
| Recovery.ComputeRemoteSilentTimeout | src/config_runtime.c:371-391 | the branches of the C code compute that interval |
| Recovery.AutoIntervalBelowExit | src/config_runtime.c:371-391 | with the derived interval the reconnect threshold is below the exit threshold if and only if the guard is at least 35 seconds |
| Recovery.ReconnectIsTriedFirst | src/proxy_control.c:87-200 | with the derived interval, the run that ends in an exit has asked for at least one reconnect before the exit tick if and only if the guard is at least 35 seconds |
| Recovery.ExitWithoutReconnect | src/proxy_control.c:87-200 | with a guard of 30 seconds, six silent ticks exit without any request |
| Recovery.Control.TriggerRecoveryReconnect | src/proxy_control.c:75-83 | requests a reconnect only while connected, a fresh port only with drift and an automatic port |
| Recovery.Control.OnTimer | src/proxy_control.c:142-213 | the handler on the fields: counters, flags consumed, requests by the rules above and the return to the preferred port |
| Recovery.Control.ControlLoop | src/proxy_control.c:85-220 | the loop exits exactly on a silent run as long as the guard |
| Batches.GsoPrefix | src/proxy_io_batch.c:57-76 | the counted prefix has segments of one size, the last possibly shorter, and no longer prefix has |
| Batches.SplitOfConcat | src/proxy.c:270-286 | splitting the coalesced datagrams by the segment size gives them back, in order, if and only if the last is not empty |
| Batches.GsoIsLossless | src/proxy_io_batch.c:57-100 | for any batch of non-empty datagrams the coalesced prefix splits into the originals |
| Batches.Sender.SendGso | src/proxy_io_batch.c:57-100 | hands the kernel exactly the prefix of equal-sized datagrams with a shorter last one, nothing when that is a single one or the call fails |
| Batches.Sender.SendBatchGso | src/proxy_io_batch.c:102-128 | whatever the kernel answers, what it was handed is a prefix of the batch, in order, without duplicates; the whole batch if every call sends something; offload is tried exactly when it can cover two datagrams and given up if and only if it then fails with one of the two permanent errors |
| Batches.SplitLoop | src/proxy.c:270-286 | the offset loop processes the segments in order and stops early only when the send batch is full |
| Batches.GsoThenGro | src/proxy_io_batch.c:57-100 | coalescing and splitting a batch of at most 32 returns the datagrams |
| CpsText.AcceptedBounds | src/cps.c:47-157 | an accepted template has 1 to 32 segments, at most 1500 static bytes and size at most 1500 |
| CpsText.ParseOfPrint | src/cps.c:47-157 | every list of printable segments within the limits is read back from its text exactly |
| CpsText.SizesAreCut | src/cps.c:112-136 | every size the number parser reads is kept modulo 2^16: `<r n>` makes n mod 65536 bytes, and is accepted exactly if that is at most 1500 |
| CpsMeaning.TagsAsWritten | src/cps.c:47-157 | the six tags as written stand for their segments, for every size and data that fit |
| CpsMeaning.NumbersAsWritten | src/cps.c:16-40 | numbers are decimal, data hexadecimal with the high digit first, either case |
| CpsTemplate.SlicesOrdered | src/cps.c:47-157 | the static slices of an accepted template are in order and disjoint |
| CpsTemplate.PackedTotal | src/cps.c:47-157 | they fill the used static data exactly |
| CpsTemplate.Template.CpsParse | src/cps.c:47-157 | the parser on the record accepts exactly the accepted texts and holds their segments |
| CpsTemplate.Template.CpsMaxSize | src/cps.c:159-179 | the sum over the segments |
| CpsTemplate.Template.Decode | src/cps.c:84-104 | decodes the hexadecimal digits behind the data in use, or refuses |
| CpsGenerate.GenFills | src/cps.c:181-233 | with room for the rest of the template exactly its size is generated, whatever counter, clock and random state |
| CpsGenerate.StaticVerbatim | src/cps.c:181-233 | static bytes appear verbatim at their offset |
| CpsGenerate.PicksInRange | src/cps.c:181-233 | random characters are letters and random digits digits |
| CpsMeaning.PieceAt | src/cps.c:181-233 | every segment's bytes stand at the offset the sizes before it give |
| CpsMeaning.NumbersInPacket | src/cps.c:215-230 | a timestamp reads the clock and a counter the packet's counter, big-endian, at that offset |
| CpsMeaning.LettersOnly | src/cps.c:6-8 | the characters that can be drawn are exactly the 52 letters |
| CpsGenerate.AcceptedFills | src/cps.c:181-233 | every accepted template makes exactly its computed size, at most 1500 bytes |
| CpsGenerate.CpsGeneratePacket | src/cps.c:181-233 | the generator in the buffer, stopping at the first segment without room |
| CpsMakers.SplitPadText | cps_generator.py:297-308 | the padding loop prints the split padding |
| CpsMakers.SplitPadSize | cps_generator.py:297-308 | padding up to 1500 bytes is split into at most two tags that sum to it |
| CpsMakers.CalcPadding | cps_generator.py:324-331 | the padding never exceeds what the MTU leaves after header and tags, for every profile range and draw |
| CpsMeaning.PaddingMeans | cps_generator.py:324-331 | with a browser range the packet gets exactly the drawn size or the limit; without one the padding is the largest that draw, 200 bytes and the limit allow |
| CpsMeaning.QuicInitialReads | cps_generator.py:358-389 | an Initial header reads back as version 1, both identifiers and the token with their lengths |
| CpsMeaning.QuicReads | cps_generator.py:392-420 | a long header reads back as version 1 and both identifiers |
| CpsMeaning.DtlsReads | cps_generator.py:485-516 | a DTLS record reads back field by field |
| CpsMakers.QuicIAccepted | cps_generator.py:358-389 | for 576 <= MTU <= 1500 and all draws the QUIC Initial template is accepted, read as its parts, and no larger than the MTU |
| CpsMakers.Quic0Accepted | cps_generator.py:392-420 | the same for QUIC 0-RTT |
| CpsMakers.DtlsAccepted | cps_generator.py:485-516 | the same for DTLS |
| CpsMakers.Http3Accepted | cps_generator.py:519-548 | the same for HTTP/3 |
| ConfText.SplitOfJoin | app.py:409-409 | splitting joined lines gives them back, except one empty line at the end |
| ConfText.KeyValue | app.py:315-319 | a printed `key = value` line is read back as that key and value |
| PeerConfText.WhiteSpace | app.py:253-275 | line ends and white space are exactly those of Python's text methods, by code point |
| PeerConfText.LinesSay | app.py:253-275 | what each comment and header line does, for any value |
| PeerConfText.KeysSay | app.py:253-275 | a key that is neither comment nor bracket sets its field |
| PeerConfText.FullPeer | app.py:302-320 | a peer with all its fields as written, line by line |
| PeerConfText.SectionText | app.py:237-250 | keys below an interface header are read, those below another header are not |
| PeerConf.ParsePeersLoop | app.py:253-275 | the parser's loop over the lines |
| PeerConf.ParseServerSectionLoop | app.py:237-250 | the interface section's loop |
| PeerConf.BuildRuntimeConfLoop | app.py:367-409 | the filter's loop, holding back each peer block until its end |
| PeerConf.FilteredPeers | app.py:367-409 | for any text, parsing the filtered text gives exactly the peers whose block lacks the comment line, in order |
| PeerConf.FilteredSection | app.py:367-409 | for any text the filtered text has the same interface section |
| PeerConf.RuntimeConfMeans | app.py:253-409 | parsing the filtered text gives exactly the non-disabled peers if and only if in each block the comment line agrees with the field; the interface section is always kept |
| PeerConf.CommentsOnlyMeans | app.py:253-409 | it does for every text in which only the comment writes the field |
| PeerConf.KeyedFieldEscapesFilter | app.py:253-409 | a text whose disabled peer is let through |
| PeerConf.ExtractInterfaceBlockLoop | app.py:278-289 | the lines before the first peer without trailing blank lines |
| PeerConf.RebuildConfLoop | app.py:292-320 | the rebuilt text |
| PeerConf.RebuildRoundTrip | app.py:292-320 | parsing a rebuilt text gives back the retained fields of every peer, in order |
| PeerConf.ParsedPeersClean | app.py:253-275 | whatever the text, the peers parsed from it can be written back |
| PeerConf.ParseRebuildParse | app.py:253-320 | for any text, parsing, rebuilding and parsing again keeps all retained fields |
| PeerConf.ChangeOnePeer | app.py:292-320 | rebuilding with one peer changed changes that peer's fields and leaves the others as they were |
| PeerConf.RebuildKeepsInterface | app.py:278-300 | the interface section of the rebuilt text is that of the lines before the first peer |

## Left out

- Sockets, epoll, timers, signals, DNS, threads, CPU pinning and start-up: ticks, received packets and answers of the kernel are inputs.
- The Flask routes, subprocesses, certificates, QR codes, geo lookup, traffic statistics and the shell scripts.
- Weak memory and the wrap of the 32-bit sequence counter: the seqlock runs under sequential consistency with an unbounded counter.
- Elliptic-curve group theory and the primality of 2^255 - 19: the keys are X·Z^(p-2), not claimed to be quotients, and `MontgomeryCurve.LadderMultiplies` takes any notion of multiple that the doubling and addition formulas respect.
- PublicKeys.ProjectivelyEqual: says nothing where both ends have become (0, 0), as for u = 0.
- Limbs51.SharpBound: leaves open which operands between the bound and 0x4a48c38962f6fb lose a bit, since that depends on what the carries happen to leave in the low limb.
- Link.LinkDelivers: for packets whose headroom covers S4; without it `Transform.RoundTrip` has the exact condition for the undisguised packet.
- `curve25519_generic` on points other than 9: the back ends are compared byte for byte for the base point only, because for other points the common factor is not known to vanish; their projective equality is proved for all points.
- Fiat32.FeMul121666: runs the general multiplication with the second operand in an array; in the C code the same expressions are written out again with the ten words as constants.
- Blake2sStream.Stream.Update: for chunks below 2^31 bytes, because the C code casts the length to `int`; packets are at most a few kilobytes.
- Blake2sStream.CounterValue: modulo 2^64, as the two counter words are.
- Recovery.ComputeRemoteSilentTimeout: for keepalives below 2^29 seconds, beyond which the C product overflows `int`.
- Recovery.Control.ControlLoop: whether the remote socket is open is one flag for the whole trace, and a timer event is one tick; the request itself is modelled for both values.
- SessionTable.Sessions.FindSoleEntryWithAddr: for entries whose stored bytes are long enough for their family; with a shorter one the C code compares bytes of a local variable that were never written.
- SessionTable.Sessions.SetPeerSlotIfIndex: sequential only; its check and its store are two accesses.
- Batches.Sender.SendGso: the kernel's answer is an input; partial acceptance inside one coalesced datagram is not modelled, and datagrams are not empty and below 2^16 bytes.
- TransformBuffers.GenerateJunk: the junk bytes are given; only the sizes are modelled.
- HotPath.ReceivePacket: one packet; the ring of precomputed H4 values is replaced by an arbitrary value of the range.
- CpsGenerate.CpsGeneratePacket: the clock is an arbitrary function of the segment; the generator's seed is the counter, as in the code.
- CpsMakers.CalcPadding: the random draws are arbitrary arguments, so ranges of the draws are not used except where the result depends on them.
- PeerConf.RebuildRoundTrip: for peers whose fields are trimmed and hold no line break, as all parsed peers are; keys the printer does not write are not retained.
- `obfs` state per session entry (allocation and reset on eviction), and the shared wrap buffer of a batch: wrapping is one packet at a time into a buffer of its own.
- `config_server_resolve_peer_for_response`, `session_find_by_addr` and the wrappers around the functions above.
- The makers for TLS, Noise, SIP, DNS and random templates, `gen_cfg` and `cps_generate_all`: they would repeat the makers above.
- Parsing of the environment, of host and port strings and of names, logging and base64.
