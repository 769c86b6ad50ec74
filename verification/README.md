# Verification of the tachyon and chatlink core

A Dafny model of the parts of the repository whose correctness is hard to see,
and proofs about it that hold for every input, every run or every reachable
state. `dafny verify dfyconfig.toml` checks it.

- **Multi-precision arithmetic** (`Arith`, `Bits`, `Limbs`, `Rsa`, `P256`,
  `X25519`, `Curve`): Montgomery products over any limb count and the RSA public
  operation; the P-256 moduli and windowed multiplication; the whole X25519
  function on 51-bit limbs, and the multiples of points that its ladder computes.
- **AES-GCM** (`Gf128`, `Clmul`, `Octets`, `Gcm`): the field product of NIST SP
  800-38D as a commutative ring, the carry-less multiplication and lane-wise
  reduction that compute it, and the stream that seals and opens messages in
  slices. The block cipher is any function on blocks.
- **TLS 1.3 client** (`TlsRecord`, `TlsSession`, `TlsTheorems`, `TlsRuns`,
  `TlsHandshake`, `TlsClient`): records, key updates and the handshake as
  transitions; what every run keeps and which connect; and the session object
  that performs the transitions.
- **Shared-memory ring** (`Ring`) and **chunked downloads** (`Hub`,
  `HubProgress`): protocols of several threads as steps, over every interleaving, with crash and restart.
- **Residency allocator** (`Engine`): models between VRAM, pinned host memory
  and disk. Any file or device call may fail.
- **Order reducer and turns** (`Reducer`, `ReducerInvariant`, `ReducerCart`,
  `ReducerTells`, `ReducerQueue`, `ReducerLoss`, `ReducerFacts`, `ReducerClose`,
  `Turns`, `TurnsAnswer`, `TurnsLoss`, `Loop`): the reducer's operations and
  rules, the turn protocol around it, and the loop that starts turns.
- **HTTP framing** (`Http`) and **JSON** (`Json`).
- `Options` and `Seqs` hold what several of these share.

Three properties that one might expect are false of the code; each has a run
that shows it and the exact condition under which it holds.

- A chunk of a download is marked as written when any body, an error's too,
  reaches its end (`Hub.ErrorBodyMarksWrongChunk`); it is right exactly when
  that body had its bytes (`Hub.MarksExact`).
- A file that takes its name has the Hub's digest and size while bodies end
  within the ranges asked for (`Hub.DigestGuards`), but a longer one is written
  past its range, over what may have been hashed, and past the end of the file
  (`Hub.LongBodyRenamed`). The hash is of the file's bytes exactly when no body
  changes a byte already hashed (`Hub.HashExact`), and the size is right exactly
  when none runs past the end (`Hub.LengthExact`).
- A question still open at the end of a turn that closes the order is in neither
  the order row nor the next turn: a quantity in dispute, or a product asked for
  in the message that confirms the close (`TurnsLoss.DisputeLostAtClose`,
  `TurnsLoss.AskedAfterCloseLost`). `ReducerClose.CloseAccounts` says for every
  turn exactly when nothing is lost.

## Model

| member | source | states |
|---|---|---|
| `Limbs.FromBytes` | tachyon/crates/tachyon-cli/src/net/rsa.rs:97-104 | the limbs are exactly the big-endian number, cut to l limbs |
| `Limbs.LessIsLess` | tachyon/crates/tachyon-cli/src/net/rsa.rs:107-109 | comparing limbs from the top decides which number is smaller, both ways |
| `Limbs.Subtract` | tachyon/crates/tachyon-cli/src/net/rsa.rs:112-120 | the array holds a - b modulo the limb range, and the borrow says whether a < b |
| `Rsa.NewKey` | tachyon/crates/tachyon-cli/src/net/rsa.rs:24-31 | a key is made exactly for odd moduli of 128 to 1024 bytes and odd exponents of at most 8, leading zeros aside, and holds exactly those numbers |
| `Rsa.NewtonDoubles` | tachyon/crates/tachyon-cli/src/net/rsa.rs:79 | one wrapping Newton step doubles the number of low bits inverted |
| `Rsa.NegatedInverseCorrect` | tachyon/crates/tachyon-cli/src/net/rsa.rs:79 | six steps give the negated inverse modulo 2^64 of every odd word |
| `Rsa.Double` | tachyon/crates/tachyon-cli/src/net/rsa.rs:123-130 | 2x mod n for every x below n, of any limb count, through the dropped top bit |
| `Rsa.RSquared` | tachyon/crates/tachyon-cli/src/net/rsa.rs:82 | 128 l doublings of 1 give R^2 mod n |
| `Rsa.AccumulateRow` | tachyon/crates/tachyon-cli/src/net/rsa.rs:136-143 | one multiply row adds a times a limb, no u128 carry overflowing |
| `Rsa.ReduceRow` | tachyon/crates/tachyon-cli/src/net/rsa.rs:144-151 | one reduction row divides t + q n by 2^64 exactly |
| `Rsa.RowKeeps` | tachyon/crates/tachyon-cli/src/net/rsa.rs:136-152 | what every row keeps: t below 2n and congruent to the partial product |
| `Rsa.Montgomery` | tachyon/crates/tachyon-cli/src/net/rsa.rs:133-159 | for every odd modulus of any limb count: the result is below n and congruent to a b R^-1 |
| `Rsa.ProductInForm` | tachyon/crates/tachyon-cli/src/net/rsa.rs:80-91 | the product of two Montgomery forms is the form of the product |
| `Rsa.Exponentiate` | tachyon/crates/tachyon-cli/src/net/rsa.rs:84-90 | square-and-multiply over the exponent's bits is the power in Montgomery form |
| `Rsa.Power` | tachyon/crates/tachyon-cli/src/net/rsa.rs:79-91 | into the form, the power, and out again: s^e mod n |
| `Rsa.Open` | tachyon/crates/tachyon-cli/src/net/rsa.rs:73-93 | answers exactly when the signature has the key's length and lies below n, and then with the len-byte big-endian sig^e mod n (section 5.2.2 of RFC 8017) |
| `Rsa.OpenUnique` | tachyon/crates/tachyon-cli/src/net/rsa.rs:73-93 | no other string of that length satisfies what Open promises |
| `P256.ModuliValid` | tachyon/crates/tachyon-cli/src/net/p256.rs:21-30 | both written constants of both moduli are right: the negated inverses and R^2 |
| `P256.Reduce` | tachyon/crates/tachyon-cli/src/net/p256.rs:96-100 | value plus carry, below twice the modulus, comes out below it and congruent |
| `P256.Add` | tachyon/crates/tachyon-cli/src/net/p256.rs:102-109 | addition modulo m, reduced |
| `P256.Sub` | tachyon/crates/tachyon-cli/src/net/p256.rs:111-121 | subtraction modulo m, reduced, through the masked add-back |
| `P256.Mul` | tachyon/crates/tachyon-cli/src/net/p256.rs:72-94 | reduced, and congruent to a b R^-1 |
| `P256.Encode` | tachyon/crates/tachyon-cli/src/net/p256.rs:123-126 | the Montgomery form |
| `P256.Decode` | tachyon/crates/tachyon-cli/src/net/p256.rs:128-132 | the number out of its form |
| `P256.Invert` | tachyon/crates/tachyon-cli/src/net/p256.rs:134-145 | a^(m-2) in Montgomery form, for both moduli |
| `P256.Digit` | tachyon/crates/tachyon-cli/src/net/p256.rs:194-196 | the 4-bit digit of the whole scalar at a window |
| `P256.Multiply` | tachyon/crates/tachyon-cli/src/net/p256.rs:199-212 | for every scalar, the windowed product is the k-fold sum, over any addition that reads as an associative operation with the point at infinity as identity |
| `X25519.Carry` | tachyon/crates/tachyon-cli/src/net/x25519.rs:27-35 | same field element; limbs below 2^54 come out tight |
| `X25519.Add` | tachyon/crates/tachyon-cli/src/net/x25519.rs:57-59 | agrees with addition modulo p; tight operands give a loose result |
| `X25519.Sub` | tachyon/crates/tachyon-cli/src/net/x25519.rs:62-64 | agrees with subtraction modulo p, no limb underflowing for a tight subtrahend |
| `X25519.ColumnsProduct` | tachyon/crates/tachyon-cli/src/net/x25519.rs:67-74 | the five folded columns carry the product but for a multiple of p, within their 128 bits |
| `X25519.Mul` | tachyon/crates/tachyon-cli/src/net/x25519.rs:67-80 | agrees with multiplication modulo p for loose operands and leaves a tight result |
| `X25519.InvertPower` | tachyon/crates/tachyon-cli/src/net/x25519.rs:88-101 | the addition chain is z^(p-2) |
| `X25519.DecodeCorrect` | tachyon/crates/tachyon-cli/src/net/x25519.rs:22-25 | the limbs are the little-endian number without its top bit |
| `X25519.Encode` | tachyon/crates/tachyon-cli/src/net/x25519.rs:37-55 | the 32 bytes of the residue below p, and of no other number |
| `X25519.Swap` | tachyon/crates/tachyon-cli/src/net/x25519.rs:103-110 | the masks exchange both elements or leave both |
| `X25519.LimbRung` | tachyon/crates/tachyon-cli/src/net/x25519.rs:125-141 | one ladder step on limbs is the step of section 5 of RFC 7748, every operand within its operation's bound; what that step is on the curve is in Curve |
| `X25519.ByteBit` | tachyon/crates/tachyon-cli/src/net/x25519.rs:121 | bit t of the bytes is bit t of the number |
| `X25519.ClampValue` | tachyon/crates/tachyon-cli/src/net/x25519.rs:115-117 | the three byte operations are RFC 7748's clamping of the number |
| `X25519.Climb` | tachyon/crates/tachyon-cli/src/net/x25519.rs:118-144 | 255 steps with deferred swaps end at the ladder's own pair |
| `X25519.Shared` | tachyon/crates/tachyon-cli/src/net/x25519.rs:114-152 | for every scalar and point: the canonical bytes of x2 z2^(p-2) of RFC 7748's ladder |
| `Curve.RungDouble` | tachyon/crates/tachyon-cli/src/net/x25519.rs:125-141 | a step takes x2 : z2 to (x2^2 - z2^2)^2 : 4 x2 z2 (x2^2 + 486662 x2 z2 + z2^2) modulo p |
| `Curve.RungAdd` | tachyon/crates/tachyon-cli/src/net/x25519.rs:125-141 | and x3 : z3 to 4 (x2 x3 - z2 z3)^2 : 4 u (x2 z3 - z2 x3)^2 |
| `Curve.TangentLaw` | tachyon/crates/tachyon-cli/src/net/x25519.rs:125-141 | the tangent at a point of y^2 = x^3 + 486662 x^2 + x meets the curve again where the doubling says |
| `Curve.ChordLaw` | tachyon/crates/tachyon-cli/src/net/x25519.rs:125-141 | the chords through two points, and through one and the other's mirror image, multiply to what the addition rests on |
| `Curve.RungIsDouble` | tachyon/crates/tachyon-cli/src/net/x25519.rs:125-141 | so the first pair of a step stands for twice its point |
| `Curve.RungIsSum` | tachyon/crates/tachyon-cli/src/net/x25519.rs:125-141 | and the second for the sum of both, when their difference has coordinate u |
| `Curve.LadderIsMultiple` | tachyon/crates/tachyon-cli/src/net/x25519.rs:118-144 | for a point of the curve none of whose multiples up to k + 1 is exceptional, the ladder ends at a pair that stands for its k-th multiple |
| `Curve.SharedIsMultiple` | tachyon/crates/tachyon-cli/src/net/x25519.rs:114-152 | what Shared puts out is that multiple's coordinate times z2^(p - 1) |
| `Gf128.Reduction` | tachyon/crates/tachyon-cli/src/net/aes_gcm.rs:150-151 | x^128 acts on every element as 1 + x + x^2 + x^7 |
| `Gf128.MulXTimes` | tachyon/crates/tachyon-cli/src/net/aes_gcm.rs:145-171 | multiplying either factor by x multiplies the product by x |
| `Gf128.MulAssociates` | tachyon/crates/tachyon-cli/src/net/aes_gcm.rs:145-171 | the standard's bit-by-bit product is associative |
| `Gf128.MulCommutes` | tachyon/crates/tachyon-cli/src/net/aes_gcm.rs:145-171 | and commutative |
| `Gf128.MulAddLeft` | tachyon/crates/tachyon-cli/src/net/aes_gcm.rs:145-171 | and distributes over addition |
| `Gf128.MulOneRight` | tachyon/crates/tachyon-cli/src/net/aes_gcm.rs:145-171 | and has the leading bit as one |
| `Clmul.TailIsSpread` | tachyon/crates/tachyon-cli/src/net/aes_gcm.rs:159-162 | the two lane-wise folds are one fold and three whole shifts |
| `Clmul.TailHalf` | tachyon/crates/tachyon-cli/src/net/aes_gcm.rs:159-162 | halving the low half multiplies what it folds into by x |
| `Clmul.ReduceJoined` | tachyon/crates/tachyon-cli/src/net/aes_gcm.rs:152-163 | reduce on three terms is the reduction of the 256-bit number they stand for, shifted by one |
| `Clmul.ReducedPoly` | tachyon/crates/tachyon-cli/src/net/aes_gcm.rs:152-163 | reducing a carry-less sum of shifted copies is the standard's product of the reduced operand |
| `Clmul.ProductJoined` | tachyon/crates/tachyon-cli/src/net/aes_gcm.rs:145-148 | the low, middle and high terms are together the whole 256-bit carry-less product |
| `Clmul.MultiplyCorrect` | tachyon/crates/tachyon-cli/src/net/aes_gcm.rs:165-167 | multiply is the product of section 6.3 of NIST SP 800-38D, for all operands |
| `Clmul.ReduceXor3` | tachyon/crates/tachyon-cli/src/net/aes_gcm.rs:169-171 | one reduction of a sum of products is the sum of their reductions |
| `Octets.FromTo` | tachyon/crates/tachyon-cli/src/net/aes_gcm.rs:140-142 | bytes to block and back |
| `Octets.FromAdd` | tachyon/crates/tachyon-cli/src/net/aes_gcm.rs:231 | adding blocks adds their bytes |
| `Octets.BeInjective` | tachyon/crates/tachyon-cli/src/net/aes_gcm.rs:213-216 | different numbers have different big-endian bytes |
| `Gcm.Expand` | tachyon/crates/tachyon-cli/src/net/aes_gcm.rs:116-121 | the eight powers are H to H^8 |
| `Gcm.FoldedBlock` | tachyon/crates/tachyon-cli/src/net/aes_gcm.rs:258-269 | one more block of the fold, ahead of the powers still to come, is one more serial absorb |
| `Gcm.PadsDiffer` | tachyon/crates/tachyon-cli/src/net/aes_gcm.rs:18-19 | within MAX_MESSAGE the counter does not wrap: no two keystream blocks, nor the tag's, are the same |
| `Gcm.CounterValue` | tachyon/crates/tachyon-cli/src/net/aes_gcm.rs:213-216 | a counter block is the nonce and then the counter as a number |
| `Gcm.LengthsValue` | tachyon/crates/tachyon-cli/src/net/aes_gcm.rs:292-309 | the last block hashed is 2^64 times the bits of associated data, plus the bits of ciphertext |
| `Gcm.CryptTwice` | tachyon/crates/tachyon-cli/src/net/aes_gcm.rs:83-99 | the counter keystream undoes itself |
| `Gcm.CryptSplit` | tachyon/crates/tachyon-cli/src/net/aes_gcm.rs:220-243 | a message cut in two is the same message |
| `Gcm.Stream.Begin` | tachyon/crates/tachyon-cli/src/net/aes_gcm.rs:194-207 | the stream starts with the hash of the padded associated data |
| `Gcm.Stream.Absorb` | tachyon/crates/tachyon-cli/src/net/aes_gcm.rs:209-211 | one serial GHASH step |
| `Gcm.Stream.PartialBytes` | tachyon/crates/tachyon-cli/src/net/aes_gcm.rs:274-290 | bytes through a partly used block: keystream, hash and position as the whole message defines them |
| `Gcm.Stream.Eight` | tachyon/crates/tachyon-cli/src/net/aes_gcm.rs:246-271 | eight blocks with one reduction leave the state of eight serial blocks |
| `Gcm.Stream.OneBlock` | tachyon/crates/tachyon-cli/src/net/aes_gcm.rs:229-235 | a whole block at its counter |
| `Gcm.Stream.Apply` | tachyon/crates/tachyon-cli/src/net/aes_gcm.rs:220-243 | output and state after any slice are those of the definition on the whole message |
| `Gcm.Stream.Finish` | tachyon/crates/tachyon-cli/src/net/aes_gcm.rs:292-309 | the tag of section 7.1 of NIST SP 800-38D over everything applied |
| `Gcm.Seal` | tachyon/crates/tachyon-cli/src/net/aes_gcm.rs:62-79 | however the message is cut into parts, the output is the sealed whole, appended |
| `Gcm.Open` | tachyon/crates/tachyon-cli/src/net/aes_gcm.rs:83-99 | accepts exactly when the tag is that of the ciphertext, and leaves the output alone otherwise |
| `Gcm.OpenInvertsSeal` | tachyon/crates/tachyon-cli/src/net/aes_gcm.rs:62-99 | opening yields a plaintext exactly when the input is that plaintext sealed |
| `TlsRecord.GcmSuiteValid` | tachyon/crates/tachyon-cli/src/net/tls.rs:431-436 | this repository's AES-GCM meets what the record layer needs of its cipher |
| `TlsRecord.NoncesDiffer` | tachyon/crates/tachyon-cli/src/net/tls.rs:156-161 | different record numbers give different nonces |
| `TlsRecord.NonceBytes` | tachyon/crates/tachyon-cli/src/net/tls.rs:156-161 | byte by byte, the nonce is the vector with the digits of the record number on its last eight bytes |
| `TlsRecord.SendsOrdered` | tachyon/crates/tachyon-cli/src/net/tls.rs:641-658 | any sends seal their records under ever later keys or numbers, none past the limit |
| `TlsRecord.NoNonceTwice` | tachyon/crates/tachyon-cli/src/net/tls.rs:641-658 | no two records of one key share a nonce; no application data at REKEY_AFTER or above (sections 5.3 and 5.5 of RFC 8446) |
| `TlsSession.MessageKeyed` | tachyon/crates/tachyon-cli/src/net/tls.rs:493-509 | keys are in place in every phase that needs them, and no message delivers plaintext |
| `TlsSession.RecordKeyed` | tachyon/crates/tachyon-cli/src/net/tls.rs:410-455 | plaintext is delivered only by application data while connected |
| `TlsTheorems.ReceiveSplit` | tachyon/crates/tachyon-cli/src/net/tls.rs:370-389 | more bytes change nothing about the whole records before them |
| `TlsTheorems.SlicingIrrelevant` | tachyon/crates/tachyon-cli/src/net/tls.rs:368-389 | feeding any pieces, with the unconsumed tail, gives the plaintext, output, state, error and tail of the whole |
| `TlsTheorems.UpdateMessage` | tachyon/crates/tachyon-cli/src/net/tls.rs:596-608 | the in-band KeyUpdate moves the receiver to the next keys |
| `TlsTheorems.PiecesJoin` | tachyon/crates/tachyon-cli/src/net/tls.rs:644 | the pieces of a send are the data, none longer than a record |
| `TlsTheorems.ChannelRecovers` | tachyon/crates/tachyon-cli/src/net/tls.rs:431-509 | a connected session that mirrors the sender recovers exactly what any sends carried, through splitting and every KeyUpdate, and mirrors it still (sections 4.6.3 and 5.2 to 5.4 of RFC 8446) |
| `TlsRuns.MessageKeeps` | tachyon/crates/tachyon-cli/src/net/tls.rs:493-608 | every handshake message keeps the phase invariant, with the server's handshake keys to read and the client's to write, the order of sealed records, and what is said in the handshake |
| `TlsRuns.RecordKeeps` | tachyon/crates/tachyon-cli/src/net/tls.rs:410-455 | and so does every record |
| `TlsRuns.ReceiveKeeps` | tachyon/crates/tachyon-cli/src/net/tls.rs:370-408 | and every call of receive, whether it fails or not |
| `TlsRuns.Run` | tachyon/crates/tachyon-cli/src/net/tls.rs:318-658 | every run of receive, send and alert calls, in any phase and order, keeps the invariant and the log's order, and no key seals more than REKEY_AFTER records and one for each call |
| `TlsRuns.ConnectedMeansAuthenticated` | tachyon/crates/tachyon-cli/src/net/tls.rs:511-594 | connected means hello, extensions, chain, signature and Finished were accepted once each, in order, over exactly the earlier messages, and both directions hold keys derived from them (section 4 of RFC 8446) |
| `TlsRuns.HandshakeUnderItsKeys` | tachyon/crates/tachyon-cli/src/net/tls.rs:511-526 | in every run, from the server's hello to its Finished the session reads with the server's handshake secret and writes with the client's, or its updates once data was sent (section 7.3 of RFC 8446) |
| `TlsRuns.ConnectedSaysFinished` | tachyon/crates/tachyon-cli/src/net/tls.rs:576-594 | in every connected run the one handshake message sent, KeyUpdates aside, is the client's Finished over every message up to the server's, under the client's handshake keys (section 4.4.4) |
| `TlsHandshake.FlightConnects` | tachyon/crates/tachyon-cli/src/net/tls.rs:470-594 | in every run that has just taken the hello, the server's flight, sealed under the server's handshake secret and cut into records in any way, connects the session; the client answers with its Finished |
| `TlsHandshake.HandshakeConnects` | tachyon/crates/tachyon-cli/src/net/tls.rs:318-594 | a whole handshake from the client's hello on: the server's hello in the clear and its flight connect, and both directions take the application secrets |
| `TlsRuns.RunNeverReusesNonce` | tachyon/crates/tachyon-cli/src/net/tls.rs:156-169 | over a whole run of fewer than 2^63 calls, alerts and replies included, no nonce is used twice under one key, and no data goes under a key that has sealed REKEY_AFTER records |
| `TlsClient.Session.constructor` | tachyon/crates/tachyon-cli/src/net/tls.rs:320-356 | a session starts where the runs do, its hello sent |
| `TlsClient.Session.SealData` | tachyon/crates/tachyon-cli/src/net/tls.rs:641-658 | the loop writes exactly the records of the definition and leaves its keys |
| `TlsClient.Session.Send` | tachyon/crates/tachyon-cli/src/net/tls.rs:635-637 | a send, in any phase with keys, is the run's send |
| `TlsClient.Session.RaiseAlert` | tachyon/crates/tachyon-cli/src/net/tls.rs:400-408 | a sealed or clear alert, and the session closed |
| `TlsClient.Session.HandleFinished` | tachyon/crates/tachyon-cli/src/net/tls.rs:576-594 | the fields after the server's Finished, and the client's own on the wire |
| `TlsClient.Session.HandleKeyUpdate` | tachyon/crates/tachyon-cli/src/net/tls.rs:596-608 | the read keys move on, and the write keys after an answer when asked |
| `TlsClient.Session.HandleMessage` | tachyon/crates/tachyon-cli/src/net/tls.rs:493-509 | one message does what the transition says |
| `TlsClient.Session.HandleHandshakes` | tachyon/crates/tachyon-cli/src/net/tls.rs:470-490 | every whole message of the buffer in turn, the tail kept |
| `TlsClient.Session.HandleProtected` | tachyon/crates/tachyon-cli/src/net/tls.rs:431-455 | an encrypted record does what the transition says |
| `TlsClient.Session.HandleRecord` | tachyon/crates/tachyon-cli/src/net/tls.rs:410-428 | a record of any kind does what the transition says |
| `TlsClient.Session.Abort` | tachyon/crates/tachyon-cli/src/net/tls.rs:391-397 | an error of this side is answered with its alert, and closes |
| `TlsClient.Session.Receive` | tachyon/crates/tachyon-cli/src/net/tls.rs:370-389 | the loop does what the definition does with the same bytes, and uses as many |
| `Ring.WriteKeeps` | tachyon/interface/tachyon.h:14-24 | a write between head and a lap past the tail changes no unread byte |
| `Ring.SpanAligned` | tachyon/interface/tachyon.h:22-24 | items start at multiples of eight and the wrap marker always fits |
| `Ring.EncodedSpells` | tachyon/interface/tachyon.h:22-24 | a frame's bytes, written where they fit, spell the frame |
| `Ring.ReadSound` | tachyon/crates/tachyon-cli/src/serve/client.rs:128-136 | reading a length finds the next item, or follows the marker to the ring's start |
| `Ring.FinishSound` | tachyon/crates/tachyon-cli/src/serve/client.rs:138-140 | the message read is the next one sent, and the tail moves past exactly its frame |
| `Ring.WaitAwake` | tachyon/crates/tachyon-cli/src/serve/client.rs:142-146 | on rings below 2^35 bytes the 32-bit futex word cannot have come round: a full ring stops the daemon first |
| `Ring.StepSound` | tachyon/crates/tachyon-cli/src/serve/client.rs:125-151 | on a ring of any size every step of either side keeps what is unread and what is being read |
| `Ring.StepGood` | tachyon/crates/tachyon-cli/src/serve/client.rs:142-151 | below 2^35 bytes every step also keeps the wake that a waiting client is owed |
| `Ring.DeliveredInOrder` | tachyon/crates/tachyon-cli/src/serve/client.rs:125-141 | on a ring of any size, in every interleaving, the client gets exactly a prefix of the messages in order, from whole frames inside the ring, and head - tail stays within ring_bytes |
| `Ring.NoLostWakeup` | tachyon/crates/tachyon-cli/src/serve/client.rs:142-151 | for rings below 2^35 bytes, a client asleep with something to read is owed the increment or the wake; with nothing owed it has read everything |
| `Hub.Span` | tachyon/crates/tachyon-cli/src/net/hub.rs:352-355 | a chunk's start and length are the limits of its place in the file |
| `Hub.SpansTile` | tachyon/crates/tachyon-cli/src/net/hub.rs:352-355 | every byte lies in exactly one chunk |
| `Hub.Missing` | tachyon/crates/tachyon-cli/src/net/hub.rs:238-242 | the first maximal run of missing chunks, or none when none is missing |
| `Hub.ClaimKeeps` | tachyon/crates/tachyon-cli/src/net/hub.rs:218-226 | a new claim is disjoint from every other |
| `Hub.BeginKeeps` | tachyon/crates/tachyon-cli/src/net/hub.rs:246-249 | an attempt asks only for chunks nobody has marked |
| `Hub.DeliverKeeps` | tachyon/crates/tachyon-cli/src/net/hub.rs:272-280 | a body of any bytes and any length leaves claims, marks and counts as they are |
| `Hub.CloseKeeps` | tachyon/crates/tachyon-cli/src/net/hub.rs:281-288 | a response that delivered its range leaves none of the run missing; any other leaves a prefix done |
| `Hub.MarkDiskKeeps` | tachyon/crates/tachyon-cli/src/net/hub.rs:291-297 | a chunk is marked on disk first, by the one worker that holds it |
| `Hub.MarkDoneKeeps` | tachyon/crates/tachyon-cli/src/net/hub.rs:291-297 | and in memory only after disk and count |
| `Hub.CrashKeeps` | tachyon/crates/tachyon-cli/src/net/hub.rs:162-189 | a killed process resumes from the state file in a good state |
| `Hub.FinishKeeps` | tachyon/crates/tachyon-cli/src/net/hub.rs:193-214 | every chunk is hashed before the rename; a mismatch forgets every mark |
| `Hub.StepKeeps` | tachyon/crates/tachyon-cli/src/net/hub.rs:162-331 | every step of any worker, the hasher or the process keeps claims disjoint, marks in order and counts right, whatever the bodies hold |
| `Hub.CountsInRun` | tachyon/crates/tachyon-cli/src/net/hub.rs:291-313 | in every run received counts each marked chunk once, the hasher has passed only chunks done, and memory, disk and count agree whenever no mark is half made |
| `Hub.DeliverMark` | tachyon/crates/tachyon-cli/src/net/hub.rs:272-280 | a body that ends within the range asked for changes no chunk marked before |
| `Hub.DeliverHash` | tachyon/crates/tachyon-cli/src/net/hub.rs:272-280 | nor any byte already hashed |
| `Hub.StepKept` | tachyon/crates/tachyon-cli/src/net/hub.rs:162-331 | every step with in-range bodies keeps the part file as marks, transfers and hasher have it |
| `Hub.MarksExact` | tachyon/crates/tachyon-cli/src/net/hub.rs:272-297 | in every run of in-range bodies, with any bytes and status, a marked chunk is right exactly when the body that marked it had the source's bytes there |
| `Hub.DigestGuards` | tachyon/crates/tachyon-cli/src/net/hub.rs:193-214 | in every such run what was hashed is what the part file holds; a target has the Hub's size and digest, and is the source exactly when every chunk's body was right |
| `Hub.MarkedIsRight` | tachyon/crates/tachyon-cli/src/net/hub.rs:162-331 | in every run whose bodies are the bytes asked for, or shorter than one chunk, a marked chunk holds the source's bytes |
| `Hub.RenamedOnlyWhole` | tachyon/crates/tachyon-cli/src/net/hub.rs:193-214 | in every run of such bodies the target is the source, with the Hub's digest |
| `Hub.ClaimsInRun` | tachyon/crates/tachyon-cli/src/net/hub.rs:218-259 | in every run, whatever the bodies, no chunk is held twice, a claim left without error misses none, no chunk is counted twice |
| `Hub.DeliverExact` | tachyon/crates/tachyon-cli/src/net/hub.rs:272-280 | a body of any length leaves bytes from..to as they were exactly when what it writes there is there already, and the file's length exactly when it ends within the file |
| `Hub.HashExact` | tachyon/crates/tachyon-cli/src/net/hub.rs:313-331 | in every run, whatever the bodies, the hash is of the part file's bytes at every moment exactly when no body changed a byte already hashed; a target then has the Hub's digest up to the Hub's size |
| `Hub.LengthExact` | tachyon/crates/tachyon-cli/src/net/hub.rs:193-214 | in every run, whatever the bodies, the file renamed has the Hub's size exactly when no body since the start ran past its end |
| `Hub.ErrorBodyMarksWrongChunk` | tachyon/crates/tachyon-cli/src/net/hub.rs:272-287 | a run in which a one-byte error body marks the one chunk of a file, in memory and on disk, and it is wrong |
| `Hub.LongBodyRenamed` | tachyon/crates/tachyon-cli/src/net/hub.rs:272-287 | a run in which a body one byte too long is hashed without that byte and renamed with it: neither the Hub's length nor its digest |
| `HubProgress.StoppedMeansDone` | tachyon/crates/tachyon-cli/src/net/hub.rs:216-234 | in every run, when all workers have stopped without an error every chunk is done |
| `HubProgress.NeverStuck` | tachyon/crates/tachyon-cli/src/net/hub.rs:193-331 | until the file has its name some worker, the hasher or the end of the download can take a step |
| `HubProgress.AttemptsInRun` | tachyon/crates/tachyon-cli/src/net/hub.rs:246-259 | no run of chunks is asked for more than five times, and a download fails only by a worker's fifth |
| `HubProgress.FinishExact` | tachyon/crates/tachyon-cli/src/net/hub.rs:193-214 | renamed exactly on a matching digest without failure; a mismatch forgets every mark, a failure none |
| `Engine.Oldest` | tachyon/crates/tachyon/src/engine.rs:396-397 | the first least recently used model that may go, or none |
| `Engine.FreePinned` | tachyon/crates/tachyon/src/engine.rs:425-433 | pinned memory is freed least recently used first until the bytes fit; it ends, and never without a holder |
| `Engine.NoneMayGo` | tachyon/crates/tachyon/src/engine.rs:394-403 | with nothing left to evict, what is used is what no eviction frees |
| `Engine.Engine.Evict` | tachyon/crates/tachyon/src/engine.rs:418-436 | the model leaves VRAM with its towers, to the host tier exactly when its parked bytes fit there, within the host limit |
| `Engine.Engine.Room` | tachyon/crates/tachyon/src/engine.rs:394-403 | barring failing calls it succeeds exactly when the request fits beside encoders, pinned models and the kept one; it evicts the least recently used, and no shorter prefix would have done |
| `Engine.Engine.Bring` | tachyon/crates/tachyon/src/engine.rs:406-414 | into VRAM from anywhere, or to disk when the device fails, within both limits |
| `Engine.Engine.MakeResident` | tachyon/crates/tachyon/src/engine.rs:386-391 | room, then the model, within both limits |
| `Engine.Engine.Unload` | tachyon/crates/tachyon/src/engine.rs:235-242 | exactly the models and encoders of other names stay |
| `Engine.Engine.Expire` | tachyon/crates/tachyon/src/engine.rs:305-321 | only overdue unpinned models leave, all of them unless a call fails; an encoder stays exactly when it is pinned or not overdue, and all do after an early failure |
| `Engine.Engine.Load` | tachyon/crates/tachyon/src/engine.rs:203-223 | the model is in VRAM under a unique name, last in order, or nothing has that name; every other model stays with its name, footprint, pin and clock, and every other encoder that is pinned or not overdue |
| `Engine.Engine.LoadEncoder` | tachyon/crates/tachyon/src/engine.rs:226-232 | an encoder within the VRAM limit, or nothing of that name |
| `Engine.Engine.OpenTower` | tachyon/crates/tachyon/src/engine.rs:358-383 | a tower beside its model, within the VRAM limit, the model never evicted for it |
| `Engine.Engine.Chat` | tachyon/crates/tachyon/src/engine.rs:326-337 | a stream's model is in VRAM when the stream starts; after failures too both limits, unique names and pinned residency hold, every model stays what it is and every encoder that is pinned or not overdue is there |
| `Engine.Engine.EndAnswer` | tachyon/crates/tachyon/src/engine.rs:549-557 | the model starts its keep-alive at the end of the answer, and stays unless that is over by the time the overdue leave |
| `Engine.Engine.Answer` | tachyon/crates/tachyon/src/engine.rs:518-557 | a whole answer from chat to drop: every token and the drop find the model in VRAM, no more tokens than asked for, the keep-alive runs from the end, and other models and live encoders stay |
| `ReducerInvariant.ApplyOk` | chatlink_bot/src/chatlink_bot/ai/llm.py:601-775 | every operation keeps the shape of cart and queue |
| `ReducerInvariant.ReduceKeepsShape` | chatlink_bot/src/chatlink_bot/ai/llm.py:529-598 | every turn keeps cart codes distinct, quantities at least one, one live yes/no, one conflict per code and one open product per text |
| `ReducerCart.AddEffect` | chatlink_bot/src/chatlink_bot/ai/llm.py:568-598 | a new line has the quantity given or one; an existing line stays, and a different quantity opens the question offering old, new and sum; no other code changes |
| `ReducerCart.ModifyEffect` | chatlink_bot/src/chatlink_bot/ai/llm.py:538-560 | total, increase and decrease set that code's quantity only, and a fall to zero or below asks instead |
| `ReducerCart.IncreaseThenDecrease` | chatlink_bot/src/chatlink_bot/ai/llm.py:538-560 | adding to a line and taking the same away leaves every quantity as it was |
| `ReducerCart.RemoveEffect` | chatlink_bot/src/chatlink_bot/ai/llm.py:612-623 | that code only is removed, and a numeral asks first |
| `ReducerCart.ChooseQtyEffect` | chatlink_bot/src/chatlink_bot/ai/llm.py:680-696 | exactly the quantity chosen, only if it was offered, and the conflict is gone |
| `ReducerCart.DisputedEffect` | chatlink_bot/src/chatlink_bot/ai/llm.py:785-801 | several quantities in one message: the line is withdrawn and all of them are offered with their sum |
| `ReducerCart.QuantitiesExact` | chatlink_bot/src/chatlink_bot/ai/llm.py:786-787 | the quantities offered are exactly those some add of the turn gave |
| `ReducerCart.ApplyOrdered` | chatlink_bot/src/chatlink_bot/ai/llm.py:601-775 | what every operation does to every code's quantity: a confirmed drop makes that code zero, confirmed lines take their first quantity where none was ordered, a choice the product's, and nothing else changes |
| `ReducerCart.ConfirmLinesEffect` | chatlink_bot/src/chatlink_bot/ai/llm.py:742-745 | a confirmed photo or repeat of distinct codes: new codes take their quantity, others keep theirs and are asked about where they differ |
| `ReducerCart.ChooseEffect` | chatlink_bot/src/chatlink_bot/ai/llm.py:671-678 | a choice puts the product's quantity, or one, on a new line, and asks where the line has another |
| `ReducerCart.ApplyBare` | chatlink_bot/src/chatlink_bot/ai/llm.py:568-598 | the lines waiting for the whole order's quantity are exactly those put in this turn without one |
| `ReducerCart.ReduceOrdered` | chatlink_bot/src/chatlink_bot/ai/llm.py:785-809 | the cart at the end of a turn: a code given two quantities is out, the whole order's quantity is on exactly the turn's lines without one, every other is as its operations left it |
| `ReducerTells.ApplyTells` | chatlink_bot/src/chatlink_bot/ai/llm.py:601-775 | every line the client is told about is in the cart with that quantity, or out of it, and no quantity changes untold |
| `ReducerQueue.ApplyLive` | chatlink_bot/src/chatlink_bot/ai/llm.py:529-536 | which proposal waits after any operation: the one put, never replaced, until a yes or no |
| `ReducerQueue.RulesLive` | chatlink_bot/src/chatlink_bot/ai/llm.py:777-783 | a photo's products are proposed exactly when nothing else waits |
| `ReducerQueue.MediaExact` | chatlink_bot/src/chatlink_bot/ai/llm.py:777-783 | and are those of the turn's adds, in order, one each where no quantity is given |
| `ReducerQueue.OfferEffect` | chatlink_bot/src/chatlink_bot/ai/llm.py:628-641 | an offer puts on a product exactly the options not rejected before |
| `ReducerQueue.RejectEffect` | chatlink_bot/src/chatlink_bot/ai/llm.py:656-669 | a rejection rejects every option on offer and leaves none |
| `ReducerQueue.NeverOfferedAgain` | chatlink_bot/src/chatlink_bot/ai/llm.py:514-876 | no turn offers an option again that was rejected |
| `ReducerLoss.ApplyKeeps` | chatlink_bot/src/chatlink_bot/ai/llm.py:601-775 | an operation leaves an open product open with its attempts, and with its quantity unless it is an offer of that text giving one; or names it by an elige, or makes it a new review line with its quantity |
| `ReducerLoss.ReviewAllExact` | chatlink_bot/src/chatlink_bot/ai/llm.py:729-732 | closing turns each open product into a review line with its own text and quantity |
| `ReducerLoss.SettleExact` | chatlink_bot/src/chatlink_bot/ai/llm.py:864-867 | a product out of attempts becomes a review line with its text and quantity, any other stays |
| `ReducerLoss.RulesKeep` | chatlink_bot/src/chatlink_bot/ai/llm.py:777-813 | the rules across operations leave every open product open, and only fill a missing quantity from the one for the whole order |
| `ReducerLoss.TurnLosesNothing` | chatlink_bot/src/chatlink_bot/ai/llm.py:815-869 | a product open at any moment of a turn, new in it or not, is named by a later elige, or is a new review line, or is open with one attempt more when nothing progressed; with its own quantity, the last an offer gave, or the whole order's where it had none |
| `ReducerLoss.ReviewsNeverRemoved` | chatlink_bot/src/chatlink_bot/ai/llm.py:562-566 | no turn removes a review line, and none leaves a product at its last attempt |
| `ReducerFacts.ApplySaid` | chatlink_bot/src/chatlink_bot/ai/llm.py:529-536 | the live proposal was put this turn or none was; an order closes exactly by confirming a close |
| `ReducerFacts.FinishShows` | chatlink_bot/src/chatlink_bot/ai/llm.py:823-862 | every item left open has its fact, said now or earlier in the turn |
| `ReducerFacts.ReduceSays` | chatlink_bot/src/chatlink_bot/ai/llm.py:721-735 | from any sound state, each open item has a matching fact of the turn, and the order is closed exactly when it was before or an operation confirmed a live close proposal |
| `ReducerFacts.ClosingProgress` | chatlink_bot/src/chatlink_bot/ai/llm.py:819-821 | a turn that closes the order counts as progress |
| `ReducerFacts.ReduceTurn` | chatlink_bot/src/chatlink_bot/ai/llm.py:514-876 | the two passes, step by step, compute the turn |
| `ReducerClose.ApplyHas` | chatlink_bot/src/chatlink_bot/ai/llm.py:601-775 | after any operation a question is open exactly when the operation opens it, or it was open and the operation does not settle it |
| `ReducerClose.OpenAt` | chatlink_bot/src/chatlink_bot/ai/llm.py:601-775 | over any stretch of a turn: open at its end exactly when open at its start and settled by none, or opened within and settled by none after that |
| `ReducerClose.RulesHas` | chatlink_bot/src/chatlink_bot/ai/llm.py:777-813 | the rules across operations open exactly a photo's proposal and one conflict for each code given two quantities |
| `ReducerClose.CloseAccounts` | chatlink_bot/src/chatlink_bot/ai/llm.py:514-876 | a turn that confirms a close ends with nothing open exactly when the conflicts open at that moment are settled after it, nothing opened after it is left, no code was given two quantities, and no photo or audio brought products |
| `Turns.StepGood` | chatlink_bot/src/chatlink_bot/handlers.py:813-934 | every arrival and every turn keeps the cursor, the batches and the orders in step |
| `Turns.AnsweredOnce` | chatlink_bot/src/chatlink_bot/handlers.py:818-833 | in every run each client message is in the batch of at most one committed turn |
| `Turns.CursorMonotone` | chatlink_bot/src/chatlink_bot/handlers.py:828-833 | the cursor never goes back; committed turns and orders are never undone |
| `Turns.OrdersAndFreshCarts` | chatlink_bot/src/chatlink_bot/handlers.py:861-934 | order rows are those of the turns that ended closed; the turn after one starts from an empty cart and queue, any other where the last ended |
| `Turns.ClosedByConfirmation` | chatlink_bot/src/chatlink_bot/handlers.py:928-933 | a committed turn writes an order exactly when its reducer confirmed a live close proposal |
| `TurnsAnswer.EndedExact` | chatlink_bot/src/chatlink_bot/handlers.py:833-934 | a turn reaches the reducer exactly when the salesman covers, there is text, the bot is on or called by name, nothing fails, the client is known, the salesman has not written since and there is something to apply; otherwise messages, orders, cart and queue stay |
| `TurnsAnswer.EndedEnabled` | chatlink_bot/src/chatlink_bot/handlers.py:842-846 | the bot is on after a turn let through unless the client opts out in it, and otherwise as it was |
| `TurnsAnswer.RunAnswers` | chatlink_bot/src/chatlink_bot/handlers.py:813-934 | both over every run |
| `TurnsAnswer.SwitchedByClient` | chatlink_bot/src/chatlink_bot/handlers.py:842-917 | between any two moments of a run the bot comes on only by name and goes off only by opting out |
| `TurnsAnswer.OptedOutLeftAlone` | chatlink_bot/src/chatlink_bot/handlers.py:842-846 | a client who opted out and does not call the bot gets no message, no order and no change of cart, whatever arrives |
| `TurnsLoss.RunLosesNothing` | chatlink_bot/src/chatlink_bot/handlers.py:813-934 | in every run, with skipped and failed turns and fresh carts, a product open at any moment of a turn is later chosen by name, put under review with the quantity it had then, or open with it for the next turn, if every close since accounts for all |
| `TurnsLoss.ReviewReachesOrder` | chatlink_bot/src/chatlink_bot/handlers.py:928-933 | a line put under review is in an order row written since, or in the queue of the next turn |
| `TurnsLoss.StalledProductReviewed` | chatlink_bot/src/chatlink_bot/ai/llm.py:835-845 | in every run MAX_INTENTOS_PRODUCTO turns in a row without progress put a product under review with its quantity |
| `TurnsLoss.CloseForgets` | chatlink_bot/src/chatlink_bot/handlers.py:876-888 | of what is open when an order closes its row has the review lines and no more, and the next turn starts from nothing |
| `TurnsLoss.RunCloseAccounts` | chatlink_bot/src/chatlink_bot/handlers.py:928-933 | in every run, an order row and its cart account for everything exactly under the condition of ReducerClose.CloseAccounts |
| `TurnsLoss.AskedAfterCloseLost` | chatlink_bot/src/chatlink_bot/handlers.py:876-933 | a run in which a product asked for in the message that confirms the close is in neither the order row nor the next turn |
| `TurnsLoss.DisputeLostAtClose` | chatlink_bot/src/chatlink_bot/handlers.py:876-933 | a run in which a quantity asked for just before the confirmation is in neither |
| `Loop.DueHasPending` | chatlink_bot/src/chatlink_bot/logic/loop.py:43-59 | the turn of a due conversation answers the client's newest message exactly when it is within the history read |
| `Loop.DueExact` | chatlink_bot/src/chatlink_bot/logic/loop.py:43-59 | due means exactly: a recent message of the client's is above the cursor and above every recent one of the salesman's, and none is younger than the delay |
| `Loop.Desk.DueConversations` | chatlink_bot/src/chatlink_bot/logic/loop.py:37-60 | exactly the due conversations, in order |
| `Loop.TickTouches` | chatlink_bot/src/chatlink_bot/logic/loop.py:63-72 | a tick answers each due conversation once and touches no other |
| `Loop.Desk.Tick` | chatlink_bot/src/chatlink_bot/logic/loop.py:63-72 | the turns of the due conversations, one after another |
| `Loop.AnsweredGood` | chatlink_bot/src/chatlink_bot/handlers.py:813-934 | a whole turn, however it ends, leaves the conversation sound and its cursor no lower |
| `Http.FindMore` | tachyon/crates/tachyon-cli/src/net/http.rs:136-143 | what is found in the buffer does not depend on what has not arrived |
| `Http.Connection.Fill` | tachyon/crates/tachyon-cli/src/net/http.rs:153-159 | a read moves bytes from the wire to the buffer and loses none |
| `Http.Connection.Until` | tachyon/crates/tachyon-cli/src/net/http.rs:135-145 | the bytes before the first terminator, however they arrived; it fails only when that is missing or too far, and then uses nothing |
| `Http.Connection.Line` | tachyon/crates/tachyon-cli/src/net/http.rs:190-201 | the next line, however it arrived; an error means that none ends within the limit, and uses nothing |
| `Http.Connection.Exact` | tachyon/crates/tachyon-cli/src/net/http.rs:162-173 | exactly n bytes when the connection holds them, and an error exactly otherwise |
| `Http.Connection.ReadChunks` | tachyon/crates/tachyon-cli/src/net/http.rs:176-187 | what it accepts is a chunked body, handed over whole with exactly the following bytes left; an error means there is none with its lines within the limit |
| `Http.Connection.UntilClosed` | tachyon/crates/tachyon-cli/src/net/http.rs:204-215 | everything to the end |
| `Http.Connection.Get` | tachyon/crates/tachyon-cli/src/net/http.rs:108-132 | a response given is the one there: the sink gets exactly its body and exactly the following bytes are left; an error means there is none within the limit; the connection is closing exactly by header or by a body without length |
| `Http.DechunkEncode` | tachyon/crates/tachyon-cli/src/net/http.rs:176-187 | the reference decoding undoes chunked encoding, with any extensions and trailers (section 7.1 of RFC 9112) |
| `Http.ResponseEncode` | tachyon/crates/tachyon-cli/src/net/http.rs:108-150 | and undoes a whole response: any status from 200 on but 204 and 304 has its body, and the sink gets none of a redirect's (section 6.3 of RFC 9112) |
| `Http.GetAll` | tachyon/crates/tachyon-cli/src/net/http.rs:108-201 | any number of well-formed responses on one connection, cut into reads in any way, give each its own body |
| `Json.ControlEscape` | tachyon/crates/tachyon/src/json.rs:197-206 | the escape of a control character reads back |
| `Json.EscapeReads` | tachyon/crates/tachyon/src/json.rs:197-206 | the escape of any Unicode character, surrogate pairs included, reads as UTF-8 that an independent decoding maps to that character |
| `Json.LoneSurrogate` | tachyon/crates/tachyon/src/json.rs:197-206 | half a pair alone reads as U+FFFD |
| `Json.StringReads` | tachyon/crates/tachyon/src/json.rs:164-179 | a printed string reads back, whatever quotes, backslashes and control characters it holds |
| `Json.ValueReads` | tachyon/crates/tachyon/src/json.rs:106-161 | a printed value is read back and exactly its text is used, whatever follows that cannot prolong a number |
| `Json.ParseUndoesDumps` | tachyon/crates/tachyon/src/json.rs:26-31 | parse(dumps(v)) is v, through nesting and repeated keys |
| `Json.Quote` | tachyon/crates/tachyon/src/json.rs:210-226 | the loop prints the string |
| `Json.Parser.ReadBody` | tachyon/crates/tachyon/src/json.rs:168-178 | runs and escapes give the string up to its quote |
| `Json.Parser.ReadNumber` | tachyon/crates/tachyon/src/json.rs:155-162 | the longest run of number bytes, read |
| `Json.Parser.ReadValue` | tachyon/crates/tachyon/src/json.rs:106-115 | the value at the index, the index moved past it |
| `Json.Parser.ReadArray` | tachyon/crates/tachyon/src/json.rs:135-153 | the items up to the bracket |
| `Json.Parser.ReadObject` | tachyon/crates/tachyon/src/json.rs:135-153 | the members up to the brace, repeated keys kept |
| `Json.ParseDocument` | tachyon/crates/tachyon/src/json.rs:26-31 | the index parser is the definition on whole documents |

## Left out

- The AES rounds and key schedule, SHA-256, HMAC and HKDF: functions without properties here.
- The P-256 group law: `P256.Multiply` holds for any associative addition with an identity, read through a view of points; ECDSA verification and SEC1 decoding are not modelled.
- That the P-256 moduli and 2^255 - 19 are prime, and so that a^(m-2) is an inverse.
- Curve.LadderIsMultiple: the multiples are given as a family of affine points joined by tangents and chords, with inverses of the differences; the group law's exceptional cases, and that such a family exists, are not proved.
- Constant-time behaviour and the wiping of secrets, except where a wiped value is read again.
- `x509.rs` and the parsing of hellos, extensions and certificates: functions of `TlsSession.Config`, which may accept or reject anything.
- The TLS transcript is the list of messages; that its SHA-256 identifies it is not modelled. The record counter is unbounded: the source ends the process at 2^64 records of one key, which no run of fewer than 2^63 calls reaches. A send before there are keys ends the process too, and is no step.
- `Tls`, the socket loop around the session, and writes to sockets.
- TlsClient.Session.HandleServerHello: the ephemeral key's wiping after a rejected hello is not modelled; the session is closed then.
- Memory ordering in the ring and in the download: steps are atomic and sequentially consistent. The 64-bit ring counters do not wrap. The daemon's code is modelled from the rules of `tachyon.h` only, each publication followed by its increment and wake.
- The poll for a closed socket in `Daemon::next`, and requests and doorbells.
- `Hub.small`, the tree listing, redirects and CDN expiry, progress reports, the flusher; failing writes of the part or state file; a file changed at the Hub between runs.
- Hub.MarkedIsRight: for bodies that are the bytes asked for, or shorter than the first chunk asked for; what any body does is in `Hub.MarksExact`, `Hub.HashExact` and `Hub.LengthExact`. State bytes are written whole.
- ReducerInvariant.ReduceKeepsShape: quantities in operations are at least one, which the parser of operations does not ensure (llm.py:141 admits zero). `ReducerFacts.ReduceSays`, `ReducerClose.CloseAccounts` and what follows from them share this hypothesis; the loss theorems do not need it.
- CUDA, decoding, tokenizers and the soft tokens of media in the engine; what `need`, parked and tower bytes really are. A shadow copy is at most the parked bytes and an encoder at most its footprint.
- In the engine `usize` sums do not overflow.
- Names, brands, sources and wording in the reducer; extraction, retrieval and rendering, which only feed it operations; its log of discarded operations.
- Messages that arrive while a turn thinks are interleaved in `Turns`, for one conversation; a tick of `Loop` runs whole turns. Introductions, aliases, sending and retries are not modelled.
- Http.Connection.Get: a sink that fails and a socket that fails in the middle of a read are not modelled; the source returns their errors.
- URL parsing, request writing, status lines and header fields: a head is read by a function given to the connection.
- Number text in JSON: any printing and reading that agree on the number; UTF-8 validity is a predicate.
- Pointers, buffers and reserved capacity of the Rust code: outputs are sequences, so aliasing and partial writes into spare capacity do not appear; `Gcm.Stream` keeps its two sixteen-byte buffers as sequences.
