# towers-of-pau in Dafny

A model of the core of towers-of-pau, a Go implementation of a KZG
"powers of tau" trusted-setup ceremony over BLS12-381, with proofs about
that model.

- **Transcript.** A ceremony is a list of transcripts. Each holds a list of
  G1 powers and a list of G2 powers (g^(tau^i), h^(tau^i)) and a witness
  chain. The chain is a list of running products and one public key per
  contribution.
- **Contributing.** A participant folds a secret `sec` into every
  transcript:
  - power i is multiplied by sec^(i+1), in ceremony.go, or by sec^i, in
    contribution.go;
  - the witness chain gets one new running product and one new public key.
- **Verifying.** The coordinator verifies a submission against the
  previous ceremony, in order:
  - every point lies in its prime-order subgroup;
  - the non-zero check, which is disabled in the code;
  - witness continuity, which panics instead of failing;
  - the pairing equations between consecutive powers.
- **Scheduling.** The coordinator's HTTP handlers hand out time slots to
  participants. They skip slots that expired, push waiting slots back when
  the current participant overruns, and accept or reject submissions.

The project is arranged as follows:

| file | module | models |
|---|---|---|
| wrappers.dfy | `Wrappers` | `Option`, `Result`, and `Run` for a Go call that may panic |
| scalars.dfy | `Scalars` | the scalar field mod r, `Scalar.Deserialize` (32 bytes, 0 < v < r), and the field laws used by the proofs |
| groups.dfy | `Groups` | G1, G2 and GT as abstract types; the curve library as a record of functions (`Curve`); the group laws as predicates |
| schema.dfy | `Schema` | powers of tau, witness, and ceremony values; the `Transcript` class updated in place |
| contribute.dfy | `Contribute` | ceremony.go's contribution engine |
| verify.dfy | `Verify` | ceremony.go's checks and `VerifySubmission` |
| honest.dfy | `Honest` | completeness: an honest contribution passes `VerifySubmission` |
| hex.dfy | `Hex` | `encoding/hex` and `strings.TrimPrefix`, as the JSON codec uses them |
| contribution.dfy | `Contributions` | contribution.go: `Contribution` and `BatchContribution`, updates, and the JSON codec |
| coordinator.dfy | `Scheduler` | cmd/coordinator/server.go: the `Coordinator` class and its three handlers |

Modelling conventions:

- **Panics.** A Go runtime index panic inside an update method is a
  `requires` of that method. An explicit `panic`, or a panic reachable from
  untrusted input (JSON, a submitted ceremony), is the outcome `Panicked`
  of `Run`.
- **Imperative code.** It stays imperative. `Transcript`, `Contribution`,
  `BatchContribution` and `Coordinator` are classes whose methods update
  their fields. Each update method is proved against a function of the
  old state, and the properties are proved about those functions.
- **Parameters.**
  - The secrets are parameters; in the source they come from
    `createRandom`, which is fixed to 3.
  - The wall clock is one parameter `now` per handler call.
  - The fresh ticket is a parameter.
  - A submission is a parameter `Option<Ceremony>`, where `None` means
    `Deserialize` failed.

The following behaviours of the code are modelled as written:

- **History.** `SubmitCeremony` appends the previous latest ceremony, not
  the submitted one, to the history (server.go:167). The coordinator
  therefore always verifies against, and serves, the initial ceremony.
  `Coordinator.Valid` states this, and `RetrieveParticipant` proves it for
  the ceremony it serves.
- **Registration.** `RegisterParticipant` never reclaims expired slots.
- **Retrieval.** The answer of `RetrieveParticipant` carries the caller's
  window as it was before any push-back.
- **Continuity.** `WitnessContinuityCheck` never returns false. A failed
  continuity check panics inside the handler, after the slot has been
  marked submitted and before the cursor moves.
- **JSON key.** `Contribution.UnmarshalJSON` reads the key `potPubKey`, and
  `MarshalJSON` writes `potPubkey`. Go's `encoding/json` matches keys
  case-insensitively, so both name the same field. The model has one
  field, and `MarshalRoundTrip` holds.
- **Decode failures.** `Contribution.UnmarshalJSON` returns no error when a
  point list fails to decompress; nil points are left behind. The model
  reports this outcome as `NilPoints`, separately from success.
- **Counts.** `MarshalJSON` writes the list lengths, not the stored counts.

## Model

| member | source | states |
|---|---|---|
| Scalars.Deserialize | ceremony.go:59-62 | a scalar is produced only from exactly 32 bytes, and it is never zero |
| Scalars.OneDeserializes | contribution.go:167-172 | the 32-byte encoding of one always deserialises, to one, so the "failed to generate one scalar" branch cannot be taken |
| Scalars.PowAdd | ceremony.go:70 | t^a * t^b = t^(a+b): multiplying the running scalar sec^i by sec gives sec^(i+1); the proofs of the pairing equations use the same law |
| Scalars.PowMul | ceremony.go:70 | (t*s)^k = t^k * s^k: scaling tau^k by the running scalar sec^k gives (tau*sec)^k |
| Groups.BatchUncompressG1 | contribution.go:88-92 | batch decompression succeeds exactly when every buffer decompresses, and then yields one point per buffer, the i-th being the i-th buffer's point |
| Groups.BatchUncompressG2 | contribution.go:102-106 | the same for G2: success exactly when every buffer decompresses, one point per buffer in order |
| Groups.UncompressG1 | contribution.go:88 | a point is returned only for a 48-byte input, and a 48-byte input is decoded by the curve's decompression |
| Groups.UncompressG2 | contribution.go:113 | a point is returned only for a 96-byte input, and a 96-byte input is decoded by the curve's decompression |
| Groups.PublicKey | ceremony.go:118 | the public key lies in G2 whenever multiplication keeps to the subgroups |
| Hex.Encode | contribution.go:132-134 | hex encoding writes two lower-case digits per byte |
| Hex.DigitValue | contribution.go:83 | a character decodes as a digit exactly when it is 0-9, a-f or A-F, with a value below 16 |
| Hex.TrimPrefix | contribution.go:83 | one leading "0x" is removed when present, and otherwise the text is unchanged |
| Hex.DecodePairs | contribution.go:83 | successful decoding needs an even length and writes half as many bytes, no more than the destination holds |
| Hex.DecodeInto | contribution.go:82-83 | decoding into a fresh n-byte buffer gives n bytes, with zeros after the decoded prefix |
| Hex.DecodeEncoded | contribution.go:83 | decoding the hex of b gives b back whenever the destination is large enough |
| Hex.PrefixedRoundTrip | contribution.go:81-87 | "0x" plus the hex of b, stripped and decoded into a buffer of the size of b, is b |
| Hex.UnprefixedRoundTrip | contribution.go:83 | the prefix is optional: bare hex decodes to the same bytes |
| Hex.ShortTextIsZeroPadded | contribution.go:82-83 | a text shorter than the buffer fills its front and leaves the rest zero |
| Hex.OverlongTextPanics | contribution.go:82-83 | more valid digits than the buffer holds make the decode panic |
| Contribute.ScalePowers | ceremony.go:63-68 | both lists keep their lengths, and no G1 point at or beyond numG1Powers, and no G2 point at or beyond either count, changes |
| Contribute.AppendWitness | ceremony.go:110-124 | the witness gains exactly one running product (the last one times sec) and one public key (of sec); the earlier entries are unchanged |
| Contribute.UpdatePowersOfTau | ceremony.go:58-76 | an invalid secret is refused and nothing changes; otherwise G1 power i, and G2 power i below numG2Powers, is multiplied by sec^(i+1), and nothing else changes |
| Contribute.ScaleSequentially | ceremony.go:63-74 | the sequential loop, with an accumulator multiplied by sec after each index, gives the scaling by sec^(i+1) |
| Contribute.UpdatePowersOfTauFast | ceremony.go:78-107 | the fast variant has the same outcome as UpdatePowersOfTau: the error iff the secret is invalid, and otherwise the same new powers |
| Contribute.ScalarPowers | ceremony.go:83-92 | the scalar table holds sec^(k+1) at index k, for numG1Powers entries |
| Contribute.ApplyScalars | ceremony.go:94-105 | multiplying point i by scalar i for every index below the counts gives the scaled powers |
| Contribute.UpdateWitness | ceremony.go:110-124 | an invalid secret is refused and the witness is unchanged; otherwise exactly one running product and one public key are appended |
| Contribute.FirstInvalid | ceremony.go:17-31 | the position of the first invalid secret: every secret before it is valid, and the secret at it is not |
| Contribute.UpdateTranscript | ceremony.go:17-31 | transcripts are updated in order until the first invalid secret; the ones before it receive their contribution, the rest are untouched, and an error is returned iff some secret is invalid |
| Contribute.ContributeOne | ceremony.go:21-26 | one transcript gets its powers and then its witness updated, or stays as it was when the secret is invalid |
| Verify.AllPointsInG1 | ceremony.go:133-137 | the loop answers true iff every point is in G1 |
| Verify.AllPointsInG2 | ceremony.go:138-142 | the loop answers true iff every point is in G2 |
| Verify.SubgroupChecksParticipant | ceremony.go:131-150 | true iff every power and every running product of every transcript lies in its subgroup |
| Verify.SubgroupChecksCoordinator | ceremony.go:153-177 | the participant's checks plus every public key in G2, iff |
| Verify.NonZeroCheck | ceremony.go:180-188 | the check passes every ceremony, because its comparison is commented out |
| Verify.ArrayEquals | ceremony.go:219-241 | true iff the two lists are equal, length first |
| Verify.PubkeyUniquenessCheck | ceremony.go:190-200 | the set-size comparison is true iff no public key occurs twice across all transcripts |
| Verify.WitnessContinuityCheck | ceremony.go:202-217 | returns true iff each old witness list is the new one minus exactly one trailing entry; it panics in every other case and never returns false |
| Verify.VerifyPowersPairing | ceremony.go:252-302 | true iff each group has at least two powers and every equation e(g1[i], g2[1]) = e(g1[i+1], g2[0]) and e(g1[1], g2[i]) = e(g1[0], g2[i+1]) holds |
| Verify.VerifyPairing | ceremony.go:243-250 | true iff the pairing equations hold for every transcript |
| Verify.SubmissionVerdict | ceremony.go:33-55 | accepted iff the subgroup, continuity and pairing conditions all hold; the continuity and non-zero errors are never returned |
| Verify.VerifySubmission | ceremony.go:33-55 | running the checks in source order gives the verdict above, including the continuity panic |
| Honest.ScalingKeepsProgression | ceremony.go:78-107 | scaling a progression in tau by sec^(i+offset) gives a progression in tau*sec, given the group laws for multiples of the generators |
| Honest.ProgressionPassesPairing | ceremony.go:252-302 | powers forming a progression, with two or more in each group, satisfy every pairing equation, given the group laws for multiples of the generators |
| Honest.ContributionContinuesWitness | ceremony.go:202-217 | an honest contribution extends every witness list by exactly one entry, so continuity holds |
| Honest.ContributionKeepsWellFormed | ceremony.go:17-31 | an honest contribution keeps a ceremony well formed, with tau_i replaced by tau_i*sec_i, given the group laws for multiples of the generators |
| Honest.HonestContributionAccepted | ceremony.go:33-55 | VerifySubmission accepts the ceremony an honest contribution produces from a well-formed one, given the group laws for multiples of the generators |
| Contributions.Contribution.Copy | contribution.go:55-63 | the copy is a new object equal in counts, powers and public key |
| Contributions.Contribution.UnmarshalJSON | contribution.go:65-117 | the outcome is ParseContribution's: error, panic or success; on success the receiver holds the decoded contribution |
| Contributions.BatchContribution.Copy | contribution.go:19-27 | a new batch of new, pairwise distinct contributions, each equal to its original |
| Contributions.BatchContribution.SubgroupChecks | contribution.go:29-46 | true iff every power and every public key of every contribution lies in its subgroup |
| Contributions.UpdatePowersOfTauFastContribution | contribution.go:162-197 | an invalid secret is refused and nothing changes; otherwise power i is multiplied by sec^i, starting from the scalar one |
| Contributions.UpdatePotPubkey | contribution.go:199-211 | the public key becomes the secret's, and nothing else changes |
| Contributions.UpdateContribution | contribution.go:146-160 | contributions are updated in order until the first invalid secret; the earlier ones are fully contributed, the rest untouched, and the error is returned iff some secret is invalid |
| Contributions.ContributeOne | contribution.go:150-155 | powers, then public key, for one contribution, or no change when the secret is invalid |
| Contributions.ContributionKeepsProgression | contribution.go:162-211 | an honest contribution keeps the powers a progression from exponent 0, installs the secret's public key, and passes the pairing equations, given the group laws for multiples of the generators |
| Contributions.PointText | contribution.go:133 | the text of a compressed point starts with "0x", has two hex digits per byte, and decodes back, after the prefix is trimmed, into a buffer of the same size to the same bytes |
| Contributions.MarshalJSON | contribution.go:119-143 | the counts written are the list lengths; the i-th G1 and G2 texts and the public key text are the PointText of the compressed i-th point and of the compressed public key, so each decodes back to that compressed point |
| Contributions.DecodeTexts | contribution.go:80-87 | on success there are no more texts than the declared count, and buffer i is the decode of text i (without "0x") into `size` bytes; an error returned is the hex error of some text within the count |
| Contributions.WithNilBuffers | contribution.go:80-88 | the buffer list has max(count, texts) slots, and those beyond the texts are nil |
| Contributions.ParseContribution | contribution.go:65-117 | a successful parse has counts equal to both the declared counts and the list lengths |
| Contributions.NilBufferFailsG1 | contribution.go:80-92 | batch decompression of the G1 buffers succeeds only if the count does not exceed the number of texts |
| Contributions.NilBufferFailsG2 | contribution.go:94-106 | the same for the G2 buffers |
| Contributions.DecodeTextList | contribution.go:81-87 | the hex loop, with its early returns, computes DecodeTexts |
| Contributions.DecodeWrittenTexts | contribution.go:81-87 | every text written as "0x" plus the hex of a buffer of the given size decodes back to that buffer |
| Contributions.G1TextsRoundTrip | contribution.go:80-92 | the G1 texts MarshalJSON writes decode and decompress to the original points |
| Contributions.G2TextsRoundTrip | contribution.go:94-106 | the G2 texts MarshalJSON writes decode and decompress to the original points |
| Contributions.MarshalRoundTrip | contribution.go:65-143 | unmarshalling what MarshalJSON wrote gives back the contribution, with its counts replaced by the list lengths |
| Contributions.CountBelowTextsPanics | contribution.go:80-87 | a declared count below the number of texts panics, if no earlier text is malformed |
| Contributions.DecodeAllOk | contribution.go:80-87 | texts that are all valid hex, no more of them than the count, decode without error |
| Contributions.FirstBadTextFails | contribution.go:83-86 | when the first malformed text lies within the count, the loop returns exactly that text's hex error |
| Contributions.BadG1TextReported | contribution.go:80-87 | UnmarshalJSON returns the first malformed G1 text's hex error as it stands |
| Scheduler.NextSlot | cmd/coordinator/server.go:49-56 | the new slot takes the next index and the ticket, is not submitted, lasts 20 seconds, and starts 5 seconds from now when nobody is waiting, else 120 seconds after the last slot's deadline |
| Scheduler.RegisterKeepsSchedule | cmd/coordinator/server.go:49-58 | the appended slot keeps the indices, the 20-second windows and the 120-second gaps |
| Scheduler.ReclaimedTo | cmd/coordinator/server.go:97-104 | the reclaim loop stops at the first slot that is submitted or not yet expired, never past the caller's slot, and every slot it skips was expired |
| Scheduler.Delayed | cmd/coordinator/server.go:122-123 | a delayed slot starts 10 seconds later, keeps its duration, and keeps its index, ticket and submitted flag |
| Scheduler.PushedBack | cmd/coordinator/server.go:118-123 | the list keeps its length, slots before `from` are unchanged, and every slot from `from` on is Delayed |
| Scheduler.PushbackKeepsSchedule | cmd/coordinator/server.go:118-123 | pushing back every slot after the current one keeps the schedule; waiting slots keep their durations, and the current slot and those before it are unchanged |
| Scheduler.AdvanceKeepsConsistent | cmd/coordinator/server.go:97-109 | moving the cursor forward keeps the coordinator invariant |
| Scheduler.SubmitKeepsConsistent | cmd/coordinator/server.go:145-170 | marking the current slot submitted, advancing the cursor and appending the latest ceremony keep the invariant |
| Scheduler.Coordinator.NewCoordinator | cmd/coordinator/server.go:25-34 | no slots, cursor 0, a history of just the initial ceremony, 10 rounds |
| Scheduler.Coordinator.RegisterParticipant | cmd/coordinator/server.go:46-70 | one slot is appended under its ticket (start now+5 when it is current at once, else 120 s after the last deadline; deadline start+20), and nothing else changes |
| Scheduler.Coordinator.RetrieveParticipant | cmd/coordinator/server.go:81-133 | unknown or past tickets get 403 with no change; otherwise the cursor moves to ReclaimedTo; a current slot past its deadline gets 403 and is skipped; a live current slot gets the latest ceremony, always the initial one; a waiting slot whose start has passed pushes back all later slots |
| Scheduler.Coordinator.Reclaim | cmd/coordinator/server.go:97-104 | the loop leaves the cursor at ReclaimedTo and changes nothing else |
| Scheduler.Coordinator.PushBack | cmd/coordinator/server.go:118-123 | every slot after the current one moves 10 s later, and the invariant holds |
| Scheduler.Coordinator.SubmitCeremony | cmd/coordinator/server.go:135-178 | a ticket whose slot is not current gets 403 with no change; otherwise the slot is marked submitted, then: an undecodable submission gets 400, a failed verification gets 400, an accepted one gets 200 and the previous latest ceremony is appended, each time with the cursor advanced once; a verification panic leaves the cursor in place |

## Left out

- Contribute.UpdatePowersOfTau: requires the counts to fit the lists. Go would panic on an index past a list instead; this applies to every update method that indexes by the declared counts.
- Contribute.UpdatePowersOfTauFast: also requires a non-negative numG1Powers, since `make` and `WaitGroup.Add` would panic on a negative one.
- Contributions.UpdatePowersOfTauFastContribution: the same two requirements as the fast transcript update.
- Contribute.UpdateWitness: requires a non-empty list of running products. Go would panic when reading the last one.
- Contribute.UpdateTranscript: requires the transcripts to be distinct objects. An aliased transcript would receive two contributions in Go.
- Contributions.UpdateContribution: requires distinct contribution objects, for the same reason.
- Contributions.Contribution.UnmarshalJSON: the receiver's state after an error, a panic or a nil point list is not specified.
- Contributions.Contribution.UnmarshalJSON: a count too large to allocate makes Go's `make` panic or run out of memory; the model has no allocation limit and treats such a count like any other.
- Scalar multiplication's `ok == false` branch ("Scalar mult returned false") is not modelled, because a product of non-zero scalars modulo the prime r is never zero. The same goes for the "invalid pk" branches: `P2Affine.From` of a valid secret never returns nil.
- The goroutines of the fast updates and of `verifyPairing` are modelled as sequential loops. They write disjoint indices, or only count failures, so the result does not depend on the order.
- In the model, the fast variants compute the new powers into a copy, which replaces the old powers at the end; the source's goroutines write the points in place. The model therefore does not capture a partially updated list being visible while the update runs.
- Mutexes, the unsynchronised `currentSlot++` outside the slot mutex in `SubmitCeremony`, and HTTP routing are not modelled. Each handler call is one atomic step.
- Every clock read inside one handler is one value `now`.
- The status-500 paths for JSON marshalling and the history file write are not modelled, and neither is printing.
- `createRandom`, `getTicket` and the wiping of secrets with `rand.Read` are left out. Secrets and tickets are parameters.
- Hex.HexError: JSON strings are modelled as sequences of characters, while `hex.Decode` works on their UTF-8 bytes. Success, error and panic agree on every input, since no byte of a non-ASCII character is a hex digit; but for a non-ASCII character the model reports the character itself, where Go reports the first byte of its UTF-8 encoding.
- JSON text parsing (`json.Unmarshal`, `json.Marshal`) is not modelled. `UnmarshalJSON` starts from the parsed object, and `MarshalJSON` stops at it.
- The ceremony schema's own JSON codecs (`Deserialize`, `SerializeJSONCeremony`, and `P1Affine.UnmarshalJSON`, which does not compile) are not part of this model.
- `PowersOfTau.Copy` is not part of this model. The powers are copied as values.
- Pointer identity of the public key is not modelled, and neither is the difference between affine and projective points: they are identified.
- A `*slot` pointer is represented by the slot's index in the list.
- The pairing, the subgroup tests and point (de)compression are abstract functions of a `Curve` record. The algebraic facts the proofs need are explicit preconditions: `GroupLaws` states composition of scalars only for multiples of the generators (points outside the prime-order subgroups do not compose modulo r) and bilinearity of the pairing on generator multiples; `SubgroupsClosed` and `CompressionInvertible` state closure of the subgroups and canonical compression.
- The participant client, the verifier and wasm commands, and the coordinator's `main` are outside the core.
