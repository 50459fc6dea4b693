# Catomicals in Dafny

A verification project beside the catomicals repository. It models the parts of the system whose correctness is hard
to see by reading one function, and proves what they promise over every input, every run and every crash schedule.

- **CashAddr** (`Checksum`, `Regroup`, `CashAddr`, `PayloadNetworks`): the 40-bit checksum, the bit-regrouping loop and
  the Bitcoin Cash address printer and parser, after the "Address Format" and "Checksum" sections of the CashAddr specification.
- **Transactions and reviews** (`Bytes`, `TxCodec`, `Sighash`, `SigningRequest`): the canonical transaction codec, the
  ForkID digest of the replay-protected-sighash specification (the layout of the "Specification" section of BIP 143),
  and the framed signing request with its review.
- **Settings migration** (`Migration`): a journalled commit over the plugin and settings stores whose recovery can
  itself crash.
- **Threshold signing** (`Suites`, `ClaimLog`, `SigningGate`, `RequestBinding`, `Transport`, `TransportHistory`): the
  durable claim log, the gate that claims before it signs, the approved-request binding and the transcript-chained frames.
- **Write-once files and inventory** (`NonceGuard`, `Inventory`): nonces and operations used at most once across
  restarts, and the reachability check over managed secrets.
- **Processes and executors** (`Supervisor`, `Bootstrap`): the wallet node supervisor and the executor bootstrap.

`dafny verify dfyconfig.toml` checks everything.

## How it is modelled

- State that the source updates in place is a class with the source's fields; its methods are proved against a
  specification function, and the theorems are lemmas about that function over whole runs. Concurrency (signing calls,
  the two transport ends, async methods) is a state machine whose step is one atomic piece of one participant.
- SHA-256 is a parameter. Most results need only that it is a function. Where a digest must identify something, the
  hypothesis is that the hash separates the strings that the two computations actually feed to it; no hash into 32
  bytes is injective on all strings.
- Files, sockets, processes, clocks, signature checks, the JSON parser, decryption and the native threshold library are
  parameters or nondeterministic steps. In particular:
  - a claim-log append or header write leaves any prefix of its bytes; only a write and sync that report success count;
  - a write-once file may be created in part, and a restart may lose or shorten any file whose write did not succeed;
  - one save of the journal, of one plugin or of the settings is atomic (rename), confirming a plugin touches only that
    plugin but may leave anything there, and digests of stored records are compared as values;
  - each direction of the transport is a FIFO byte stream, and an endpoint whose failed read or write moved bytes is not
    used again.

## What turned out otherwise

- A transport payload can be delivered although its send failed: the write may put the whole frame and then report an
  error when flushing (`Transport.FailedSendDelivered`). On every run, delivery stays a prefix of the successful sends
  if and only if no such frame was lost, or the reader went out of use before taking it (`Transport.PrefixExactly`);
  a frame is lost by exactly that kind of send (`Transport.LostExactly`).
- A further managed `start` is safe if and only if no process runs, and the supervisor is disposed or no exit notice that
  still counts and no suspended task that may launch is pending (`Supervisor.SafeExactlyWhenStartable`, in every state of
  every run). One managed start, as in the desktop shell, is always made in such a state (`Supervisor.OneStartIsGuarded`);
  two at once need not be (`Supervisor.TwoStartsBreakIt`).
- A chain can report its newest profile under the scope and suite of an earlier one (`Bootstrap.MixedStatus`): what it
  shows are those of its newest profile whose suite is executable (`Bootstrap.NewestReported`), so the two agree exactly
  when the reported profile's own suite is (`Bootstrap.ShownExactly`).
- The branch that reports `executor-profile-unsupported` after a successful build cannot be taken
  (`Bootstrap.BuiltIsConfigured`).
- `request_binding_digest` frames neither the namespace strings nor the party lists. It is unambiguous all the same, for
  every request its constructors can build and before any validation (`RequestBinding.PreimageInjective`): no suite name
  starts another, the backend and the number of signers are fixed, and the online parties and the receiver are cut off by
  a tail of fixed length.

## Model

| member | source | states |
|---|---|---|
| `Checksum.ComputePolymod` | crates/chain-bitcoin-cash/src/address.rs:287-306 | The nested loop computes the checksum of the whole text as a fold of one step over 40-bit states. |
| `Checksum.FoldGenerators` | crates/chain-bitcoin-cash/src/address.rs:299-303 | The inner loop adds exactly the generators selected by the five high bits. |
| `Checksum.StepLinear` | crates/chain-bitcoin-cash/src/address.rs:297-303 | One step is linear over GF(2) in state and symbol together. |
| `Checksum.StepInjective` | crates/chain-bitcoin-cash/src/address.rs:288-303 | One step is injective on 40-bit states, because the generators' low five bits are independent. |
| `Checksum.WindowInjective` | crates/chain-bitcoin-cash/src/address.rs:287-306 | Up to eight symbols are determined by the state they lead to from any given state. |
| `Checksum.BurstDetected` | crates/chain-bitcoin-cash/src/address.rs:287-306 | At any length, two texts that differ only inside eight consecutive symbols have different checksums, so they are never both valid. |
| `Checksum.ChecksumUnique` | crates/chain-bitcoin-cash/src/address.rs:83-87 | Eight trailing symbols make the checksum zero if and only if they are those the printer computes. |
| `Regroup.ConvertBits` | crates/chain-bitcoin-cash/src/address.rs:308-334 | The accumulator loop returns exactly the plain regrouping of the bit string, errors included, for every pair of widths up to eight. |
| `Regroup.TakeIn` | crates/chain-bitcoin-cash/src/address.rs:319-320 | Shifting in a value and masking drops no pending bit. |
| `Regroup.LastGroup` | crates/chain-bitcoin-cash/src/address.rs:326-332 | The padded last group is the pending bits followed by zeros; it is zero exactly when the pending bits are. |
| `Regroup.RegroupingInverse` | crates/chain-bitcoin-cash/src/address.rs:308-334 | The unpadded form accepts exactly the images of the padded form and returns their source, so padding is unique. |
| `Regroup.RegroupingIsNumber` | crates/chain-bitcoin-cash/src/address.rs:308-334 | The padded form as arithmetic: it returns exactly the digits of the new width of the number the data spells, moved up by fewer zero bits than one digit. |
| `CashAddr.ToCashaddr` | crates/chain-bitcoin-cash/src/address.rs:73-94 | The printer builds the specified text, and refuses the ambiguous legacy network. What it prints is the prefix, a colon and spelled symbols whose checksum is zero over the text given by position: the low five bits of each prefix character, a zero, the symbols. |
| `CashAddr.ParseCashaddr` | crates/chain-bitcoin-cash/src/address.rs:96-157 | The parser returns what the specification of parsing gives, with the same error for each rejected text; the mixed-case error exactly for a text with a small and a capital letter. What it accepts, lower-cased and with the expected network's own prefix restored, has a zero checksum over that same text. |
| `CashAddr.ChecksumExact` | crates/chain-bitcoin-cash/src/address.rs:134-138 | A symbol text passes the checksum test if and only if it is a body with its own checksum. |
| `CashAddr.BodyExact` | crates/chain-bitcoin-cash/src/address.rs:140-156 | A body decodes to an address if and only if it is the body that address prints. |
| `CashAddr.CanonicalBijection` | crates/chain-bitcoin-cash/src/address.rs:73-157 | A text parses to an address if and only if, lower-cased and with its prefix restored, it is exactly what the address prints, for the matching network. |
| `CashAddr.PrintThenParse` | crates/chain-bitcoin-cash/src/address.rs:73-157 | Every printable address parses back for its own network. |
| `CashAddr.CapitalsParse` | crates/chain-bitcoin-cash/src/address.rs:96-157 | Every printable address also parses when written in capitals. |
| `CashAddr.OverwriteDetected` | crates/chain-bitcoin-cash/src/address.rs:96-157 | Overwriting up to eight consecutive payload characters of a printed address with anything leaves it unchanged or gives a text that every parse rejects. |
| `PayloadNetworks.ChecksumOfOneNetwork` | crates/chain-bitcoin-cash/src/address.rs:280-306 | No symbols pass the checksum under the prefixes of two networks: appended to two prefixes, any symbols leave different checksums. |
| `PayloadNetworks.PayloadOfOneNetwork` | crates/chain-bitcoin-cash/src/address.rs:96-157 | A payload printed for one network is rejected by every other: bare or under the other prefix for its checksum, under its own prefix for the network. |
| `TxCodec.VarIntExact` | crates/chain-bitcoin-cash/src/transaction.rs:230-319 | Each 64-bit number has exactly one accepted form, and no form is a prefix of another. |
| `TxCodec.VarBytesExact` | crates/chain-bitcoin-cash/src/transaction.rs:330-343 | Length-prefixed bytes are read back exactly from their one encoding, with any rest. |
| `TxCodec.CountExact` | crates/chain-bitcoin-cash/src/transaction.rs:321-328 | A count is accepted exactly when it is canonical and within the element limit. |
| `TxCodec.ManyInjective` | crates/chain-bitcoin-cash/src/transaction.rs:127-142 | Concatenated element encodings parse uniquely even without a count. |
| `TxCodec.DecodeExact` | crates/chain-bitcoin-cash/src/transaction.rs:85-142 | A byte string decodes to a transaction if and only if it is that transaction's encoding, within the element and size limits. |
| `TxCodec.Decode` | crates/chain-bitcoin-cash/src/transaction.rs:85-125 | The cursor-based decoder computes the specified decoding, errors included. |
| `TxCodec.Encode` | crates/chain-bitcoin-cash/src/transaction.rs:127-142 | The buffer-appending encoder computes the specified encoding. |
| `Bytes.LittleEndianAt` | crates/chain-bitcoin-cash/src/transaction.rs:127-142 | Byte `i` of a number on the wire is its digit of weight 256 to the `i`. |
| `TxCodec.Reader.ReadArray` | crates/chain-bitcoin-cash/src/transaction.rs:258-269 | A read advances the cursor by what it returns, or fails at the end of the input and leaves it. |
| `TxCodec.Reader.NextVarInt` | crates/chain-bitcoin-cash/src/transaction.rs:291-319 | The cursor's integer read is the specified one and rejects non-minimal forms. |
| `TxCodec.Reader.NextInputs` | crates/chain-bitcoin-cash/src/transaction.rs:95-105 | The input loop reads exactly the specified list and leaves the cursor after it. |
| `TxCodec.Reader.NextOutputs` | crates/chain-bitcoin-cash/src/transaction.rs:109-114 | The same for the output loop. |
| `Sighash.FromConsensus` | crates/chain-bitcoin-cash/src/transaction.rs:20-30 | A hash type is accepted if and only if bit 0x40 is set, bit 0x20 is clear and the base is ALL, NONE or SINGLE; it keeps its raw value; the missing-fork-id error is exact. |
| `Sighash.ForkIdSighash` | crates/chain-bitcoin-cash/src/transaction.rs:145-209 | The buffers and loops compute the specified digest or error; a digest exists exactly when the input does and the base type is ALL, NONE or SINGLE, and it is SHA-256 applied twice to a string described by position. |
| `Sighash.PreimagePositions` | crates/chain-bitcoin-cash/src/transaction.rs:145-209 | That string: version, the two input hashes, the signed outpoint, the script with its length, value, sequence, outputs hash, lock time and hash type, each at its place; each inner hash is zeros or SHA-256 twice over a string that lists the outpoints, the sequences or the outputs. |
| `Sighash.ViewDeterminesDigest` | crates/chain-bitcoin-cash/src/transaction.rs:145-209 | Spends with the same committed view have the same digest, for any hash. |
| `Sighash.DigestCommits` | crates/chain-bitcoin-cash/src/transaction.rs:145-209 | For every supported hash type, with a hash that separates the strings this hash type feeds to it, two digests are equal if and only if the committed views are; under ALL the view is every outpoint, sequence and output with version, lock time, script code, value and signed outpoint. |
| `Sighash.OutputsInjective` | crates/chain-bitcoin-cash/src/transaction.rs:180-195 | The outputs, hashed without a count, are determined by their bytes. |
| `Sighash.ScriptSigFree` | crates/chain-bitcoin-cash/src/transaction.rs:145-209 | Rewriting any input script never changes the digest. |
| `SigningRequest.RequestExact` | crates/chain-bitcoin-cash/src/suite.rs:52-103 | Bytes decode to a request if and only if they are its encoding within the limits, so the canonicality test after a decode cannot fail. |
| `SigningRequest.DecodedWellTyped` | crates/chain-bitcoin-cash/src/suite.rs:68-103 | Every decoded request is within the ranges its types promise. |
| `SigningRequest.ReviewExact` | crates/chain-bitcoin-cash/src/suite.rs:149-214 | A review succeeds exactly on the encoding of a request for the suite's network and hash type, and says what that request fixes. |
| `SigningRequest.ReviewRefusals` | crates/chain-bitcoin-cash/src/suite.rs:149-214 | Why the encoding of a request is refused, each cause with its error and in order; otherwise it is reviewed. |
| `SigningRequest.ReviewFixpoint` | crates/chain-bitcoin-cash/src/suite.rs:149-214 | An artifact is produced from exactly one material, its own, and exactly when it reviews some request. |
| `SigningRequest.VerifyExact` | crates/chain-bitcoin-cash/src/suite.rs:216-255 | Final verification accepts exactly the artifacts that review some request for the suite, with a signature good for the digest of that request. |
| `SigningRequest.VerifyRefusals` | crates/chain-bitcoin-cash/src/suite.rs:216-255 | Each refusal has its exact cause: the schema version, a material that gives no artifact, an artifact other than its material gives, the signature. |
| `SigningRequest.SameDigestSameTransaction` | crates/chain-bitcoin-cash/src/suite.rs:149-255 | Two reviews with one signing digest agree on everything but the input scripts. |
| `SigningRequest.SameReviewDigestSameReview` | crates/chain-bitcoin-cash/src/suite.rs:257-272 | Two artifacts with one review digest are the same artifact, whatever their suites, for a hash that separates the two materials and the two hashed strings; the network name carries no length, yet no name begins another. |
| `Migration.CrashAtomicity` | desktop/src/runtime-migration.ts:264-331 | Over every schedule of steps, crashes and crashing recoveries, when the journal disappears the stores are exactly as before with legacy settings, or exactly all targets with version 2 settings. |
| `Migration.InFlightThroughout` | desktop/src/runtime-migration.ts:293-331 | While a journal exists, only its own plugins may differ from the start. |
| `Migration.Coordinator.Recover` | desktop/src/runtime-migration.ts:264-291 | When recovery returns, no journal remains and the stores are entirely before or entirely target; the runtime is ready exactly then; it commits exactly when the first settings read succeeds on committed stores, and verification fails only if the second read does. |
| `Migration.Coordinator.RollBack` | desktop/src/runtime-migration.ts:280-290 | Rolling back makes only protocol steps, and reports success only with every before-state and the legacy settings restored and the journal gone. |
| `Migration.Coordinator.StatesMatch` | desktop/src/runtime-migration.ts:369-383 | The comparison is true exactly when every plugin holds its target, or its before-state. |
| `Migration.Coordinator.Prepare` | desktop/src/runtime-migration.ts:333-363 | The journal records, for every listed plugin, its before-state and a target that has the keys of both settings, the candidate's values at its keys, the stored values elsewhere and the stored versions. |
| `Migration.PlanMerges` | desktop/src/runtime-migration.ts:350-355 | Stores that hold every target are, field by field, the stored settings overridden by the candidates. |
| `Migration.Coordinator.ConfirmPlugins` | desktop/src/runtime-migration.ts:300-309 | Confirming stays within the journal's plugins and succeeds only with every target in place. |
| `Migration.Coordinator.Forward` | desktop/src/runtime-migration.ts:298-318 | The forward half is in flight while the journal exists, and committed when it ends well. |
| `Migration.Coordinator.Migrate` | desktop/src/runtime-migration.ts:293-331 | Whatever fails, the journal is on disk and in flight, or the stores are all-or-nothing. Success means version 2 settings with the same default, and in every listed plugin the candidate's values at its keys, the stored values elsewhere, and the stored versions; it is refused before recovery. |
| `ClaimLog.LoadRecords` | crates/cb-mpc-signer/src/session_claim.rs:310-322 | The loading loop returns the set of keys, or corruption at the first zero, bad or repeated record. |
| `ClaimLog.LoadContents` | crates/cb-mpc-signer/src/session_claim.rs:364-395 | Loading also rejects a short, foreign, misaligned or overlong file. |
| `ClaimLog.CorruptPrefix` | crates/cb-mpc-signer/src/session_claim.rs:310-322 | Once a record is bad, no records after it make the file load. |
| `ClaimLog.OpenClaims` | crates/cb-mpc-signer/src/session_claim.rs:103-132 | Opening initialises an empty file or loads it, and fails on a torn header, a corrupt log or a corrupt version 1 log. |
| `ClaimLog.ClaimState.Claim` | crates/cb-mpc-signer/src/session_claim.rs:141-177 | A claim checks, appends and only then remembers; a failed append leaves any part of the record and closes the store. |
| `ClaimLog.NothingForgotten` | crates/cb-mpc-signer/src/session_claim.rs:103-177 | After any run of opens, claims, partial writes and restarts, a file that loads and an open store hold every claim ever accepted. |
| `ClaimLog.ClaimedAtMostOnce` | crates/cb-mpc-signer/src/session_claim.rs:103-177 | Over any such run, no namespace and session are accepted twice. |
| `ClaimLog.AcceptedOnlyFresh` | crates/cb-mpc-signer/src/session_claim.rs:146-162 | An accepted session is not zero, not in the version 1 log, and never beyond the 4096 that the store retains. |
| `ClaimLog.FreshSessionAccepted` | crates/cb-mpc-signer/src/session_claim.rs:141-177 | On every run, a session that is not zero, not in the version 1 log, and neither in the file at first nor claimed since is accepted by a healthy store with room, and appends its key and the digest of domain and key. |
| `ClaimLog.FailedClosedStays` | crates/cb-mpc-signer/src/session_claim.rs:154-174 | A store that failed closed accepts nothing and changes nothing until the process ends. |
| `ClaimLog.TornIsFinal` | crates/cb-mpc-signer/src/session_claim.rs:150-177 | After a torn header or record, no open and no claim ever succeeds again. |
| `ClaimLog.CleanLog` | crates/cb-mpc-signer/src/session_claim.rs:284-337 | With no torn write and no zero key, the file is always a header and at most 4096 records that reload to the claims in memory. |
| `Suites.SuiteSplit` | crates/signing-domain/src/suite.rs:218-237 | No suite name starts another, so a name written without a length is still readable. |
| `ClaimLog.NewNamespace` | crates/cb-mpc-signer/src/session_claim.rs:57-75 | A namespace is accepted exactly when neither identifier is all zero and the backend is the threshold one, and keeps what it was given. |
| `ClaimLog.NamespaceSplit` | crates/cb-mpc-signer/src/session_claim.rs:77-82 | A namespace is read back from its bytes whatever follows, though its names carry no length. |
| `ClaimLog.KeyIdentifies` | crates/cb-mpc-signer/src/session_claim.rs:84-90 | Claim keys are equal exactly for the same namespace and session, for a hash that separates the two strings. |
| `SigningGate.ClaimBeforeSign` | crates/cb-mpc-signer/src/native.rs:349-481 | In every interleaving, across crashes, the native protocol begins at most once per namespace and session and only after its claim, and the busy flags are exactly the reservations of active calls, each owned by one. |
| `SigningGate.NativeCallsDisjoint` | crates/cb-mpc-signer/src/native.rs:401-420 | Two calls inside the native protocol have no share and no session in common. |
| `SigningGate.DoneHoldsNothing` | crates/cb-mpc-signer/src/native.rs:176-184 | A busy share is held by a call that has not finished: however a call ends, its shares are free. |
| `SigningGate.FailedReservationFrees` | crates/cb-mpc-signer/src/native.rs:416 | When the second reservation fails, the first share is given back and nothing else changes. |
| `SigningGate.ConsumedStays` | crates/cb-mpc-signer/src/native.rs:349-382 | A session once claimed is refused ever after, whether its call was cancelled, busy, mismatched or crashed. |
| `SigningGate.LocalShare.Reserve` | crates/cb-mpc-signer/src/native.rs:157-162 | Reserving succeeds exactly on a free share and leaves it busy. |
| `SigningGate.SignStarted` | crates/cb-mpc-signer/src/native.rs:401-481 | Alone, the call enters the native protocol exactly with matching, distinct, free shares and no policy, receiver, expiry or deadline error, leaves both flags as they were, and otherwise names the first check that stopped it. |
| `SigningGate.SignWithProviders` | crates/cb-mpc-signer/src/native.rs:349-382 | Nothing is claimed when cancelled or expired; otherwise the claim stays whatever follows; the answer and the entry into the native protocol are those of the sequential account, which maps each claim error and each failed check to its own error. |
| `SigningGate.AloneAgrees` | crates/cb-mpc-signer/src/native.rs:349-481 | The state machine refines the sequential account: from any state, the steps of one call without interference give its answer, claim, flags and entry, and leave every other call alone. |
| `RequestBinding.NewSignerSet` | crates/cb-mpc-signer/src/lib.rs:145-167 | A signer set is accepted exactly with a bounded name, threshold two and three parties in strictly increasing order, with the right error otherwise. |
| `RequestBinding.BeforeExact` | crates/cb-mpc-signer/src/lib.rs:158-160 | The order of party names by position: the first difference decides, and a proper prefix comes first. |
| `RequestBinding.PartiesDistinct` | crates/cb-mpc-signer/src/lib.rs:158-160 | An accepted set names three different parties. |
| `RequestBinding.ProfileTables` | crates/cb-mpc-signer/src/lib.rs:71-104 | A suite has a profile exactly if it is that profile's suite, and the name that is hashed is the suite's. |
| `RequestBinding.ChainNamesDistinct` | crates/cb-mpc-signer/src/lib.rs:89-95 | Profiles are told apart by the name of their chain, so a review for another profile's chain is a mismatch. |
| `RequestBinding.CheckOnline` | crates/cb-mpc-signer/src/lib.rs:278-291 | The quorum loop accepts exactly the lists in the order of the set; otherwise it reports whether the first offender is missing or out of place. |
| `RequestBinding.ValidateRequestParts` | crates/cb-mpc-signer/src/lib.rs:236-296 | Validation accepts exactly the consistent requests and names the first check that fails, each error with its exact condition. |
| `RequestBinding.SeparatorInjective` | crates/signing-domain/src/operation.rs:90-103 | The review binding's separator determines every field of the binding. |
| `RequestBinding.OnlineSplit` | crates/cb-mpc-signer/src/lib.rs:320-325 | The online parties and the receiver, written without a count, are read back because what follows has a fixed length. |
| `RequestBinding.PreimageInjective` | crates/cb-mpc-signer/src/lib.rs:298-333 | Two requests that the constructors can build, validated or not, have equal hashed bytes if and only if they are equal in every field. |
| `RequestBinding.DigestIdentifiesRequest` | crates/cb-mpc-signer/src/lib.rs:298-333 | Their digests are equal if and only if the requests are, for a hash that separates the two preimages. |
| `RequestBinding.RequestBindingDigest` | crates/cb-mpc-signer/src/lib.rs:298-327 | The hasher, fed update by update with loops over the parties, digests exactly the specified bytes. |
| `Transport.HeaderReads` | apps/catomicals-cli/src/cbmpc_executor_factory.rs:832-845 | A header is accepted exactly by the reader it was written for, at that point of the transcript, and gives back the length. |
| `Bytes.BigEndianAt` | apps/catomicals-cli/src/cbmpc_executor_factory.rs:796-804 | The same from the other end for the numbers of a frame header. |
| `Transport.AuthenticatedSessionTransport.constructor` | apps/catomicals-cli/src/cbmpc_executor_factory.rs:731-760 | Both ends derive the two directions' opening transcripts from the binding and the party order. |
| `Transport.AuthenticatedSessionTransport.Send` | apps/catomicals-cli/src/cbmpc_executor_factory.rs:778-814 | A send puts one frame and advances, or fails; at the limit the frame is put and the send still fails. What the transcript it advances commits to is `TransportHistory.TranscriptIsHistory`. |
| `Transport.AuthenticatedSessionTransport.Receive` | apps/catomicals-cli/src/cbmpc_executor_factory.rs:816-850 | A receive takes a frame that matches its transcript and advances, or fails without advancing; which frames match is `TransportHistory.FrameFitsOneHistory`. |
| `Transport.DeliversInOrder` | apps/catomicals-cli/src/cbmpc_executor_factory.rs:744-851 | In every interleaving, each direction delivers at most 4096 payloads: a prefix of those sent, or all of them and the one whose send failed after its whole frame; equal counts mean equal transcripts. |
| `Transport.LimitFrameNeverDelivered` | apps/catomicals-cli/src/cbmpc_executor_factory.rs:762-775 | Only the first 4096 frames written are ever delivered, in order. |
| `Transport.PrefixExactly` | apps/catomicals-cli/src/cbmpc_executor_factory.rs:778-850 | On every run and in both directions, delivery stays a prefix of the successful sends in every continuation without a further such write if and only if no frame was lost, or the receiver went out of use before it took the lost frame. |
| `Transport.LostExactly` | apps/catomicals-cli/src/cbmpc_executor_factory.rs:796-813 | A frame is lost if and only if some step of the run is a send by that side, in use, to its peer, within size and below the limit, whose write failed after the whole frame. |
| `Transport.LostIsDelivered` | apps/catomicals-cli/src/cbmpc_executor_factory.rs:816-850 | While the receiver is in use, a lost frame is delivered by receives alone. |
| `Transport.CleanPrefix` | apps/catomicals-cli/src/cbmpc_executor_factory.rs:778-850 | A run without a write that fails after its whole frame only delivers what was successfully sent. |
| `Transport.FailedSendDelivered` | apps/catomicals-cli/src/cbmpc_executor_factory.rs:811-813 | An input where the prefix fails: any payload can arrive although its send failed. |
| `Transport.NextFrameDelivered` | apps/catomicals-cli/src/cbmpc_executor_factory.rs:816-850 | On every run the next whole frame below the limit is accepted by the next clean receive. |
| `Transport.ReceivePolling` | crates/cb-mpc-signer/src/native.rs:326-345 | The cancel-aware polling loop computes the specified answer over what arrives between polls. |
| `Transport.IdlePollsVanish` | crates/cb-mpc-signer/src/native.rs:326-345 | Polls that timed out and took nothing are as if they had not been. |
| `Transport.RetryExactly` | crates/cb-mpc-signer/src/native.rs:339-342 | While both ends are in use, a failed receive may be tried again, in step with the frames, if and only if it took nothing. |
| `Transport.NothingAcrossBindings` | apps/catomicals-cli/src/cbmpc_executor_factory.rs:836-845 | Ends that were given different bindings never accept anything from each other, on any run. |
| `TransportHistory.TranscriptIsHistory` | apps/catomicals-cli/src/cbmpc_executor_factory.rs:744-775 | Two transcripts are equal if and only if binding, parties and every payload so far are, for a hash that separates the strings fed to it on the way. |
| `TransportHistory.FrameFitsOneHistory` | apps/catomicals-cli/src/cbmpc_executor_factory.rs:778-850 | After any two runs, of one session or two, the next frame of a writer is accepted by a reader if and only if they share binding and parties and the reader has received exactly what the writer has sent. |
| `NonceGuard.Directory.WriteOnce` | apps/catomicals-cli/src/chia_ergo_executor_factory.rs:818-833 | A write-once file is created only where none is, whole or in part. |
| `NonceGuard.ShareProvider.Reserve` | apps/catomicals-cli/src/chia_ergo_executor_factory.rs:605-618 | Nonces are kept only after their reservation is written. |
| `NonceGuard.ShareProvider.Sign` | apps/catomicals-cli/src/chia_ergo_executor_factory.rs:620-640 | Signing always removes the session's nonces, and succeeds only through a matching reservation and a new consumption record. |
| `NonceGuard.UsedAtMostOnce` | apps/catomicals-cli/src/chia_ergo_executor_factory.rs:712-833 | Over any run of reservations, signings, torn files and restarts, each fingerprint yields at most one share and each file is successfully written at most once. |
| `NonceGuard.SignedOnce` | apps/catomicals-cli/src/chia_ergo_executor_factory.rs:620-640 | The shares recorded are exactly the signings that were answered with success, and no fingerprint is among them twice. |
| `NonceGuard.ConsumedWasReserved` | apps/catomicals-cli/src/chia_ergo_executor_factory.rs:755-781 | A share is made only for a nonce whose reservation was written whole with the same record digest and whose consumption is new. |
| `NonceGuard.PendingSigns` | apps/catomicals-cli/src/chia_ergo_executor_factory.rs:620-640 | On every run a nonce in memory signs an accepted package, once its record is written, if and only if it is not consumed; the record is the reservation digest and the transcript. |
| `NonceGuard.ConsumptionPermanent` | apps/catomicals-cli/src/chia_ergo_executor_factory.rs:818-833 | A successfully written file is there, unchanged, in every later state. |
| `NonceGuard.RestartExactly` | apps/catomicals-cli/src/chia_ergo_executor_factory.rs:818-833 | What a crash may leave: exactly, every successfully written file, and any other whole, shortened or lost. |
| `NonceGuard.ClaimRefusedAgain` | apps/catomicals-cli/src/chia_ergo_executor_factory.rs:653-678 | An operation once claimed is refused as a replay after any later run. |
| `NonceGuard.RecordIdentifies` | apps/catomicals-cli/src/chia_ergo_executor_factory.rs:722-731 | Record digests are equal exactly for equal reservations. |
| `NonceGuard.ClaimIdentifies` | apps/catomicals-cli/src/chia_ergo_executor_factory.rs:653-678 | Operation claims share a file exactly when they are the same operation. |
| `Inventory.RefsExact` | apps/catomicals-cli/src/wallet_chain_provision.rs:904-921 | The references collected from a document are exactly the prefixed texts in it, at any depth. |
| `Inventory.ChildrenExact` | apps/catomicals-cli/src/wallet_chain_provision.rs:873-888 | A secret refers to another exactly when the reference parses to a record whose document holds the other's prefixed text. |
| `Inventory.CollectRefs` | apps/catomicals-cli/src/wallet_chain_provision.rs:904-921 | The recursive collection appends exactly those references to the queue, in order. |
| `Inventory.VisitSecrets` | apps/catomicals-cli/src/wallet_chain_provision.rs:873-888 | The work list ends on every store, visits exactly the reachable references, and fails exactly when a reachable one does not resolve. |
| `Inventory.ReadCatalog` | apps/catomicals-cli/src/wallet_chain_provision.rs:844-871 | The catalog loop collects the roots and the manifest files, and fails exactly on a bad manifest. |
| `Inventory.RootsExact` | apps/catomicals-cli/src/wallet_chain_provision.rs:844-871 | The roots are exactly the references the catalog names directly and the prefixed texts in its manifests. |
| `Inventory.ValidateInventory` | apps/catomicals-cli/src/wallet_chain_provision.rs:823-902 | The check accepts exactly when the files on disk are the reachable records, the key file and the manifests, and the directories are the expected ones. |
| `Supervisor.WalletNodeSupervisor.Dispose` | desktop/src/wallet-supervisor.ts:248-255 | Disposing interrupts the recorded child and forgets it. |
| `Supervisor.WalletNodeSupervisor.Launch` | desktop/src/wallet-supervisor.ts:356-361 | Launching starts and records one process, unless disposed. |
| `Supervisor.WalletNodeSupervisor.ChildExited` | desktop/src/wallet-supervisor.ts:384-388 | Only the current child of the current generation triggers a restart. |
| `Supervisor.AtMostOneProcess` | desktop/src/wallet-supervisor.ts:200-255 | When every managed start is made in a startable state, in every interleaving at most one process is neither exited nor interrupted, it is the recorded child, and none is left once disposed. |
| `Supervisor.NothingAfterDispose` | desktop/src/wallet-supervisor.ts:356-406 | After a dispose nothing runs, whatever was suspended. |
| `Supervisor.RestartsAfterExit` | desktop/src/wallet-supervisor.ts:384-396 | In every state of every run, the exit of a managed child of the current generation, the delay and a failed probe lead to one new recorded process, and touch no other. |
| `Supervisor.NewGenerationSettles` | desktop/src/wallet-supervisor.ts:356-406 | In every state of every run, once a restart's probe has answered or a method launches, no restart or monitor that still waits and no exit notice counts any more. |
| `Supervisor.PollsOnlyTheRecorded` | desktop/src/wallet-supervisor.ts:363-381 | A poll is only ever added for the process that is recorded, so a superseded launch stops polling. |
| `Supervisor.LaunchPollsFortyTimes` | desktop/src/wallet-supervisor.ts:356-381 | A launched process is recorded and runs through forty polls that find no node, and is given up after the fortieth, not before. |
| `Supervisor.HealthyPollEnds` | desktop/src/wallet-supervisor.ts:363-376 | A poll that finds the node ends the polling and leaves its process recorded, however the configuration call goes. |
| `Supervisor.DisposedEnds` | desktop/src/wallet-supervisor.ts:248-255 | After a dispose everything winds down: no run resumes more tasks than were pending by weight and by later exits, and nothing is started. |
| `Supervisor.GuardedIsCurrent` | desktop/src/wallet-supervisor.ts:356-361 | While every managed start is made in a startable state, a running process is the recorded child and of the current generation. |
| `Supervisor.SafeExactlyWhenStartable` | desktop/src/wallet-supervisor.ts:200-246 | In every state of every run, however many starts it had, all continuations of a further managed start keep at most one process, recorded, if and only if none runs, and the supervisor is disposed or no exit notice that counts and no start, restart or monitor that may launch is pending. |
| `Supervisor.BrokenByConfigure` | desktop/src/wallet-supervisor.ts:216-231 | A start that is about to monitor an adopted node makes a further start unsafe, even with a dead process recorded. |
| `Supervisor.BrokenByPolling` | desktop/src/wallet-supervisor.ts:363-381 | So does a monitor held up by a dead recorded process, because polling that process ends in giving it up. |
| `Supervisor.OneStartIsGuarded` | desktop/src/main.ts:490 | At most one managed start is always made in a startable state. |
| `Supervisor.TwoStartsBreakIt` | desktop/src/wallet-supervisor.ts:200-246 | An input where it fails: two managed starts whose probes both find no node run two processes, the first unrecorded. |
| `Bootstrap.BuiltExactly` | apps/catomicals-cli/src/wallet_executor_bootstrap.rs:297-326 | An executor is accepted exactly for a profile with an identifier, a signer set, an epoch and a threshold from one to its signers, whose suite is executable with its backend and whose first factory for that backend returns the profile's key. |
| `Bootstrap.RefusedExactly` | apps/catomicals-cli/src/wallet_executor_bootstrap.rs:297-326 | Otherwise the code names the first check that fails, in the order of the source, or is the factory's own. |
| `Bootstrap.BuiltIsConfigured` | apps/catomicals-cli/src/wallet_executor_bootstrap.rs:268-290 | A built executor's registration is never turned down. |
| `Bootstrap.StableSortSorts` | apps/catomicals-cli/src/wallet_executor_bootstrap.rs:255-261 | The order used is a permutation of the list, on the fields by chain first, then epoch, then identifier, and keeps equal keys as listed. |
| `Bootstrap.StableSortUnique` | apps/catomicals-cli/src/wallet_executor_bootstrap.rs:255-261 | There is only one such order, so the library's sort computes it. |
| `Bootstrap.NewestIsGreatest` | apps/catomicals-cli/src/wallet_executor_bootstrap.rs:255-261 | The newest profile of a kind is listed, of the kind, and no profile of the kind is after it in epoch, then identifier. |
| `Bootstrap.LastIsNewest` | apps/catomicals-cli/src/wallet_executor_bootstrap.rs:255-263 | After sorting, the last profile of a kind is its newest. |
| `Bootstrap.NewestReported` | apps/catomicals-cli/src/wallet_executor_bootstrap.rs:240-295 | For every profile list each chain reports a listed profile of its own that no other exceeds in epoch, then identifier, with ready exactly when that one was built with the matching key, and the error otherwise; scope and suite are those of its newest profile whose suite is executable, or as before; a chain without profiles is untouched. |
| `Bootstrap.ShownExactly` | apps/catomicals-cli/src/multichain_wallet.rs:159-222 | The scope and suite shown are the reported profile's if and only if its suite resolves and is executable. |
| `Bootstrap.MixedStatus` | apps/catomicals-cli/src/multichain_wallet.rs:203-222 | A two-profile list where the newest profile is reported under the older one's scope and suite. |
| `Bootstrap.MultiChainWalletSurface.Configure` | apps/catomicals-cli/src/multichain_wallet.rs:159-184 | Configuring resets the chain's status, or leaves everything and says whether the suite is unsupported or not executable. |
| `Bootstrap.MultiChainWalletSurface.RecordRegistered` | apps/catomicals-cli/src/multichain_wallet.rs:186-201 | A registration makes the chain ready with this profile, or changes nothing and reports the configuration error. |
| `Bootstrap.MultiChainWalletSurface.RecordFailed` | apps/catomicals-cli/src/multichain_wallet.rs:203-222 | A failure marks the chain failed with this profile and code, on the new configuration if there is one. |
| `Bootstrap.MultiChainWalletSurface.Bootstrap` | apps/catomicals-cli/src/wallet_executor_bootstrap.rs:240-295 | The loop leaves the surface, the report and the registered keys that the profiles determine in the one stable order by chain, epoch and identifier. |

## Left out

- Elliptic curves, BLS, FROST, the native threshold protocol, signature verification, encryption and TLS: parameters or abstract steps.
- Legacy Base58Check addresses, and the transaction formats of the other chains.
- Serialisation, digest strings and file permissions of the migration journal; the runtime's checkpoint hooks.
- Path, symlink and permission checks of the claim log, the claim directories and the managed roots, and the directory walk itself.
- `BoundedTransport` and wall-clock deadlines. The polling receive is modelled, but not what a receiver reads after a timed-out poll that took part of a frame: `Transport.RetryExactly` shows that it is then out of step.
- The suite table, the factories and the default seven-chain catalog: parameters of the bootstrap.
- The wallet node's status documents, signing configuration answers and command line.
- HTTP routes, command-line handling, desktop windows and user interface.
