# Verified model of the remote signer

This project models the parts of the remote signer that branch and keep state, and proves what
they promise, in Dafny 4.11. `dafny verify dfyconfig.toml` checks everything.

* **BER to DER** (`Bytes`, `BerSyntax`, `BerReader`, `BerGrammar`, `BerConverter`, `BerTheorems`,
  `BerExamples`). A tree of tagged elements in which each constructed element remembers its length form, one
  printer, and a reference decoder that never looks outside the enclosing element. The converter
  is written in the shape of `ber.go` (offsets into the whole input, a parent's overrun noticed
  late, a length filled into a buffer from its end) and proved equal to the decoder. The format is
  ITU-T X.690, sections 8.1.2, 8.1.3, 8.1.5 and 10.1; "DER" means definite, minimal lengths only.
* **CMS details** (`Cms`). Joining content fragments and removing PKCS#7 padding.
* **Key sources and candidates** (`KeySource`, `KeyMaterial`). Fingerprints, and building a key from
  KMS, AES-GCM and serialization as functions that obey only their inverse laws and the sizes of
  serialized keys.
* **Initialization gate** (`InitGate`, `InitGateObjects`). Concurrent callers around one shared run as
  interleaved events, and the shared heap object with its cloned replies.
* **Key lifecycle** (`KeyLifecycle`, `KeyHistory`, `KeyStartup`, `HostStartup`). Host, enclave and
  secret store with crashes, lost replies, retries and ambiguous updates. The gate inside it is the one of `InitGate`.
* **Byte proxy** (`ByteProxy`, `Totals`, `ByteProxyInvariant`, `ByteProxyHistory`,
  `ByteProxyShutdown`, `ByteProxySetup`). Accept loops, semaphores, WaitGroup, bridges with two copies each, and the shutdown sequence, as
  interleaved events over any number of services and connections.
* **Attestation** (`Attestation`, `AttestationCache`). Certificate windows, the refresh schedule over
  64-bit durations, and the cache with its refresher and readers.
* **KMS failover and its errors** (`KmsErrors`, `Failover`, `EnclaveInit`).
* **Route headers** (`AwsRoute`, `Routing`).

Assumptions, besides the inverse laws of the cryptographic functions (`KeyMaterial.Lawful`, which
`KeyMaterial.LawsConsistent` shows can be met):

* A serialized secret key has 32 bytes for BLS and 64 for Ed25519, and no other size is
  deserialized (`internal/enclave/common/crypto/bls/const.go:24-25`,
  `internal/enclave/common/crypto/ed25519/ed25519.go:74-77`; for BLS the library enforces it).
* SHA-256 is injective: a fingerprint is the string that is hashed.
* Lifecycle: one host process at a time, which is the enclave's only client; a request reaches at
  most one enclave process and dies with it; a secret update takes effect before the host goes on
  or not at all, reads see the last update, and nobody else writes the secret.
* Proxy progress (used only for `ByteProxyShutdown.NotStuck`): Accept fails once its listener is closed, a dial fails
  once its context is cancelled, a copy ends once one of its ends is closed.
* The host's clock is past Go's zero instant.

Where the code and its text differ, the model follows the code:

* The comment at `internal/common/byteproxy/byteproxy.go:215-217` says that bridges past their dial
  are unblocked by closing the listeners. Closing a listener does not touch a bridge; it is the
  `shutdownCh` case of `pipe` (`byteproxy.go:372-385`) that closes both ends.
* A certificate bound at Go's zero instant reads as "unset" in the certificate-window loop, so the
  window is the intersection only under the condition of `Attestation.WindowIsIntersection`.

## Model

| member | source | states |
|---|---|---|
| BerConverter.BerToDer | internal/enclave/provider/enclave/kmsrecipient/ber.go:29-42 | Returns the conversion defined by the reference decoder, or fails exactly when that does |
| BerConverter.ReadBerObject | internal/enclave/provider/enclave/kmsrecipient/ber.go:44-74 | Read against the whole input, an object yields the normal form of what the window-confined decoder reads there, with the same end, or both fail |
| BerConverter.ReadBerTag | internal/enclave/provider/enclave/kmsrecipient/ber.go:76-90 | Tag octets, end and the constructed bit of the tag at an offset, or failure |
| BerConverter.ReadBerHighTagEnd | internal/enclave/provider/enclave/kmsrecipient/ber.go:92-111 | The end of the high-tag continuation, or failure |
| BerConverter.ReadBerLength | internal/enclave/provider/enclave/kmsrecipient/ber.go:175-199 | The length octets at an offset: indefinite, a minimal definite length below 2^32, or failure |
| BerConverter.ReadBerConstructed | internal/enclave/provider/enclave/kmsrecipient/ber.go:113-142 | The loop over children rebuilds exactly the element whose children fill the content, though overrun is checked late; it terminates |
| BerConverter.ReadBerConstructedChild | internal/enclave/provider/enclave/kmsrecipient/ber.go:144-173 | One child splits the remaining content into its normal form and a shorter rest; the no-progress branch is unreachable |
| BerConverter.EncodeDerObject | internal/enclave/provider/enclave/kmsrecipient/ber.go:201-207 | Header with the content's definite length, then the content |
| BerConverter.AppendDerLength | internal/enclave/provider/enclave/kmsrecipient/ber.go:209-223 | Appends the minimal definite length octets, from a buffer filled from its end |
| BerGrammar.TagReading | internal/enclave/provider/enclave/kmsrecipient/ber.go:78-111 | Exactly the well-formed identifier octets of at most nine octets are read as a tag |
| BerGrammar.LengthRoundTrip | internal/enclave/provider/enclave/kmsrecipient/ber.go:175-223 | Every length below 2^32 is read back from the octets written for it |
| BerGrammar.LengthUnique | internal/enclave/provider/enclave/kmsrecipient/ber.go:184-198 | An accepted definite length is already in its minimal octets |
| BerGrammar.ReadSound | internal/enclave/provider/enclave/kmsrecipient/ber.go:44-173 | What is read is an admissible tree that prints back to the bytes used |
| BerGrammar.ReadComplete | internal/enclave/provider/enclave/kmsrecipient/ber.go:44-173 | Every admissible tree is read back from its encoding, whatever follows |
| BerGrammar.ReadLocal | internal/enclave/provider/enclave/kmsrecipient/ber.go:44-173 | A successful read depends only on the bytes it used |
| BerGrammar.WindowRead | internal/enclave/provider/enclave/kmsrecipient/ber.go:144-173 | A child read against the whole input is the child of its parent's window exactly when it does not overrun it |
| BerGrammar.PrintPrefixFree | internal/enclave/provider/enclave/kmsrecipient/ber.go:34-41 | No encoding is a proper prefix of another, and equal encodings are of equal trees |
| BerTheorems.MeaningPreserved | internal/enclave/provider/enclave/kmsrecipient/ber.go:29-173 | An accepted input denotes exactly one tree; the output is its definite minimal encoding, and the tree read back from it has the same tags, primitive contents and children in order, all lengths definite |
| BerTheorems.NormalForm | internal/enclave/provider/enclave/kmsrecipient/ber.go:53-141 | The form that is written keeps tags, contents and the order of children, and has no indefinite element |
| BerTheorems.SameNormalForm | internal/enclave/provider/enclave/kmsrecipient/ber.go:44-173 | Two trees are written alike exactly when they have the same tags, contents and children in order |
| BerTheorems.Complete | internal/enclave/provider/enclave/kmsrecipient/ber.go:44-173 | Every admissible tree within the input limit is converted to its normal form |
| BerTheorems.AcceptedInputs | internal/enclave/provider/enclave/kmsrecipient/ber.go:29-42 | Accepted are exactly the encodings of admissible trees within the input limit |
| BerTheorems.LimitsAreLocal | internal/enclave/provider/enclave/kmsrecipient/ber.go:44-199 | A tree is admissible exactly when every element inside it keeps the limits on its depth, tag and content size |
| BerTheorems.FormChoices | internal/enclave/provider/enclave/kmsrecipient/ber.go:44-50 | A choice of length forms is admissible exactly when every indefinite element is at depth 31 at most |
| BerTheorems.ChoiceIndependent | internal/enclave/provider/enclave/kmsrecipient/ber.go:44-173 | Two encodings convert to the same bytes exactly when their trees have the same tags, contents and children |
| BerTheorems.Fixpoint | internal/enclave/provider/enclave/kmsrecipient/ber.go:92-142 | Input is returned unchanged exactly when no element of it is indefinite |
| BerTheorems.Idempotent | internal/enclave/provider/enclave/kmsrecipient/ber.go:29-42 | The output converts to itself exactly when it fits the input limit |
| BerTheorems.OutputBounds | internal/enclave/provider/enclave/kmsrecipient/ber.go:134-141 | Inputs below 64 KiB do not grow; no output exceeds the limit by more than 13 bytes |
| BerTheorems.GrowthExample | internal/enclave/provider/enclave/kmsrecipient/ber.go:209-223 | From 64 KiB of content on, an indefinite element grows by one octet |
| BerExamples.DepthLimit | internal/enclave/provider/enclave/kmsrecipient/ber.go:44-50 | Chains of any length: definite elements nest to depth 32, indefinite ones to depth 31 |
| BerExamples.IntegerInSequence | internal/enclave/provider/enclave/kmsrecipient/ber.go:29-42 | A sequence with an integer, in either form, converts to its definite octets |
| BerExamples.LengthForms | internal/enclave/provider/enclave/kmsrecipient/ber.go:209-223 | The length octets for every length below 2^32 |
| Cms.DecodeEncryptedContent | internal/enclave/provider/enclave/kmsrecipient/decrypt.go:223-243 | The fragment loop terminates with the joined content, or fails on a tag or a malformed fragment |
| Cms.FragmentsAccepted | internal/enclave/provider/enclave/kmsrecipient/decrypt.go:231-242 | Exactly the concatenations of primitive OCTET STRINGs are joined, to their joined contents |
| Cms.ContentExactly | internal/enclave/provider/enclave/kmsrecipient/decrypt.go:223-243 | Encrypted content is exactly the bytes of a context-specific [0], or its joined fragments if it is constructed |
| Cms.FragmentationIndependent | internal/enclave/provider/enclave/kmsrecipient/decrypt.go:223-243 | However content is fragmented under [0], in either form, the converted element decodes as the primitive [0] does |
| Cms.UnpadPkcs7 | internal/enclave/provider/enclave/kmsrecipient/decrypt.go:275-291 | The branch-free loop accepts exactly whole blocks that end in p bytes p, 1 <= p <= block size, and removes those |
| Cms.UnpadOfPad | internal/enclave/provider/enclave/kmsrecipient/decrypt.go:275-291 | Padding and then unpadding gives the data back |
| Cms.PadOfUnpad | internal/enclave/provider/enclave/kmsrecipient/decrypt.go:275-291 | Unpadding and then padding gives the padded data back |
| KeySource.FingerprintKeySource | internal/enclave/service/enclave/envelope.go:40-75 | The fingerprint of a complete key source with a known algorithm, or a refusal |
| KeySource.HashKeySourceFields | internal/enclave/service/enclave/envelope.go:195-205 | The hash absorbs each field behind its 32-bit length |
| KeySource.FingerprintLayout | internal/enclave/service/enclave/envelope.go:40-75 | Exactly the complete sources with algorithm 1 or 2 have a fingerprint, with label, algorithm and fields behind their lengths |
| KeySource.PreimageInjective | internal/enclave/service/enclave/envelope.go:195-205 | Different field lists below 2^32 bytes a field are hashed differently |
| KeySource.FingerprintInjective | internal/enclave/service/enclave/envelope.go:40-75 | Two valid key sources have the same fingerprint exactly when they are the same |
| KeySource.KindsDiffer | internal/enclave/service/enclave/envelope.go:54-67 | A generation request never has the fingerprint of an existing key |
| KeySource.AlgorithmsDiffer | internal/enclave/service/enclave/envelope.go:47-60 | One secret under two algorithms has two fingerprints, at every field length |
| KeyMaterial.GenerateThenLoad | internal/enclave/service/enclave/envelope.go:77-193 | A generated envelope loads back to the generated key, in Nitro mode and outside it |
| KeyMaterial.OneAlgorithmOpens | internal/enclave/service/enclave/envelope.go:111-132 | A sealed secret opens to a key under one algorithm at most |
| KeyMaterial.RunInitGood | internal/enclave/service/enclave/initrunner.go:27-81 | A candidate carries the key behind its source, that key's public key, and an envelope exactly if it was generated |
| KeyMaterial.RunInitExactly | internal/enclave/service/enclave/initrunner.go:27-81 | For every failure around a run and either mode, exactly which candidate it yields: key, public key, envelope and attestation |
| InitGate.StepKeeps | internal/enclave/service/enclave/initgate.go:68-118 | Every step keeps the gate's invariant; a published state is never replaced, and no run starts after it |
| InitGate.SinglePublication | internal/enclave/service/enclave/initgate.go:68-118 | Over any execution at most one runInit call is in progress at a time, at most one state is stored, it stays, and runInit is not called again |
| InitGate.PublishedByRun | internal/enclave/service/enclave/initgate.go:76-101 | The published state has the key source of the leader of the one run that published it, and the key and reply of its candidate |
| InitGate.Forward | internal/enclave/service/enclave/initgate.go:68-118 | Callers and the shared run only move forward, and who joins a flight leaves it and its leader alone |
| InitGate.NotStuck | internal/enclave/service/enclave/initgate.go:68-118 | Until a caller has returned, it or the flight it waits for can take a step |
| InitGate.FailedRun | internal/enclave/service/enclave/initgate.go:76-101 | Over any execution a flight is lost exactly by a run without a publishable candidate, and Ready stays empty from its end until the flight is let go |
| InitGate.ResultReachesAll | internal/enclave/service/enclave/initgate.go:76-117 | Over any execution, whatever is run and published meanwhile, every caller waiting when a flight completes can go on and returns what that result means for it, or was cancelled itself |
| InitGate.LostRunReachesAll | internal/enclave/service/enclave/initgate.go:82-112 | Over any execution every caller of a failed run still waits, has the error or has returned it, unless a cancellation of its own came first; a new run can start |
| InitGate.RunFailedOnlyThen | internal/enclave/service/enclave/initgate.go:104-112 | A caller has or returns the error of a run only if it was waiting for a flight whose run had failed |
| InitGate.CancelCommutes | internal/enclave/service/enclave/initgate.go:80-109 | A cancellation commutes with every step of the shared run and of other callers, and neither enables nor disables one |
| InitGate.CancelIsLocal | internal/enclave/service/enclave/initgate.go:80-109 | Leaving a cancellation out of any execution leaves an execution with the same run, the same publications and the same course of every other caller |
| InitGate.CancelledOnlyThen | internal/enclave/service/enclave/initgate.go:104-109 | A caller returns a cancellation only after its own |
| InitGate.ReplayExactly | internal/enclave/service/enclave/initgate.go:73-133 | After publication: the full reply exactly for the published source, the reply without envelope exactly for the generated envelope, a refusal otherwise, on every path |
| InitGate.EveryOutcome | internal/enclave/service/enclave/initgate.go:68-133 | Over any execution a caller that has returned was cancelled, got the error of a failed run of its flight, or has exactly the answer of ReplayExactly |
| InitGateObjects.Gate.Publish | internal/enclave/service/enclave/initgate.go:76-102 | The shared function fills in the fingerprints and publishes the candidate, keeps a published state, or publishes nothing on error |
| InitGateObjects.ResponseForFingerprint | internal/enclave/service/enclave/initgate.go:120-133 | The reply is a fresh object with the answer for the fingerprint, or none |
| InitGateObjects.ReplayAfterChange | internal/enclave/service/enclave/initgate.go:120-133 | Changing a returned reply alters neither the published state nor a later reply |
| KeyLifecycle.StepKeeps | internal/app/service/signer/v1/signer.go:108-207 | Every step of host, enclave, store and environment keeps the lifecycle invariant |
| KeyLifecycle.OneStoredKey | internal/enclave/service/enclave/envelope.go:111-132 | A stored header holds one key: the configured algorithms under which it opens to a key are at most one, also when it records none |
| KeyLifecycle.OneKey | internal/app/service/signer/v1/signer.go:82-207 | All startups of an execution publish one public key, whatever each is configured with; all signatures are by the key behind it, and a serving host's enclave holds no other key |
| KeyLifecycle.StoredKeyStays | internal/app/service/signer/v1/signer.go:127-189 | A stored secret never changes, and everything published is the public key of the one key it holds |
| KeyLifecycle.RestartAnswered | internal/enclave/service/enclave/initgate.go:120-133 | A host restarted in any configuration next to an enclave that kept running gets the stored key without an envelope exactly if the secret opens under its algorithm, and is refused otherwise |
| KeyHistory.ServedAfter | internal/app/service/signer/v1/signer.go:108-207 | A serving host has read the secret, accepted an attested reply with the public key it publishes, and seen its update acknowledged if it asked for a new key |
| KeyHistory.AttemptsBounded | internal/app/enclaveinit.go:55-137 | A startup sends the enclave three requests at most |
| KeyHistory.FaultsAnytime | internal/app/service/signer/v1/signer.go:108-207 | Crashes, failures and every answer that a startup waits for are possible in every state |
| KeyStartup.FirstStartupSucceeds | internal/app/service/signer/v1/signer.go:127-167 | A first startup that meets no failure stores the envelope of the generated key and publishes its public key |
| KeyStartup.StartupSucceeds | internal/app/service/signer/v1/signer.go:169-207 | A later startup that meets no failure publishes the stored key |
| KeyStartup.AlwaysRecovers | internal/app/service/signer/v1/signer.go:108-207 | From any state with a stored key, stopping both processes and starting again publishes that key |
| KeyStartup.SignsWithStoredKey | internal/app/service/signer/v1/signer.go:344-375 | A serving host signs with the stored key, the one behind every published public key |
| KeyStartup.RestartSucceeds | internal/app/service/signer/v1/signer.go:169-207 | A host that restarts next to a running enclave serves with the stored key without another run |
| KeyStartup.UnstoredKeyResumes | internal/app/service/signer/v1/signer.go:127-167 | A generated key that was not stored is stored and published by the next host while the enclave runs |
| KeyStartup.LostReplyRecovered | internal/app/enclaveinit.go:71-136 | A lost reply costs an attempt, not the key: the next attempt gets the same key |
| KeyStartup.AmbiguousUpdateRecovered | internal/app/service/signer/v1/signer.go:153-166 | Whether an unacknowledged update took effect or not, the next startup stores and publishes the same key |
| HostStartup.InitializeKeyState | internal/app/service/signer/v1/signer.go:108-125 | One startup publishes and stores what the lifecycle's host steps say, and succeeds exactly on a readable store with a complete and attested reply; it writes exactly a generated envelope on a blank store |
| HostStartup.GenerateAndStoreKey | internal/app/service/signer/v1/signer.go:127-167 | A generated key is published exactly if the reply is complete, for the configured algorithm and attested, and its stored envelope was acknowledged |
| HostStartup.LoadKeyFromSecret | internal/app/service/signer/v1/signer.go:169-207 | A stored key is published exactly for a matching or unrecorded algorithm and an attested reply without an envelope |
| ByteProxySetup.New | internal/common/byteproxy/byteproxy.go:128-170 | Binds one open listener a service, in order, or fails with every listener it bound closed |
| ByteProxySetup.Proxy.CloseListeners | internal/common/byteproxy/byteproxy.go:178-182 | Closes every listener |
| ByteProxySetup.Proxy.Run | internal/common/byteproxy/byteproxy.go:195-201 | One WaitGroup ticket a listener |
| ByteProxySetup.Proxy.DroppedCount | internal/common/byteproxy/byteproxy.go:235-242 | The drops of the first service of that name, 0 for an unknown name |
| ByteProxySetup.NewAndRun | internal/common/byteproxy/byteproxy.go:128-201 | A proxy built and started is in the initial state of the event model |
| ByteProxyInvariant.StepKeeps | internal/common/byteproxy/byteproxy.go:244-387 | Every step keeps the structure and the counts of the proxy |
| ByteProxyInvariant.Accounting | internal/common/byteproxy/byteproxy.go:244-309 | Tokens are the bridges between acquire and release, within MaxConns; accepted = dropped + dispatched + turned away + undecided; the WaitGroup counts live loops and bridges |
| ByteProxyInvariant.AddsWhilePositive | internal/common/byteproxy/byteproxy.go:296-307 | A bridge is added to the WaitGroup only while its counter is positive, and the counter never goes negative |
| ByteProxyHistory.DropsExactlyWhenFull | internal/common/byteproxy/byteproxy.go:284-307 | In every reachable state a connection is dropped exactly when all slots of its service are taken, and otherwise gets one and a bridge |
| ByteProxyHistory.FateExplained | internal/common/byteproxy/byteproxy.go:273-387 | Over any execution a drop found all slots taken, a rejection found the latch closed, a bridge ended after a failed dial or after both copies |
| ByteProxyHistory.LoopEndsFor | internal/common/byteproxy/byteproxy.go:252-271 | Before shutdown an accept loop ends only when Accept has failed |
| ByteProxyHistory.LateExactly | internal/common/byteproxy/byteproxy.go:273-282 | A connection counts as late exactly when the latch had closed before Accept returned it |
| ByteProxyHistory.NetworkIsFree | internal/common/byteproxy/byteproxy.go:244-387 | Accept, dials and copies may end either way at any time, and shutdown may begin at any time |
| ByteProxyShutdown.StepDecreases | internal/common/byteproxy/byteproxy.go:207-232 | After the latch closes every step decreases a measure |
| ByteProxyShutdown.StepsBounded | internal/common/byteproxy/byteproxy.go:207-232 | After the latch closes an execution has at most that many steps left |
| ByteProxyShutdown.NotStuck | internal/common/byteproxy/byteproxy.go:244-387 | Until Shutdown returns some step is assured |
| ByteProxyShutdown.ShutdownDrains | internal/common/byteproxy/byteproxy.go:207-232 | Without an assured step Shutdown has returned; then all loops and bridges have ended, all tokens are back, all accepted and dialed connections are closed |
| ByteProxyShutdown.LateNeverDialed | internal/common/byteproxy/byteproxy.go:273-282 | A connection accepted after the latch closed is never dialed |
| Attestation.CertificateWindow | internal/app/service/signer/v1/attestation.go:92-105 | The loop folds the certificate windows in order, an unset bound taking the next one |
| Attestation.WindowIsIntersection | internal/app/service/signer/v1/attestation.go:92-105 | For all bounds, the folded window is the intersection exactly when no bound at the zero instant is lost: none is zero, a later start or an earlier end overrides it, or it comes last |
| Attestation.RefreshDelay | internal/app/service/signer/v1/attestation.go:108-125 | The delay is positive for all inputs, overflow included |
| Attestation.FirstRefresh | internal/app/service/signer/v1/attestation.go:108-115 | The first refresh is before expiry, and at 80% of the lifetime exactly when four times the lifetime fits 64 bits |
| Attestation.FirstWake | internal/app/service/signer/v1/attestation.go:108-115 | A valid document that is not yet due is refreshed at that instant |
| Attestation.RetryDelayBounds | internal/app/service/signer/v1/attestation.go:117-125 | Later delays lie between 30 s and 5 min |
| Attestation.RetryInTime | internal/app/service/signer/v1/attestation.go:117-125 | The next retry precedes expiry exactly when more than 30 s remain |
| Attestation.RetryHalves | internal/app/service/signer/v1/attestation.go:117-125 | With one to ten minutes left the next wake comes when half of that has passed |
| Attestation.RetriesFollow | internal/app/service/signer/v1/signer.go:284-310 | Retries that wait out their delays wake before expiry at exactly the scheduled instants |
| Attestation.FailuresKeepWaking | internal/app/service/signer/v1/signer.go:284-310 | The scheduled retries are before expiry, go on until at most 30 s remain, and are fewer than R/30s for a remaining time R |
| Attestation.FewRetries | internal/app/service/signer/v1/signer.go:284-310 | A run of failures with R remaining wakes fewer than R/5 min + 4 times before expiry |
| AttestationCache.Service.PublicKey | internal/app/service/signer/v1/signer.go:323-340 | A returned document is inside the window parsed from it |
| AttestationCache.Service.RefreshAttestation | internal/app/service/signer/v1/signer.go:232-270 | Fails exactly on a reply that is not for the cached key with a document valid now; stores any other document exactly if it expires later; returns the window in force |
| AttestationCache.Service.RunAttestationRefresh | internal/app/service/signer/v1/signer.go:284-310 | The loop's own window is the cached one, and every delay is the scheduled one, a retry exactly after a wake that stored nothing |
| AttestationCache.FirstCacheSound | internal/app/service/signer/v1/signer.go:209-230 | A first reply is acceptable exactly with a key and, if it has a document, one valid now, which is cached with its own window |
| AttestationCache.StoreRestartsSchedule | internal/app/service/signer/v1/signer.go:284-310 | After a stored document the next refresh is the first one of its window |
| AttestationCache.CacheStaysSound | internal/app/service/signer/v1/signer.go:232-270 | The cached window is always that of the cached document, and each store has a strictly later expiry |
| AttestationCache.StoredWasUsable | internal/app/service/signer/v1/signer.go:242-268 | A stored document came in a reply with the cached key, is cached with its own window and was inside it when checked |
| AttestationCache.LatestIsKept | internal/app/service/signer/v1/signer.go:232-270 | Over any wakes the cached document expires no earlier than any offered for the cached key while valid |
| AttestationCache.FailuresFollowSchedule | internal/app/service/signer/v1/signer.go:284-310 | While the refresh loop stores nothing its wakes before expiry are exactly the scheduled retries, fewer than R/30s with R remaining, until at most 30 s remain |
| KmsErrors.CredentialCode | internal/enclave/provider/awskms/kmserror.go:31-75 | On either path an error of KMS reaches the host as Unauthenticated exactly when it is one of the three credential errors of the API |
| Failover.Provider.MoveClientToBack | internal/enclave/provider/awskms/awskms.go:127-137 | The in-place shift moves the first occurrence of the client to the end |
| Failover.Provider.Call | internal/enclave/provider/awskms/awskms.go:139-160 | A call that succeeds after k failures leaves the list rotated by k; one that fails leaves it as it was and reports the first credential error of the snapshot, otherwise the last error |
| Failover.FrontToBack | internal/enclave/provider/awskms/awskms.go:131-136 | Moving the client in front is one step of the rotation |
| Failover.MovedParts | internal/enclave/provider/awskms/awskms.go:127-137 | The first occurrence of the client goes to the back, the others keep their order |
| Failover.MovePermutes | internal/enclave/provider/awskms/awskms.go:127-137 | A move permutes the list |
| Failover.InterleavedMoves | internal/enclave/provider/awskms/awskms.go:127-160 | Under any interleaving of answers and moves the list and the snapshots stay permutations, every call has asked a prefix of its own snapshot in order, all but a last success having failed, and keeps the last and the first credential error |
| Failover.EndedCalls | internal/enclave/provider/awskms/awskms.go:139-160 | Whatever other calls do, a call ends with a success or with every client failed, and then the host sees Unauthenticated exactly when one of them failed with a credential error |
| Failover.LoneCallRotates | internal/enclave/provider/awskms/awskms.go:127-160 | A call that runs alone among the concurrent events rotates the list like the sequential one |
| Failover.CredentialErrorReachesHost | internal/enclave/provider/awskms/awskms.go:144-159 | If every region fails the host sees Unauthenticated exactly when some region failed with a credential error |
| EnclaveInit.InitializeEnclave | internal/app/enclaveinit.go:55-137 | At most three attempts, each but the last retryable; the result is the last one's; the credential cache is invalidated exactly before the attempts that follow Unauthenticated |
| EnclaveInit.RetriedExactly | internal/app/enclaveinit.go:102-133 | A failure of KMS leads to another attempt exactly if it is about credentials, a limit, a throttled or failed connection or a deadline |
| AwsRoute.Stream.ReadFull | internal/common/byteproxy/awsroute.go:66-84 | However the stream is chunked, exactly n bytes are taken, or all when there are fewer |
| AwsRoute.WriteAwsRoute | internal/common/byteproxy/awsroute.go:36-60 | Writes the header of a valid route, or reports invalid fields and short writes |
| AwsRoute.ReadAwsRoute | internal/common/byteproxy/awsroute.go:62-89 | Reads the route at the start of the stream and leaves the rest unread, for any chunking |
| AwsRoute.RoundTrip | internal/common/byteproxy/awsroute.go:36-89 | A written route is read back and exactly the payload stays unread |
| AwsRoute.Canonical | internal/common/byteproxy/awsroute.go:65-89 | Every accepted header is the one written for its result |
| Routing.NewRouteResolver | internal/vsockproxy/routing.go:36-70 | The allowed regions are exactly those of the configured ARNs, all of them KMS ARNs with a region |
| Routing.Dial | internal/vsockproxy/routing.go:86-107 | Dials only a route of the listener's service, to the KMS endpoint of an allowed region outside LocalStack mode |
| Routing.DialConfigured | internal/vsockproxy/routing.go:36-107 | Outside LocalStack mode, for any inbound stream: dialed exactly for a route of the KMS listener to a configured ARN's region, at the KMS template filled with that region, and what follows the header is left unread |

## Left out

- Concurrency is modelled as events on values, not on heap objects: the initialization gate, the lifecycle, the proxy after Run, and concurrent failover calls. Goroutine fairness and wall-clock durations are not modelled.
- The refresher's read of the cache and its later store are one step; with a single writer readers cannot tell the difference.
- Error identities inside the BER reader and the CMS parser: their only caller folds all failures into one error (`internal/enclave/provider/enclave/kmsrecipient/decrypt.go:98-114`).
- `encoding/asn1`, CBOR, X.509, PEM and gob decoding, the OID checks of the CMS parser, and the root bundle: parsing is a function of the bytes, and reading a primitive OCTET STRING is a minimal reader.
- RSA-OAEP, AES-CBC, AES-GCM, SHA-256, Ed25519 and BLS themselves.
- gRPC servers, clients and interceptors, TLS, metrics, telemetry, logging, configuration loading, the region list and endpoint building of the AWS clients.
- The read deadline and the reader goroutine of `readRoute` (`internal/vsockproxy/routing.go:114-144`): a read that fails or is cancelled is a stream that ends.
- A shutdown deadline that expires before the drain: Shutdown then returns an error and the events go on without it.
- Errors with several causes: an error has one cause here, so an error that is both a network and a context error is not modelled.
- Run before Shutdown, and each at most once: the proxy's documented contract; other orders are not modelled.
- The checks of `Initialize` in front of the gate, the handlers `GetPublicKey`, `SignMessage` and `GenerateKey`, and a missing enclave provider in Nitro mode: each refuses a request by one branch.
