# A verified model of hermes-drop

hermes-drop hands a secret or a few files from a browser to an agent exactly
once. A broker holds what was uploaded, a control socket lets one receiver claim
it, and a spool on the receiver's side is where files land. This project models
the parts of that system whose guarantees depend on ordering, and proves them for
every run.

* **HpkeInfo** – the `info` binding, filled in place, and HPKE (RFC 9180,
  sections 5.1 and 6.1) as boxes that open with exactly the key and `info` they
  were sealed with.
* **BrokerCore**, **BrokerSystem** – the broker's operations, one function per
  stretch of code between awaits, and a transition system in which creations,
  uploads, submissions, claims, timers and sweeps interleave freely.
  **BrokerInvariants**, **BrokerRuns** and **BrokerTheorems** prove what holds of
  every run. **Broker** is the same broker as src/broker.js writes it, record
  objects, two indexes and a counter updated in place; each method is proved
  equal to its function in BrokerCore. **ClaimBudget** is the size arithmetic of
  a text claim.
* **FileSession**, **FileSessionProofs**, **FileSessionRuns**,
  **FileSessionTheorems**, **FileSessionLeases** – one control connection holding a
  file claim, with every await a point where anything else may happen, against
  arbitrary lines from its peer and arbitrary broker traffic from everybody else.
* **FileClaim**, **FileClaimRuns**, **FileClaimTheorems**, **FileClaimCauses**,
  **FileClaimLoss** – the whole claim: broker, connection, Python receiver, staging
  directory, the three worker threads and the policy, under timeouts, disconnects,
  cancellation, staging failures, lease loss and expiry. A discard lists the
  directory and unlinks it file by file, and any rename may land in between. The bytes that arrive,
  and the bytes that are read back from disk, are arbitrary; what protects the
  files is the digests.
* **Framing** – the pull reader over a stream cut anywhere.
* **Json** – JSON (RFC 8259) as the codecs read and write it: a parser for the
  whole grammar, the compact text of a value, and the proof that the one undoes
  the other.
* **Utf8** – the encoder, the strict decoder and the one that ignores what it
  cannot read (RFC 3629), byte by byte.
* **Names**, **Settling**, **Labels**, **ManifestText**, **Container** – the filename
  sanitizer, the exact condition under which it settles in one pass, its Python
  twin, the manifest's exact text, and the HDROP2 codec.
* **Spool**, **SpoolRuns**, **SpoolTheorems**, **SpoolSweeps** – the spool root: claims
  that stage, publish, hold and discard their directories, and sweeps that delete
  what has expired, interleaved at every operation on the directory.
* **OutboundPayload** – what an outbound drop may contain, the one text it is
  stored as, and the secrets generated for it.
* **OutboundDrop** – the code gate and the one claimant of an outbound drop.
* **Vault**, **VaultWalk** – secrets held in memory for one session, and the walk
  that puts them back into a request.
* **ReconcileLatch** – how often a reconcile pass can run.
* **ConfigEdit** – the line-preserving editor of `plugins.enabled`.

Library calls appear as functions with stated laws: digests are injective where
that is what protects a claim (`FileClaimRuns.DigestsName`), a digest prints as
64 hexadecimal digits, and NFC and the Unicode tables satisfy `Names.Laws`. The
laws can be met (`Names.PlainUnicode`, `Container.LawsCanBeMet`,
`OutboundPayload.LawsCanBeMet`), and the drops the claim's results start from are
reached by a run of the broker (`FileClaimLoss.UploadedDropIsReached`,
`FileClaimLoss.OneFileCanBeMet`). UTF-8 and JSON are not assumed but written out.
Times are parameters of the steps.

## Where the code and its own account differ

The model follows the code. Four statements the sources make of themselves do
not hold of it, and each has its exact condition here.

* src/file-container.js:233-235 says that sanitizing a name twice is the same as
  once. Removing what stands between two unpaired surrogates can join them into
  a format character that only a second pass removes, so the decoder refuses a
  container its own encoder wrote. It happens exactly to the names of
  `Settling.KeptAt`: two such surrogates meet, no separator follows them, and the
  name up to them is within the byte limit (`Settling.FixedPointIffSettled`,
  `Container.RoundTrip`; `Names.SplitTagIsNotFixed` is one such name).
* integrations/hermes-drop/drop/materialize.py:214-216 says that a cancellation
  propagates only after the received bytes are safe. One that lands while a hold
  is being awaited on the refusal or fault path is caught by nobody, and the only
  copy is discarded although no rename failed
  (`FileClaimLoss.CancelledHoldLosesFiles`). On the indeterminate path one failed
  rename is enough, because no publish is tried there
  (`FileClaimLoss.OneFailedRenameLosesFiles`).
  `FileClaimCauses.FilesAreLostIff` says which events, in which order, lose them.
* integrations/hermes-drop/drop/spool.py:714-716 says that once the publishing
  rename is done the claim is complete and cannot be taken away. A cancelled
  publish whose hold is refused is discarded while its thread goes on: if the
  rename lands after the discard has listed the directory, the published claim is
  emptied all the same (`FileClaimLoss.PublishedInsideDiscard`).
  `FileClaimCauses.PublishedIsWholeIff` is the exact condition; an `ok` claim is
  never touched (`FileClaimTheorems.PublishedIsTheDrop`).
* integrations/hermes-drop/drop/spool.py:134-136 says that anything under the root
  but exactly the generated names is somebody else's and is never removed. The
  pattern's `$` also stands before a final newline, so a directory whose name is a
  generated one followed by a newline is swept (`SpoolSweeps.NewlineNameIsSwept`).
  `Spool.RemovableNames` says exactly which names are.

## Model

| member | source | states |
|---|---|---|
| HpkeInfo.BuildInfo | src/hpke-suite.js:90-109 | wrong lengths are refused and everything else is laid out, by a running offset, as label, version byte, suite, id and hash |
| HpkeInfo.InfoInjective | src/hpke-suite.js:90-109 | two bindings are equal exactly when id, capability hash and version byte all are |
| HpkeInfo.OpensOnlyAsSealed | src/broker.js:567-600 | an envelope sealed for another key, handoff, capability or version never opens, and any other does |
| BrokerTheorems.BudgetConserved | src/broker.js:275-286 | after every run the counter is the records' reservations plus those of unfinished creations, is never negative or over the limit, and bounds the file payload resident |
| BrokerTheorems.NoLeakedReservation | src/broker.js:398-421 | a record holds a reservation only while it is an unclaimed files drop or has an upload that was not released |
| BrokerTheorems.OneWinningSubmission | src/broker.js:550-684 | over any interleaving all receipts of a handoff, those of joined duplicates included, are for one envelope in one lane, sealed for that handoff; and one envelope never wins two handoffs |
| BrokerTheorems.DuplicatesHearTheirOwn | src/broker.js:1038-1044 | a duplicate that waited for the winner hears a receipt only for the envelope it was sent with |
| BrokerTheorems.OneAttemptInFlight | src/broker.js:1036-1053 | at most one submission per record is being opened at any moment |
| BrokerTheorems.KindIsFixed | src/broker.js:663-671 | once a record leaves pending, its kind, envelope and payload never change |
| BrokerTheorems.OneDelivery | src/broker.js:1109-1132 | a text claim and a file commit together succeed at most once per handoff |
| BrokerTheorems.StaysSpent | src/broker.js:474-490 | after a delivery the payload is gone at every later moment |
| BrokerTheorems.DeliversWhatWasSealed | src/broker.js:1109-1132 | a delivered text is the plaintext of the envelope that got the receipt |
| BrokerTheorems.PayloadExactlyWhenHeld | src/broker.js:439-520 | plaintext exists exactly in submitted and transferring, a lease exactly in transferring, a key exactly in pending |
| BrokerTheorems.ClaimAnswers | src/broker.js:1109-1132 | a claim refused for its size changes nothing at all |
| BrokerTheorems.ProgressIsAcked | src/broker.js:1436-1475 | every frame a lease counts was acknowledged by an earlier call, under that lease, with that frame's size and digest |
| BrokerTheorems.CommitIsEvidence | src/broker.js:1490-1548 | an accepted commit was preceded, in the same run and by the same owner, by an acknowledgement of every frame of the container it retires |
| BrokerInvariants.CommitKeeps | src/broker.js:1502-1548 | a commit retires only for the lease's owner, after the last frame, with its digests and byte count; `incomplete_transfer` is never answered |
| BrokerInvariants.AckKeeps | src/broker.js:1436-1475 | an accepted ack is the next frame under its own size and digest and moves the progress by exactly that frame |
| BrokerInvariants.SubmitGateKeeps | src/broker.js:636-684 | the gate turns a pending record into a submitted one for this envelope, or changes nothing, and keeps the budget |
| BrokerInvariants.SweepIsPointwise | src/broker.js:1173-1181 | a sweep is the same in any order: each record is judged alone and the counter follows |
| BrokerRuns.StepKeeps | src/broker.js:709-1561 | every step of every event keeps all invariants, undoes nothing and answers truthfully |
| Broker.Broker.ReserveFileBytes | src/broker.js:275-279 | takes the bytes exactly if they fit |
| Broker.Broker.ReleaseReservation | src/broker.js:281-286 | gives back the record's own reservation, once |
| Broker.Broker.Release | src/broker.js:982-997 | frees the slot, and gives a lease back only if it is still the record's |
| Broker.Broker.ClearLease | src/broker.js:439-463 | ends the lease and puts a transferring record back to submitted |
| Broker.Broker.Retire | src/broker.js:474-490 | payload, key and reservation go; the receipt stays |
| Broker.Broker.Destroy | src/broker.js:492-520 | everything goes, both indexes included, and a second destroy changes nothing |
| Broker.Broker.Live | src/broker.js:522-529 | an expired record is destroyed on touch |
| Broker.Broker.CreateFinish | src/broker.js:737-788 | the new record enters both indexes, after every other, and nothing else moves |
| Broker.Broker.AcquireSubmitSlot | src/broker.js:934-997 | admits one widened body per record and only under a reservation, in the state the lookup left |
| Broker.Broker.Submit | src/broker.js:1009-1047 | replay, join, refusal or one registered attempt, for a capability that may name nothing |
| Broker.Broker.SubmitGate | src/broker.js:636-684 | the single-use gate in place, reserving late if no slot did |
| Broker.Broker.Claim | src/broker.js:1109-1132 | hands the payload over and retires, or leaves everything as it was; an unknown id answers like one that is gone |
| Broker.Broker.BeginFileClaim | src/broker.js:1262-1320 | the refusals before the manifest pass, in their order, and the narrowed lease |
| Broker.Broker.GrantLease | src/broker.js:1335-1387 | the same gate again, then the lease over the container's own frames |
| Broker.Broker.AckFileClaimFrame | src/broker.js:1436-1475 | in order, size and digest together, or the lease is cleared |
| Broker.Broker.CommitFileClaim | src/broker.js:1490-1548 | every condition in order, then the only retirement of a files payload |
| Broker.Broker.AbandonFileClaim | src/broker.js:1555-1561 | ends only the lease that is named |
| Broker.Broker.SweepAll | src/broker.js:1173-1176 | destroys exactly the expired records, over a copy of a shrinking index |
| ClaimBudget.BudgetIsExact | src/control-server.js:598-609 | for every payload with a byte in it, the budget and the response size are exact inverses |
| ClaimBudget.BudgetFailsIff | src/control-server.js:605-609 | over all payloads the inverse fails exactly for an empty payload under a ceiling the envelope alone does not fit |
| ClaimBudget.ClaimConsumesOnlyWhatFits | src/control-server.js:894-931 | a claim under a declared ceiling consumes only what fits the line, and refuses, untouched, only what does not |
| FileSessionRuns.SessionKeeps | src/control-server.js:201-588 | every step of a connection, against any line and any traffic of others, keeps lease, turn and stream in agreement with the broker |
| FileSessionTheorems.ConversationCoupled | src/control-server.js:295-450 | a held lease is the broker's own; waiting on frame i means the broker expects i with the prefix sum acknowledged; awaiting a commit means all frames are acknowledged |
| FileSessionLeases.LeaseIsLeftIff | src/control-server.js:543-551 | over every run, a connection that has ended leaves a lease exactly if a flood landed during a manifest pass, the lease was granted after it, and nothing has taken it back since |
| FileSessionLeases.LeaseIsReturned | src/control-server.js:238-252 | however else a connection ends, floods while streaming included, no lease is left in its name |
| FileClaimLoss.FloodedBeginStrandsLease | src/control-server.js:373-376 | for every drop with one file there is a three-step run that leaves the lease |
| FileSessionTheorems.StreamIsWellFormed | src/control-server.js:354-434 | what is written is always a prefix of one conversation; no line falls between a header and its body, nothing follows a last line |
| FileSessionTheorems.CommitInTurn | src/control-server.js:452-477 | a commit in turn retires the payload exactly when it names the held transfer before expiry with the container's own byte count and digests; otherwise only what the line said is refused |
| FileSessionRuns.HeldAckKeeps | src/control-server.js:412-450 | an ack on the held lease brings the next frame's turn, a refusal, or a lost connection, and is never too late |
| FileSessionRuns.SessionKeepsPayloads | src/broker.js:1490-1561 | a connection's own steps take a payload only by committing it |
| FileClaimRuns.ClaimStepKeeps | integrations/hermes-drop/drop/materialize.py:180-321 | every step of broker, connection, receiver, spool and policy keeps the joint invariant |
| FileClaimTheorems.NoLoss | integrations/hermes-drop/drop/materialize.py:250-321 | at every moment the broker has the payload, or this side has every file whole and verified, or others or expiry took it; except after a hold that failed or was cut off, when a discard has unlinked every file or goes on to |
| FileClaimCauses.UntroubledRunsKeep | integrations/hermes-drop/drop/materialize.py:250-321 | over every run in which no hold's rename is refused and no cancellation lands in a hold outside the publish, no file is ever lost |
| FileClaimCauses.FilesAreLostIff | integrations/hermes-drop/drop/materialize.py:479-553 | a committed claim that has ended has its files, all of them or none: none, wherever their directory is, if a cancellation landed in such a hold and the discard on the way out came before the hold's thread got to its rename, or a hold's rename was refused and a discard looked for the directory before any rename went through; otherwise all, published or quarantined |
| FileClaimCauses.PublishedIsWholeIff | integrations/hermes-drop/drop/spool.py:1469-1484 | a published drop is whole, with no discard after it, exactly if no discard found its directory before the rename |
| FileClaimTheorems.VerdictsAreSound | integrations/hermes-drop/drop/materialize.py:139-149 | `retry_safe` means this attempt did not and will not retire the payload; `ok` and `mark_spent` mean the broker no longer holds it; never both; indeterminate needs a written commit or a fault |
| FileClaimTheorems.PublishedIsTheDrop | integrations/hermes-drop/drop/spool.py:678-745 | what is published was committed and is every file of the container, none removed since unless a hold's rename was refused before; an `ok` claim is published and untouched |
| FileClaimTheorems.CrossCheckNeverRefuses | integrations/hermes-drop/drop/materialize.py:438-475 | the receiver's and the disk's accounts never disagree after a commit, so a publish is given up only when its rename did not happen |
| FileClaimRuns.ReadChunkKeeps | integrations/hermes-drop/drop/spool.py:534-654 | whatever arrives and whatever lands on disk, a frame is acknowledged only if the disk holds exactly what was hashed |
| FileClaimRuns.WonMoves | integrations/hermes-drop/drop/file_claim.py:325-345 | an accepted commit carried the digests of the container's own frames, so those are the frames that arrived |
| FileClaimRuns.ThreadKeeps | integrations/hermes-drop/drop/spool.py:787-815 | the publish, quarantine and discard threads may race a cancellation at every rename, flag and unlinked file |
| FileClaimLoss.CancelledHoldLosesFiles | integrations/hermes-drop/drop/materialize.py:359-379 | for every drop with one non-empty file there is a run without a failed rename in which a cancelled hold loses it after the commit |
| FileClaimLoss.OneFailedRenameLosesFiles | integrations/hermes-drop/drop/materialize.py:479-497 | for every such drop there is a run in which one failed quarantine rename loses it, no publish having been tried |
| FileClaimLoss.PublishedInsideDiscard | integrations/hermes-drop/drop/spool.py:1469-1484 | for every such drop there is a run in which a publish renames the directory inside a discard, and the published claim has lost its file |
| FileClaimLoss.UploadedDropIsReached | src/broker.js:1009-1053 | every container of one file that fits is submitted by a run of the broker from its empty state, so the claims above have somewhere to start |
| Framing.FrameReader.Pull | src/file-claim-client.js:62-72 | takes one more chunk without changing what is left to read |
| Framing.FrameReader.ReadLine | src/file-claim-client.js:75-85 | what splitting the whole remaining stream at its first newline gives, or nothing if there is none |
| Framing.FrameReader.ReadBytes | src/file-claim-client.js:92-102 | the next bytes of the whole stream in non-empty pieces, short only at its end |
| Framing.ReadItem | src/file-claim-client.js:215-262 | a line or frame wholly in the stream is returned as written, one that is cut off is reported |
| Framing.ReadConversation | src/file-claim-client.js:204-302 | for every cut into chunks and every truncation, exactly the items sent, in order, up to the first incomplete one |
| Names.CollapseToBasename | src/file-container.js:200-217 | the three rules to their fixed point |
| Names.CollapseIsClean | src/file-container.js:200-217 | the result is a stretch of the input, trimmed, without separator or drive prefix |
| Names.TruncateToBytes | src/file-container.js:187-198 | the longest prefix in whole code points that fits |
| Names.SanitizeFileName | src/file-container.js:237-255 | the sanitizer with its loops computes `Names.Sanitize` |
| Settling.ShownIffNothingMeets | src/file-container.js:243-244 | stripping leaves no control or format character exactly when no two unpaired surrogates of the name meet in one |
| Settling.FixedPointIffSettled | src/file-container.js:237-255 | sanitizing twice is once exactly unless two surrogates of the name meet, in its last path component and within the byte limit |
| Settling.NothingMeetsSettles | src/file-container.js:233-235 | a name in which no two surrogates meet sanitizes to a fixed point |
| Settling.CollapseAround | src/file-container.js:200-217 | a name collapses, around a character that is kept, to the lead before it and what follows it without trailing white space |
| Names.FixedPointForWellFormed | src/file-container.js:237-255 | every name without unpaired surrogates sanitizes to a fixed point |
| Names.SplitTagIsNotFixed | src/file-container.js:243-244 | two surrogates kept apart by a zero width space sanitize to a format character, and that to `unnamed` |
| Utf8.EncodedReadsBack | src/file-container.js:144 | the strict decoder reads every encoded text, and gives back exactly those without surrogates and without a leading byte order mark |
| Json.ValueReads | src/file-container.js:440-450 | parsing undoes printing for every value, whatever follows it |
| Json.ParseUndoesCompact | src/outbound-payload.js:385-395 | `JSON.parse` gives back the value whose compact text it is given |
| ManifestText.PrintIsCompact | src/file-container.js:396-405 | the manifest's text, byte for byte, is the compact JSON of its object |
| ManifestText.PrintedReadsBack | src/file-container.js:423-468 | a printed manifest parses to exactly the keys and values the validator looks for |
| Labels.CutIsTruncate | integrations/hermes-drop/drop/spool.py:309-313 | cutting bytes and dropping the partial character keeps exactly the whole code points that fit |
| Labels.LabelIsFileName | integrations/hermes-drop/drop/spool.py:331-351 | on every name without surrogates the Python sanitizer gives the browser's label |
| ManifestText.ManifestFits | src/file-container.js:94-125 | the printed manifest of any bounded entries, private text included, fits the worst case |
| Container.EveryEncodingFits | src/file-container.js:396-405 | the encoder's manifest refusal is dead, and every container fits the bytes the broker reserves |
| Container.EncodeFileContainer | src/file-container.js:361-421 | refuses in order, or fills a buffer that is header, manifest, files and text |
| Container.ValidateManifest | src/file-container.js:453-497 | the loop computes the first refusal of the whole manifest |
| Container.DecodeFileContainer | src/file-container.js:523-564 | every check in order, every file hashed before any is returned |
| Container.DecodedTiles | src/file-container.js:475-497 | whatever decodes is header, manifest, files and text end to end, every file matching its digest and carrying a canonical name |
| Container.RoundTrip | src/file-container.js:361-564 | an encoded container decodes to the same bytes, sanitized names and text exactly if no uploaded name is one the sanitizer leaves unsettled, and is refused for its name otherwise |
| Container.WellFormedNamesRoundTrip | src/file-container.js:361-564 | uploads without unpaired surrogates in their names always round-trip |
| Spool.RemovableNames | integrations/hermes-drop/drop/spool.py:1395-1413 | what may be deleted: a directory under a generated name, or under one followed by a newline, and nothing else |
| SpoolRuns.SpoolStepKeeps | integrations/hermes-drop/drop/spool.py:441-521 | every operation of every claim and sweep keeps each claim's directory where its phase says, and no sweep about to touch one it must not |
| SpoolRuns.JudgeIsSafe | integrations/hermes-drop/drop/spool.py:1310-1331 | a name judged expired belongs to no live claim, nor to one published or held that is not yet due |
| SpoolTheorems.LiveStagingIsSafe | integrations/hermes-drop/drop/spool.py:467-486 | over every run, purges included, a live claim's staging directory is in place with exactly the files the claim created |
| SpoolTheorems.PublishedIsSafe | integrations/hermes-drop/drop/spool.py:678-745 | a published claim is there, whole, with every index of its manifest and the expiry it was given, unless a sweep that began once it was published ignored times or began at that expiry or later |
| SpoolTheorems.EarlierSweepsMiss | integrations/hermes-drop/drop/spool.py:1256-1275 | a sweep, purge or not, that began before a claim was published or held never finds it |
| SpoolTheorems.HeldIsSafe | integrations/hermes-drop/drop/spool.py:787-805 | held bytes stay for the time to live after the last write, under the same condition |
| SpoolTheorems.AliensAreLeft | integrations/hermes-drop/drop/spool.py:1260-1275 | an entry the name rules do not cover is never removed or changed by any run |
| SpoolTheorems.ReservedIsExact | integrations/hermes-drop/drop/spool.py:287-301 | the reservation is 42 MiB for each claim not yet released, and never more than four claims hold one |
| SpoolSweeps.SweepAlone | integrations/hermes-drop/drop/spool.py:1187-1308 | a sweep left alone removes exactly what is due among what it listed, and leaves the rest as it was |
| SpoolSweeps.PurgeTakesPublished | integrations/hermes-drop/drop/spool.py:1499-1545 | a purge that begins just after a claim was published takes it |
| SpoolSweeps.NewlineNameIsSwept | integrations/hermes-drop/drop/spool.py:134-136 | a directory named like a claim with a newline after it is removed by an ordinary sweep |
| OutboundDrop.Record.ClaimDrop | src/outbound-drop.js:431-491 | the gate in place: reserved drops answer their claimant alone, a wrong code costs an attempt, the right one reserves |
| OutboundDrop.Record.Metadata | src/outbound-drop.js:394-414 | an available drop says how long is left and how many attempts; any other says nothing |
| OutboundDrop.StatusIsTrue | src/outbound-drop.js:394-414 | over any run the status is true: nobody was shown the payload, the attempts are three less the wrong guesses, and a right code is granted exactly the window named |
| OutboundDrop.Record.AcknowledgeDrop | src/outbound-drop.js:498-504 | destroys for the claimant, refuses everybody else |
| OutboundDrop.OneClaimant | src/outbound-drop.js:431-491 | over any run the ciphertext goes to one claim id, always the same bytes with the same deadline, never past the drop's expiry |
| OutboundDrop.ThreeGuesses | src/outbound-drop.js:451-471 | the attempts left are three less the wrong guesses made, and the third ends the drop |
| OutboundDrop.ReservedCostsNothing | src/outbound-drop.js:440-449 | a drop that was reserved never loses another attempt |
| OutboundDrop.SilentAfterDestruction | src/outbound-drop.js:175-208 | nothing is answered after destruction |
| OutboundDrop.AcknowledgedOnce | src/outbound-drop.js:498-504 | only the claimant acknowledges, and then nobody is shown anything |
| OutboundPayload.CheckFields | src/outbound-payload.js:336-345 | the loop with its set of seen labels computes the first refusal, or all the fields |
| OutboundPayload.FieldsAreTheInput | src/outbound-payload.js:291-307 | what is accepted is every field of the input, unchanged and in order, labels distinct in any case, a field without a type a secret |
| OutboundPayload.ValidatedIsValid | src/outbound-payload.js:317-355 | an accepted payload has the input's own title and fields and meets every bound, its one text included |
| OutboundPayload.CanonicalIsCompact | src/outbound-payload.js:365-373 | the text put together by hand is the compact JSON of the payload's object |
| OutboundPayload.CanonicalRoundTrip | src/outbound-payload.js:365-395 | whatever is accepted is read back, from its text, as that same payload |
| OutboundPayload.CanonicalIsInjective | src/outbound-payload.js:357-373 | two accepted payloads have one text exactly if they are the same |
| OutboundPayload.BuildAll | src/outbound-payload.js:472-492 | the loop that draws generated fields, up to the first refusal |
| OutboundPayload.BuiltRoundTrips | src/outbound-payload.js:464-494 | a payload with generated values is stored and read back like any other |
| OutboundPayload.GeneratedIsAccepted | src/outbound-payload.js:420-448 | a drawn value is never refused: the field is a secret holding exactly that string, of the length asked for |
| OutboundPayload.RandomString | src/outbound-payload.js:404-418 | over any buffers of random bytes, the first characters the stream gives once bytes past the limit are passed over |
| OutboundPayload.SamplingIsUniform | src/outbound-payload.js:397-410 | every character of each alphabet is given by equally many bytes |
| Vault.Store.Stash | integrations/hermes-drop/drop/vault.py:193-235 | lapsed entries go, then the session's own oldest, then anyone's, and the secret is put in under its timer; or it is refused |
| Vault.Store.Resolve | integrations/hermes-drop/drop/vault.py:238-254 | finds only the session's own, and only what has not lapsed |
| Vault.HistoryIsBounded | integrations/hermes-drop/drop/vault.py:137-150 | after any history a session holds at most four secrets and all of them at most thirty-two |
| Vault.OthersGoOnlyWhenFull | integrations/hermes-drop/drop/vault.py:219-231 | another session's unexpired secret goes only when thirty-two are held after the session trimmed its own, and none that stays lapses sooner |
| Vault.ResolvedWasStashed | integrations/hermes-drop/drop/vault.py:238-254 | whatever is resolved was stashed by that session, as that secret, and within its time |
| VaultWalk.PiecesFindAll | integrations/hermes-drop/drop/vault.py:303-314 | the pieces a text is cut into are placeholders exactly where one stands in the text: none is missed, and none starts inside another |
| VaultWalk.SubstitutedIsWritten | integrations/hermes-drop/drop/vault.py:303-314 | exactly the placeholders live at their own lookup are replaced, everything between them is kept, a hit means there was one, and each is looked up once |
| VaultWalk.WalkIsEverywhere | integrations/hermes-drop/drop/vault.py:317-351 | rebuilding only what changed gives the tree that rebuilding everything would |
| VaultWalk.MiddlewareIsExact | integrations/hermes-drop/drop/vault.py:354-378 | however the vault changes during the walk, an answer is given exactly when something was held at its start and a placeholder of the session in reach is live when it is looked up, and it has every such one replaced |
| VaultWalk.EmptyVaultChangesNothing | integrations/hermes-drop/drop/vault.py:367-371 | over a vault that stays empty the skipped walk would have changed nothing |
| ReconcileLatch.Latch.NoteFailedPass | integrations/hermes-drop/drop/reconciler.py:169-214 | a failure reopens the latch ungated while its budget lasts, and falls back to the carried lanes after it |
| ReconcileLatch.Latch.NoteDeferredPass | integrations/hermes-drop/drop/reconciler.py:236-312 | a deferral reopens the latch gated on its lanes while its budget lasts |
| ReconcileLatch.PassesAreBounded | integrations/hermes-drop/drop/reconciler.py:153-312 | between clean or progressing passes at most 24 passes run, whatever they report |
| ReconcileLatch.BoundIsReached | integrations/hermes-drop/drop/reconciler.py:153-312 | a lane that keeps resolving for the gate and failing the pass uses all of them |
| ReconcileLatch.OverIsOver | integrations/hermes-drop/drop/reconciler.py:153-166 | a latch taken with no pass running starts nothing ever again |
| ReconcileLatch.LanesSurviveFailures | integrations/hermes-drop/drop/reconciler.py:184-192 | across any stretch of failed passes the recorded lanes only grow |
| ReconcileLatch.GateIsExact | integrations/hermes-drop/drop/reconciler.py:344-385 | an open latch, looked at and taken with nothing in between, starts a pass exactly when it is ungated, waits for nothing, or one of its lanes resolves |
| ReconcileLatch.GateHoldsUntilAPass | integrations/hermes-drop/drop/reconciler.py:705-708 | over any history, a caller that takes an open latch starts a pass the gate would admit at that moment, unless another pass was accounted for after it looked |
| ReconcileLatch.StaleCallerSlipsIn | integrations/hermes-drop/drop/reconciler.py:589-590 | a caller that looked while a pass ran can take the latch that pass reopened gated, with none of its lanes back |
| ConfigEdit.Locate | bin/hermes-drop-config-edit.py:204-299 | finds the list wherever there is exactly one way to read it, and refuses otherwise |
| ConfigEdit.OneReading | bin/hermes-drop-config-edit.py:204-299 | a file is read one way only |
| ConfigEdit.ApplyBlock | bin/hermes-drop-config-edit.py:373-421 | inserting by index, shifting the doomed indices and deleting by index leaves the surviving rows in order with the additions among them |
| ConfigEdit.InsertThenDelete | bin/hermes-drop-config-edit.py:395-417 | the shifted indices delete exactly the removed items' lines |
| ConfigEdit.BlockReadsBack | bin/hermes-drop-config-edit.py:373-421 | the edited block sequence is found again and reads exactly the wanted list, unless the edit drops a name and adds it back where it was not last |
| ConfigEdit.WantedSplits | bin/hermes-drop-config-edit.py:325-329 | what stays and what is added make up the wanted list exactly for those edits |
| ConfigEdit.FlowReadsBack | bin/hermes-drop-config-edit.py:368-371 | a one-line list reads back what was written |
| ConfigEdit.AppendedReadsBack | bin/hermes-drop-config-edit.py:353-358 | an appended block reads back what was written |
| ConfigEdit.InsertedReadsBack | bin/hermes-drop-config-edit.py:360-366 | a key inserted into any mapping, one whose first key the scanner does not recognise included, reads back what was written |
| ConfigEdit.OnlyItemsChange | bin/hermes-drop-config-edit.py:373-421 | every line that is neither an item nor the key survives unchanged and in order |

## Left out

- HTTP, headers, sockets, deadlines of requests and file reading: input and output; a write in the model completes or fails.
- Real cryptography, SHA-256, HMAC and base64: symbolic, with the laws stated above.
- waitForSubmission, metadata and the operator's budget report: they read the state and change nothing.
- Per-record narrowed file limits: one configuration stands for all records; narrowing changes the file count only, never a reservation.
- A repeated random id or capability: draws are distinct.
- Journal files, ownership and mode checks, file locks: a directory is a value with atomic rename and removal.
- Authorization of a claim by the journal: a claim starts after it was authorized.
- The claim's ValueError handler after a written commit: the server's short answers never raise it there.
- A cancellation while the staging directory is being created: it leaks the reservation; Spool takes a creation step by step and has no such cancellation.
- A discard that the file system refuses part way, and the claim's own metadata file in the directory: what is left then waits for the sweep.
- FileClaimTheorems.NoLoss: covers the files of a drop, not its private text, which is never staged.
- The JavaScript receiver's own flag order: the Python receiver's is modelled.
- Broker.Broker.CreateFail: key generation fails; the bytes go back.
- The destroy-all of a shutdown is modelled on values only; the class has the sweep.
- src/control-server.js and the claim's policy are modelled on values, as state machines over their steps: what is lost is the closure's identity as an object, which the owner token stands for.
- ConfigEdit.ApplyBlock: every line is taken to end in a newline; a last line without one would be joined with what is appended.
- YAML parsing: a line is what the scanner can tell of it; the parser's cross-check is not part of this model.
- StagingClaim is modelled on values, as one actor whose operations interleave with all others: its publish and quarantine threads racing a cancellation are FileClaim's.
- SpoolTheorems.PublishedIsSafe: the clock never runs back and stamps directories too; a token is never drawn twice.
- Other gateways sharing the root, and who may own or read it: one process's claims and sweeps over whatever was left there.
- A JSON number is its exact value: a literal that only rounds to a whole number is not one here.
- Regular expressions of the payload check are character classes; what a URL parser accepts is a table.
