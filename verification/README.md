# Verified models of the card, portal and tooling state machines

This project models the parts of the suite that carry real protocols and codecs,
and proves what they promise. Run `dafny verify dfyconfig.toml` to check it.

- **Cards** (`CardLayout`, `TraitStore`, `TraitRuns`, `CardReader`, `CardRuns`,
  `CardRefresh`, `CardSteps`, `CardSession`, `CardDeepRead`, `StoreRuns`). A MIFARE Classic
  card is sixteen sectors of four blocks, kept in step with a registry record: sector
  keys, own keys, traits, writer id, the initialised flag. Every authentication, read and
  write may fail. An acknowledged write took effect, a refused one did not, an unanswered
  one may have done either.
- **Portal** (`PortalFiles`, `PortalServer`, `PortalRuns`, `PortalTornLine`). The subscribe
  transaction over firewall set, allowlist file, consent log, activity log and memory:
  as a class whose steps can fail, and as a state machine of atomic steps of many request
  threads, of which every call of the class is a run of one thread.
- **RFID service and log ingest** (`RfidService`, `RfidRuns`, `ScanIngest`).
- **Set files** (`MseParser`, `MseRoundTrip`). The indentation parser against a printer
  written as a specification.
- **Service tokens** (`Base64Url`, `ServiceTokens`, `TokenRuns`). The unpadded base64url
  of sections 3.2 and 5 of RFC 4648, the compact form of section 7.1 of RFC 7515, and
  the life of a token.
- **Agent Cards** (`AgentCard`, `AgentCardBuild`), **fixture loading**
  (`FixtureLoader`), **tail reading** (`TailLines`), **file statistics** (`SoulStats`),
  **archive names** (`ArchiveNames`), **migration leaves** (`MigrationLeaves`).
- `PyText` holds the few Python text operations the others share, `Bytes` the byte type,
  `Sets` facts about finite sets, `Wrappers` the option and result types.

Code that changes state step by step is modelled by methods and classes, each proved
against a specification function; the lemmas are about these functions and about whole
runs of them.

## What turned out conditional

Where a property fails for some inputs, the model keeps the code's behaviour and a lemma
says exactly when it holds; where the condition alone does not show it, another lemma
gives an input on which it fails.

- A trailer write that gets no answer counts as written. When the card dropped it, the
  saved keys no longer open the sector (`CardReader.KeyAgreementAfterInit`,
  `CardReader.DroppedFirstKeys`); the factory keys still do, so a later initialisation
  repairs it (`CardRuns.NeverLockedOut`, `CardRuns.StepKeepsOpenable`).
- An initialisation that finishes only some trait sectors empties the registry while the
  others may still show traits: exactly those whose key block no write changed. The
  initialised flag of an earlier run stays set (`CardReader.EmptiedRegistryAgrees`,
  `CardReader.PartialInitDisagrees`).
- Keys and values ending in a space do not survive the fixed-width codec
  (`CardLayout.FixedAsciiRoundTrip`, `TraitStore.TraitWriteKeepsAgreement`).
- A writer id with white space at its ends, or one that cleaning leaves empty, is changed
  by the next deep read (`CardDeepRead.WriterIdSurvives`).
- A key newly found by a deep read is saved as unverified, although the read marks it as
  verified: the save clears the flag. Finding it again sets it
  (`CardDeepRead.VerifiedWhenFoundTwice`).
- A failed trait write of a key that does not end in a space breaks agreement exactly
  when it changed what the pair of a registered key shows, or the key block of the pair of
  a new key (`TraitRuns.FailedWriteKeepsAgreement`). A complete deep read then saves what
  the card shows, so the registry need not stay the map of the successful writes
  (`StoreRuns.FailedWriteThenRead`, `StoreRuns.FailedWriteImported`); the claims of
  `TraitRuns.StoreRefinesMap` are about trait writes alone.
- If the card shows text that normalising changes, such as the padding inside a
  half-written value, card and registry differ after a complete read
  (`CardRefresh.DeepReadKeepsTraits`, `CardRefresh.TornValueIsNotNormal`,
  `CardRefresh.ShortOverLong`). Over mixed runs the two agree exactly when no pair is torn
  (`StoreRuns.AgreeIffNoneTorn`).
- After a failed truncation the next consent record joins a torn line
  (`PortalRuns.TornLineSwallowsNextRecord`, `PortalTornLine.CommittedButUnreadable`).
- An ingest run ended by an exception repeats what it recorded
  (`ScanIngest.AbortedRunRepeats`).
- An authentication that finds a token expired writes without looking again. Any call
  that ends the token in between breaks the books (`TokenRuns.CheckThenWrite`): a sweep
  gives a second RETIRED event (`TokenRuns.RaceRetiresTwice`), a revocation is hidden
  (`TokenRuns.RaceHidesRevocation`).
- A skill slug with a bar may be placed, and its sigil is then cut at the bar
  (`AgentCardBuild.SigilReadsBack`, `AgentCardBuild.BarredSlugFits`).
- The header of the file statistics is that of the first non-empty chunk
  (`SoulStats.HeaderStartsFile`). The code asks for chunks of 64 KiB, and an ordinary
  uploaded file gives a shorter first chunk only when that is the whole file; it takes a
  custom stream to get another header.

## What is taken as given

- JSON reads back what it wrote and SHA-256 tells texts apart (`ServiceTokens.Sound`);
  HMAC is any function. A consent record is one line of text
  (`PortalRuns.EncodesLines`), and a line of the scan log yields an attempt or none.
- For Agent Cards, SHA-256 in hexadecimal has 64 upper-case digits
  (`AgentCardBuild.HexDigest`), and the three screening expressions match neither a
  hexadecimal number nor the fixed field values (`AgentCardBuild.Permissive`).
- `nft -f` is all-or-nothing, and noting the size of the consent log does not fail.
- Log appends are whole lines, ingest runs are serial, rotated files have fresh inodes.
- Clock readings, random keys, the outcome of fallible operations and the resolved MAC
  are inputs.

## Model

| member | source | states |
|---|---|---|
| `CardLayout.AddressRoundTrip` | apps/cards/classic_layout.py:78-98 | The block of a sector and offset lies in that sector, and it is a trailer block exactly when it is the sector's trailer. |
| `CardLayout.FixedAsciiRoundTrip` | apps/cards/classic_layout.py:104-123 | A clean text that fits its field encodes, and decodes to itself if and only if it does not end in a space; no decoded text ever ends in a space. |
| `CardLayout.EnsureSectorKeyRecords` | apps/cards/classic_layout.py:212-219 | Every managed sector gets keys: recorded ones are kept, only missing ones are generated, and nothing else appears. |
| `CardLayout.DecodeTraitsFromDump` | apps/cards/classic_layout.py:332-353 | The loop over the dump collects the six pairs' entries in pair order. |
| `CardLayout.NormalizeTraitRecords` | apps/cards/classic_layout.py:356-391 | The loop keeps the normalised records only. |
| `CardLayout.FirstEmptyTraitSector` | apps/cards/classic_layout.py:394-405 | The loop finds the first pair neither of whose sectors any record uses. |
| `TraitStore.LookupIsLastPair` | apps/cards/classic_layout.py:332-353 | Decoding six pairs into a map gives each key the value of the last pair that holds it. |
| `TraitStore.TargetIsSafe` | apps/cards/reader.py:620-626 | The pair a trait write picks is at or after every pair showing the key, and what it overwrites is a stale copy or nothing. |
| `TraitStore.EntryUpdateIsMapUpdate` | apps/cards/reader.py:634-659 | Replacing the content of the picked pair is one update of the decoded map. |
| `TraitStore.RefusedIffFull` | apps/cards/classic_layout.py:394-405 | A write finds no pair if and only if the key is new and six keys are stored. |
| `TraitStore.WrittenPairDecodes` | apps/cards/classic_layout.py:270-290 | The six blocks built for a trait decode to that trait if and only if key and value do not end in a space. |
| `TraitStore.TraitWriteKeepsAgreement` | apps/cards/reader.py:634-661 | Card and registry agree after a full trait write, for an agreeing card, if and only if key and value do not end in a space. |
| `TraitStore.AgreesPairByPair` | apps/cards/reader.py:1100-1115 | Card and registry agree if and only if every pair shows the record of the key the registry gives it or, given to no key, nothing but keys that a later pair owns. |
| `TraitRuns.StoreRefinesMap` | apps/cards/reader.py:620-669 | Over every run of trait writes with any failing blocks, the registry is a plain map updated by the successful calls in order; card and registry agree if and only if no pair is torn, and only pairs whose last write failed are; never more than six keys. |
| `TraitRuns.RunKeepsImage` | apps/cards/reader.py:620-669 | Behind every run is a card image that agrees with the registry and differs from the card only in the half-written pairs. |
| `TraitRuns.SeventhKeyRefused` | apps/cards/reader.py:620-626 | A call finds no room if and only if it brings a seventh key; it then changes neither registry nor trait blocks. |
| `TraitRuns.RetryRestores` | apps/cards/reader.py:620-661 | Repeating a failed trait write targets the same pair, and its first full success restores agreement. |
| `TraitRuns.FailedWriteKeepsAgreement` | apps/cards/reader.py:628-651 | A failed write keeps an agreeing card in agreement: for a registered key, if and only if its pair still shows the old record; for a new canonical key, if and only if its key block was left alone. For any other new key the key as the card shows it may also be blank or owned by a later pair. |
| `TraitRuns.FailedWriteTells` | apps/cards/reader.py:628-651 | The same on any card: a failed write leaves all other pairs telling what they told, with the exact condition for its own. |
| `TraitRuns.SuccessfulWriteTells` | apps/cards/reader.py:634-661 | On any card a successful write settles its own pair if and only if key and value are canonical, and leaves all other pairs telling what they told. |
| `CardReader.Card.Write` | apps/cards/reader.py:180-216 | The card under a write: acknowledged took effect, refused did nothing, unanswered may be either. |
| `CardReader.WriteCandidatesSuffice` | apps/cards/reader.py:353-382 | The candidate keys name none twice, always include the recorded and the factory key A, and for sectors 0 and 1 are the factory key alone. |
| `CardReader.WriteBlock` | apps/cards/reader.py:180-216 | One write changes at most its block; success means it took effect unless an unanswered trailer write was dropped, which the missing read-back cannot tell; data blocks are verified. |
| `CardReader.WriteBlockWithCandidates` | apps/cards/reader.py:385-397 | Trying the candidates in turn changes at most the block and succeeds on a sound card as soon as some candidate opens it. |
| `CardReader.WriteWriterMetadata` | apps/cards/reader.py:400-424 | An id that is too long is refused before anything is written. Otherwise only blocks 5 and 6 can change and every key agreement stays; no reported error means block 5 holds the encoded id, an empty one as the default, and block 6 the stamp; on a sound card with the factory key A there is no error. |
| `CardReader.InitializeSector` | apps/cards/reader.py:456-485 | Zeroing then rekeying one sector touches only its four blocks; a rekeyed sector was zeroed first, one that failed keeps its keys, and whatever fails each data block is as before or zero. |
| `CardReader.InitializeSectors` | apps/cards/reader.py:447-485 | The loop over sectors 3 to 15 leaves every sector either done or failed with the matching effect on the card, each data block as before or zero, and saves keys for the done ones only. |
| `CardReader.InitializeDetectedCard` | apps/cards/reader.py:427-511 | Under every pattern of reported failures: only blocks 5, 6 and those from sector 3 on can change; every managed sector is either done, its data blocks zero and its keys saved, or failed, its keys unsaved and each data block as before or zero; the initialised flag, traits and writer follow; on a sound card whose trailers hold recorded or factory keys every sector is done, and the writer's mark is written where sector 1 has the factory key A. |
| `CardReader.KeyAgreementAfterInit` | apps/cards/reader.py:447-497 | A sector whose trailer matched its record still matches after initialisation if and only if it is not one whose freshly generated keys were written without an answer and dropped. |
| `CardReader.DroppedFirstKeys` | apps/cards/reader.py:456-497 | Such a sector exists: a blank card that drops its first new trailer without an answer no longer matches the saved keys. |
| `CardReader.EmptiedRegistryAgrees` | apps/cards/reader.py:488-500 | Under every pattern of failures, a card showing no trait still shows none; after initialisation empties the registry, card and registry agree if and only if every pair that showed a key before had its key block changed; pairs whose first sector was done show nothing. |
| `CardReader.PartialInitDisagrees` | apps/cards/reader.py:456-497 | Such a disagreement exists: an initialisation that does sector 3 alone empties the registry while the second pair goes on showing its key. |
| `CardRuns.NeverLockedOut` | apps/cards/reader.py:353-511 | Over every run of initialisations, trait writes and deep reads, whatever fails, each trailer holds its recorded keys or the factory keys, and the writer's candidates include its key A. |
| `CardRuns.KeysAgreeThroughout` | apps/cards/reader.py:427-511 | Over every run, a sector in agreement with its record stays so as long as no first rekeying of it was dropped without an answer. |
| `CardRuns.StepKeepsOpenable` | apps/cards/reader.py:427-511 | One step keeps a sector openable, loses its agreement exactly when that happens, and an acknowledged rekeying restores it. |
| `CardSession.WritePayload` | apps/cards/reader.py:639-651 | The six writes change only their pair, each block to its new content or not at all; no error means all six took effect. |
| `CardSession.WriteTraitAt` | apps/cards/reader.py:628-669 | One trait write is one step of the store: no trailer changes, the registry changes only on full success, every other pair stays; the writer id is saved with it exactly when the writer's mark was written without error. |
| `CardSession.SetCurrentCardTrait` | apps/cards/reader.py:586-671 | The whole operation is a run of card steps that starts and ends where it does: one write on an initialised card; on a new card an initialisation, and after a complete one a write. A failed initialisation leaves just what its step leaves. Unusable text changes nothing; on a new card success leaves one agreeing trait; on a sound agreeing card with room it succeeds; the sectors losing key agreement are exactly those the initialisation loses; a reported writer is on the card and saved. |
| `CardDeepRead.TryKeys` | apps/cards/reader.py:1151-1173 | A working key moves to the front, no candidate is lost, and on a sound card a key is found exactly when one opens the block. |
| `CardDeepRead.ReadWithCandidates` | apps/cards/reader.py:1146-1211 | A block read this way is what the card holds; the key used is a candidate that opens it and, until the read ends, the own key of its type; without data no key is noted. |
| `CardDeepRead.DeepRead` | apps/cards/reader.py:1118-1229 | The dump is true to the card under every pattern of failures and complete on a sound card whose trailers hold recorded or factory keys. The read is one step of the card runs: keys and initialised flag stay, traits follow the dump; writer id and own keys are saved as functions of the dump and of the last key of each type that read a block. |
| `CardDeepRead.SaveKeys` | apps/cards/models/rfid.py:259-265 | Saving clears the verified flag of an own key that is not the stored one. |
| `CardDeepRead.VerifiedWhenFoundTwice` | apps/cards/reader.py:1187-1228 | Over any sequence of deep reads the saved own key is the last one found, and it is marked verified if and only if the find before it, or the key saved at the start, was the same. |
| `CardDeepRead.SaveTagLayoutMetadata` | apps/cards/reader.py:988-1010 | The saved writer id becomes the one on the card, stripped, when the four blocks of label and writer's mark were read, and otherwise stays. |
| `CardDeepRead.WriterIdSurvives` | apps/cards/reader.py:1213-1216 | A writer id written to block 5 is what the next such read saves if and only if it is not empty and has no white space at its ends; otherwise the stripped text or the default is saved. |
| `CardDeepRead.SaveTagTraitsFromDump` | apps/cards/reader.py:1088-1115 | The registry is replaced only by a complete dump. |
| `CardRefresh.DeepReadKeepsTraits` | apps/cards/reader.py:1088-1115 | A deep read of an agreeing card changes no trait, whichever blocks it managed to read; a complete one brings the registry to what the card shows if and only if the card shows only normal keys and values, always saves normal ones, and changes the registry of such a card if and only if the two disagree. |
| `CardRefresh.TornValueIsNotNormal` | apps/cards/classic_layout.py:332-353 | When the end of a longer old value stays behind a shorter new one, the padding between them is read as text and the card shows a value that is not normal. |
| `CardRefresh.ShortOverLong` | apps/cards/reader.py:628-651 | Such a card is reached: for every value of more than sixteen characters and every one of fewer, from an agreeing card by a failed write of which only the first value block took effect. |
| `CardRefresh.DeepReadAfterRun` | apps/cards/reader.py:1100-1115 | After any run of canonical writes that leaves no pair half written, a deep read changes no trait. |
| `StoreRuns.AgreeIffNoneTorn` | apps/cards/reader.py:427-671 | Over every mixed run of trait writes, deep reads and initialisations with any failures: card and registry agree if and only if no pair is torn. Torn are at most the suspects: pairs torn at the start, and pairs written without success or changed by an initialisation, until a success on them, a complete read of a card showing normal text, or an emptied registry. Never more than six keys. |
| `StoreRuns.StepTearsPairs` | apps/cards/reader.py:427-671 | What one operation does to the torn pairs: a write touches its own pair only; an initialisation that empties the registry leaves torn exactly the pairs that kept their key; a complete read leaves none if and only if the card shows normal text only. |
| `StoreRuns.FailedWriteThenRead` | apps/cards/reader.py:628-651 | A failed write of a canonical key followed by a complete read leaves the registry of an agreeing card unchanged: for a registered key, if and only if the value its pair then shows has the registered one as its normal form; for a new key, if and only if its key block was left alone; on a card showing normal text, if and only if the failed write kept agreement. |
| `StoreRuns.FailedWriteImported` | apps/cards/reader.py:1088-1115 | One such case: a failed write all of whose blocks reached the card is saved by the next complete read as if it had succeeded. |
| `PortalFiles.ReadMacAllowlist` | scripts/ap_portal_server.py:378-390 | The loop over the lines gives the set of MACs the file parses to. |
| `PortalFiles.Sorted` | scripts/ap_portal_server.py:682-688 | Rendering lists every MAC once in ascending order. |
| `PortalFiles.AllowlistRoundTrip` | scripts/ap_portal_server.py:378-390 | Parsing any rendering of a set of normal MACs gives the set back. |
| `PortalFiles.TruncateUndoesAppends` | scripts/ap_portal_server.py:695-708 | Truncating to the noted size restores the consent log byte for byte, whatever was appended since, and removes a log that was not there. |
| `PortalServer.PortalState.Subscribe` | scripts/ap_portal_server.py:528-641 | For every pattern of failures: accepted means firewall, allowlist file, memory and one consent line are committed together; failed with the undo done leaves firewall, parsed allowlist, memory and consent log as they were; memory never lets in whom the firewall does not. Whichever thread runs it, it takes a path of that thread's atomic steps, so every call is part of the runs below. |
| `PortalServer.PortalState.constructor` | scripts/ap_portal_server.py:421-429 | A started portal is a start of those runs. |
| `PortalServer.PortalState.SubscribeNew` | scripts/ap_portal_server.py:567-613 | The same for a MAC not yet let in, sync before files before memory, with the rollback in the order of the code. |
| `PortalServer.PortalState.SubscribeKnown` | scripts/ap_portal_server.py:614-630 | A MAC already let in gets one more consent line and nothing else; a failed append is truncated away. |
| `PortalServer.PortalState.Undo` | scripts/ap_portal_server.py:588-612 | The rollback: each of its three steps may fail, and only when none does is it reported done. |
| `PortalRuns.StepKeepsInv` | scripts/ap_portal_server.py:565-630 | Each atomic step of any thread keeps the portal's invariant, and authorization and committed consents only grow. |
| `PortalRuns.PortalSafety` | scripts/ap_portal_server.py:565-630 | At every moment of every interleaving: memory is within the firewall set, authorization only grows, no committed consent is lost, every MAC let in since start-up has its record, and with the lock free and no failed undo the file parses to the set in memory. |
| `PortalRuns.CommittedLine` | scripts/ap_portal_server.py:393-396 | A record appended at a line start is a line of its own and disturbs no earlier record. |
| `PortalRuns.TornLineSwallowsNextRecord` | scripts/ap_portal_server.py:703-708 | A record appended after a torn piece of a line becomes a line of its own if and only if nothing was torn; otherwise it is joined to the torn piece, and can be read only if it stood in the log before. |
| `PortalTornLine.CommittedButUnreadable` | scripts/ap_portal_server.py:565-630 | There is a run with a failed append and a failed truncation, with or without the firewall, after which a MAC is let in and its consent committed, byte for byte, while no line of the log is that consent. |
| `RfidService.RFIDServiceState.EmitScanArtifacts` | apps/cards/rfid_service.py:301-331 | One observation moves the service state and yields the output that the runs below are made of. |
| `RfidService.RFIDServiceState.BuildScanArtifactPayload` | apps/cards/rfid_service.py:333-405 | Presence, stamping, deep scan and cached overlay, with the cache left as the code leaves it. |
| `RfidRuns.EmissionsAreSpaced` | apps/cards/rfid_service.py:301-331 | Two emissions of one tag with none between are the dedupe interval apart unless the later one is forced. |
| `RfidRuns.PresenceBudget` | apps/cards/rfid_service.py:459-472 | One presence has at most one automatic deep scan and at most two forced emissions. |
| `RfidRuns.DeepDataProvenance` | apps/cards/rfid_service.py:333-405 | Deep data emitted, or kept in the cache, was read from the tag now present and in this presence. |
| `RfidRuns.CacheAlwaysOk` | apps/cards/rfid_service.py:333-405 | The cached payload is always empty or a deep payload that names the current tag. |
| `RfidRuns.PresenceDuration` | apps/cards/rfid_service.py:436-457 | With a clock that does not go back, the duration after k observations is exactly the time since the first, from 0 to k - 1 times the presence gap. |
| `ScanIngest.IngestState.IngestServiceScans` | apps/cards/scanner.py:184-224 | One run records, in order, the well-formed lines from the start offset to the end of the file and stores that end. |
| `ScanIngest.RunIsExactlyOnce` | apps/cards/scanner.py:143-224 | Over every sequence of whole-line appends, ingest runs and rotations to fresh inodes, what was recorded from a file is exactly its well-formed lines before the ingested offset, once each, and the offset is at a line start. |
| `ScanIngest.AbortedRunRepeats` | apps/cards/scanner.py:184-224 | A run cut short after k attempts makes the next one repeat just these; ingest stays exactly-once if and only if k is 0. |
| `MseParser.ParseMseSet` | apps/cards/mse.py:59-121 | The loop with its mutable stack and nested dictionaries gives the value the line-by-line specification unfolds to. |
| `MseParser.StackAlwaysOk` | apps/cards/mse.py:74-79 | At every line of every text the indent stack is non-empty, strictly increasing and refers to existing containers. |
| `MseRoundTrip.LayoutRoundTrip` | apps/cards/mse.py:59-121 | Running the lines of the indented layout of any legal tree gives the tree back. |
| `MseRoundTrip.PrintedLineRead` | apps/cards/mse.py:65-99 | Every legal line is classified as what it was printed from. |
| `MseRoundTrip.ParseRoundTrip` | apps/cards/mse.py:59-121 | For every legal tree and indent width, parsing the printed text gives the tree back. |
| `Base64Url.Unpadded` | apps/apis/models.py:318-320 | Stripping removes exactly the padding, which the remaining length determines, and leaves only base64url digits. |
| `Base64Url.RoundTrip` | apps/apis/models.py:318-325 | Decoding the unpadded form gives back every byte string. |
| `ServiceTokens.ThreeParts` | apps/apis/models.py:327-339 | Three dot-free parts joined by dots split into just these parts. |
| `ServiceTokens.JwtRoundTrip` | apps/apis/models.py:327-364 | An encoded token decodes, its signature checks, and its claims come back. |
| `ServiceTokens.JwtInjective` | apps/apis/models.py:327-339 | Different claims never share a token. |
| `ServiceTokens.TokenStore.IssueToken` | apps/apis/models.py:368-409 | Issuing adds one active row and its event, with the caller's claims over the standard ones; a taken hash changes nothing. |
| `ServiceTokens.TokenStore.RetireExpiredTokens` | apps/apis/models.py:412-443 | The sweep retires every overdue row, one event each, and counts them. |
| `ServiceTokens.TokenStore.AuthenticateJwt` | apps/apis/models.py:446-469 | The checks in the code's order, with the write made on finding the token expired. |
| `ServiceTokens.TokenStore.RevokeToken` | apps/apis/models.py:493-503 | Revoking changes one row and adds one event. |
| `TokenRuns.RunKeepsAudit` | apps/apis/models.py:367-469 | Over every run of calls each token has exactly one RETIRED event if its retirement time is set and none otherwise. |
| `TokenRuns.RetireOneKeepsAudit` | apps/apis/models.py:455-464 | The write an authentication makes on an expired token keeps the books if and only if the row is active when the write is made, which the code does not check again. |
| `TokenRuns.CheckThenWrite` | apps/apis/models.py:446-503 | With any calls running between check and write, the books are kept if and only if none of them retired or revoked the token. |
| `TokenRuns.RaceRetiresTwice` | apps/apis/models.py:412-464 | A sweep between the check and the write of an authentication gives a second RETIRED event. |
| `TokenRuns.RaceHidesRevocation` | apps/apis/models.py:455-503 | A revocation in between is overwritten: the token ends as retired with a revocation time. |
| `TokenRuns.LetInUntilExpiryOrRevocation` | apps/apis/models.py:446-469 | After any calls, an issued token is let in with exactly its claims if and only if it has neither expired nor been revoked, and a refusal names the reason. |
| `TokenRuns.NeverAgain` | apps/apis/models.py:446-503 | Once refused, an issued token is never let in again. |
| `FixtureLoader.LoadFixturesWithDeferredRetry` | env-refresh.py:495-544 | The passes load and skip what the specification says, in at most n + n(n+1)/2 attempts. |
| `FixtureLoader.LoadSettles` | env-refresh.py:508-544 | Every listed fixture succeeds exactly once or is skipped, each load found what it needed, and all skipped fixtures fail in the final state. |
| `FixtureLoader.LoadsLeastClosedSet` | env-refresh.py:508-544 | When loading more never hurts, the loaded set is the least one closed under what can be loaded. |
| `FixtureLoader.OrderDoesNotMatter` | env-refresh.py:508-519 | Then neither priorities nor list order change which fixtures get loaded. |
| `AgentCard.ParseRecord` | apps/cards/agent_card.py:338-362 | The loop over the fields gives the record, or the first error, of the specification. |
| `AgentCard.PaddedImageParsesTheSame` | apps/cards/agent_card.py:194-198 | Whatever the records, their padded image parses to the same manifest or the same error as the unpadded one, and so do their bytes if they are ASCII. |
| `AgentCard.AcceptedCard` | apps/cards/agent_card.py:365-401 | An accepted card has its manifest in sector 1, four complete identity records, and each of its ten extension records exactly once as capability or file. |
| `AgentCardBuild.FitsInAnySlot` | apps/cards/agent_card.py:278-284 | Whether a skill record is accepted does not depend on the slot it is tried in. |
| `AgentCardBuild.ChoiceMeans` | apps/cards/agent_card.py:265-291 | The placed skills are the first ten that individually fit, every other non-blank slug is omitted in order, and the overflow note says a slug came after ten that fit. |
| `AgentCardBuild.SigilReadsBack` | apps/cards/agent_card.py:278-281 | The sigil read back from a placed skill is the one written if and only if the slug contains no bar. |
| `AgentCardBuild.BarredSlugFits` | apps/cards/agent_card.py:278-284 | Such a slug is accepted: `a`, a bar and `B=c` is placed under every screen that passes its two pieces, and its sigil is not read back. |
| `AgentCardBuild.BuildAgentCardSectorPayloads` | apps/cards/agent_card.py:246-308 | For every identity source and skill list the builder yields fifteen records of at most 48 bytes; unpadded, padded and as bytes they parse to the same manifest, whose capabilities are the placed skills in order. |
| `TailLines.LaterLinesStay` | scripts/ap_client_activity.py:24-29 | Bytes put in front of a non-empty text change no line but its first, even between CR and LF. |
| `TailLines.Tail` | scripts/ap_client_activity.py:16-30 | For every file, limit and positive chunk size, reading backwards gives the last lines of splitting the whole file. |
| `SoulStats.RollingWindow.Feed` | apps/cards/soul.py:45-60 | The window holds the last bytes of all it was fed. |
| `SoulStats.CountBytes` | apps/cards/soul.py:250-264 | The loop over a chunk keeps histogram and counters those of all bytes so far. |
| `SoulStats.CountersMean` | apps/cards/soul.py:250-266 | The printable count, the adjacent repeats, the total and the longest run are what their names say. |
| `SoulStats.ByteStatistics` | apps/cards/soul.py:216-266 | For every way of cutting the file the statistics describe the whole of it, edge signatures and sample included; the header is the start of the first non-empty chunk. |
| `SoulStats.CountersAgree` | apps/cards/soul.py:250-254 | Histogram entries sum to the total, those of printable bytes to the printable count. |
| `SoulStats.RepeatsAndRuns` | apps/cards/soul.py:256-266 | Adjacent repeats plus number of runs is the total, and no run is longer than the repeats allow. |
| `SoulStats.ChunkingDoesNotMatter` | apps/cards/soul.py:230-266 | The same bytes cut differently give the same statistics. |
| `SoulStats.HeaderStartsFile` | apps/cards/soul.py:230-235 | The header is the first 512 bytes of the file if and only if the first non-empty chunk is that long or is the whole file. |
| `ArchiveNames.NormalizeKeepsSafeSegments` | scripts/error_report.py:196-199 | Normalising keeps exactly the segments that are not empty, `.` or `..`, in order, and doing it twice changes nothing. |
| `ArchiveNames.TriedBound` | scripts/error_report.py:274-281 | Pigeonhole: numbered candidates that are all in use are distinct and no more than the names in use. |
| `ArchiveNames.DedupedIsFree` | scripts/error_report.py:270-281 | The name given is free; a used name gets its first free number, found within one more candidate than there are names in use; a safe name stays safe. |
| `ArchiveNames.ReportBuilder.DedupeArchivePath` | scripts/error_report.py:270-281 | The counter loop ends, yields that name and records it. |
| `ArchiveNames.ReportBuilder.AddBytes` | scripts/error_report.py:252-268 | Adding appends one entry under a free safe name; entry paths stay pairwise distinct and equal to the recorded set. |
| `MigrationLeaves.LeafMigrations` | scripts/check_migration_conflicts.py:252-261 | The leaves are the files no listed migration depends on, in order. |
| `MigrationLeaves.CheckLeaves` | scripts/check_migration_conflicts.py:284-315 | The duplicate-leaf error is reported exactly when there is more than one leaf. |
| `MigrationLeaves.LeafAbove` | scripts/check_migration_conflicts.py:252-261 | Without cycles every migration is reached from some leaf. |
| `MigrationLeaves.OneLeafIffHead` | scripts/check_migration_conflicts.py:252-261 | A non-empty app has a leaf, and exactly one if and only if some migration reaches every other; that one is the leaf. |

## Left out

- Exceptions raised halfway through initialisation (they skip the save): the model has the failures reported by status.
- Sector keys and traits are taken in the normal form every save gives them; raw JSON of other shapes is not part of this model.
- The LCD label and its codec; the label and the time stamp a deep read saves beside the writer id; the metadata it adds to its result. The time stamp of a write enters as its block.
- The dump a deep read saves on the tag record, and the basic read, which saves label and writer's mark in the same way when the factory key A opens their four blocks.
- Reader timing, polling, IRQ threads and back-off in `apps/cards/background_reader.py`: hardware.
- PortalServer.PortalState.Subscribe: the mail check and MAC lookup enter as their results; comments and unparsable lines of the allowlist file are lost by a rollback in the code too, so the parsed set is restored and not the text.
- HTTP handlers, UDP sockets, nft rule text, ARP and neighbour lookup: I/O.
- ScanIngest.IngestState.IngestServiceScans: offsets count characters, where the code keeps text-mode file positions; the service writes its log as ASCII JSON (`apps/cards/rfid_service.py`, `append_scan_log`), for which the two coincide. Bytes that are not valid text and a carriage return inside a line are not modelled.
- The RFID payload key that automatic initialisation adds, the rounding of durations and the LCD notification.
- MseParser.ParseMseSet: nested dictionaries are numbered containers, so that two names for one dictionary are two equal numbers.
- TokenRuns.RunKeepsAudit: for serial calls; of concurrent ones only the check and the write of an authentication are taken apart (`TokenRuns.CheckThenWrite`), and database isolation is not part of this model.
- Token prefixes, security-group lookups, and the form validation of tokens.
- Fixture loading itself (`_load_fixture_with_retry`) and every other database command of `env-refresh.py`; a failed load is taken to leave the loaded set as it was.
- The three screening expressions of Agent Cards, reader events, seed scores and activation plans.
- Non-mapping sector images: a list of fifteen payloads is the mapping with keys 1 to 15.
- Entropy, compression, media traits, hashes of chunks and rounding of ratios in `apps/cards/soul.py`: libraries and floating point.
- The upload size checks before the statistics loop.
- Report contents, redaction and zip writing in `scripts/error_report.py`.
- MigrationLeaves.OneLeafIffHead: for apps without `replaces`; dependencies of replaced files still count as pointing, so the equivalence is not claimed for them.
- Merge-chain and naming checks of migrations.
