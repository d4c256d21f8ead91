# A model of kd-server's stored state

kd-server keeps people, their links to source systems, raw records, assets, identity documents,
tenants and API keys in MongoDB, and changes them through services that make several store calls
without a transaction. This project models the collections and those services, and proves what every
run keeps.

- **Entity resolution.** `Entities` holds the collections and the store calls as functions,
  `EntityStore` and `ResolveService` the store and the services as classes and loops.
  `ResolveProtocol` interleaves any number of requests, one store call at a time. `ResolvePass`,
  `ResolveRecovery` and `ResolveIdentity` follow sequential calls that may stop after any write.
  `ResolveRaces` says which interleaved events duplicate a person, `ResolveDecisions` which overwrite a
  decision, `ResolveBlocked` when a queue stands still, and `ResolveRuns` has the runs that get there;
  `Lookup` asks what is found afterwards, and `ResolveEffects` says in
  terms of payloads what resolving leaves.
- **Assets.** `AssetNumbers` prints and reads numbers, `Assets` and `AssetStore` hold the store,
  `AssetAllocator` interleaves allocation, insertion, transfer and disposal, `AssetIngest` and
  `AssetService` are the service, `Money` prints amounts, `AssetLifecycle` compares assets with their
  history, and `AssetOverlap` does so while requests overlap and events are lost.
- **Identity documents.** `IdentityDocuments` follows saves one after the other, `IdentityProtocol`
  interleaves them with each other and with entity resolution, `IdentityVersions` says which
  interleaved events spoil versions, `IdentityContents` which save each version tells of, and
  `IdentityService` is the code.
- **API keys.** `ApiKeys` follows sequences of operations, `ApiKeySpellings` says which texts name a
  tenant, `TenantStore` is the code.
- **Tenants.** `TenantFrame` proves that no request touches another tenant's documents, and what
  tenants do share.
- **Text recognition.** `OcrGeometry` crops, splits and enlarges pixels, and `OcrPixels` has its tests
  in numbers; `OcrText`, `OcrIdentity` and `OcrFields` read the fields of a card out of the recognised
  text, `OcrReadings` tells each value from its source, and `OcrTemplates` follows the template regions.

Each store call is one atomic step on sequences of documents in insertion order, with the unique
indexes of `internal/store/mongo.go:136-279` enforced. A store is given a connection (`Connections`)
that says which of its calls fail; a failed call changes nothing. `FindOne` returns any document that
its filter accepts. An ObjectID is the number of ObjectIDs handed out before it. Letters and white
space are ASCII.

## What the code does not keep

These follow from the code as it is, and each has a lemma with its condition.

- Two people of a tenant come to share an identifier exactly when a request inserts a person while
  somebody matches its record by then, or amends a person while somebody else matches it
  (`ResolveRaces.RunKeepsUniqueIff`). Without overlap that takes a record that matches more than one
  person (`ResolveIdentity.UniqueIffUnambiguous`). With overlap no such record is needed: two requests
  can both insert (`ResolveRaces.InsertRaceIsReached`), and two can both amend, with no insert at all
  (`ResolveRaces.AmendRaceIsReached`).
- A queue stands still for calls of a size exactly when their batch comes, behind records for review
  alone, to a record whose external id is linked to somebody whom it does not match
  (`ResolveBlocked.QueueMovesIff`): Resolve returns there before it sends the records for review off,
  and nothing is processed in any later call of that size or a larger one
  (`ResolveBlocked.RefusedLinkBlocksQueue`). Where the external id is linked to one of several people
  whom the record matches, it is up to FindOne (`ResolveBlocked.QueueMustMoveIff`). An external record
  that comes again with other identifiers does it (`ResolveBlocked.BlockedQueueIsReached`).
- A request that took a record up before a reviewer rejected it resolves it all the same, or sends it to
  review (`ResolveDecisions.RunKeepsRejectedIff`, `ResolveDecisions.RejectionIsResolved`).
- A phone is looked up untrimmed (`internal/services/lookup.go:71`) but stored trimmed
  (`Lookup.PhoneFoundIffTrimmed`).
- The 10000th asset of a group is stored with serial "0000", and its number does not pass GetAsset's
  pattern; after it the group takes no asset. Ingest checks the category only, so numbers with another
  office or type format are stored and then refused by GetAsset (`AssetService.SlotOutcome`).
- A transfer and a disposal that overlap can undo the disposal; exactly which write does is
  `AssetAllocator.RunKeepsDisposedIff`, and `AssetAllocator.StaleTransferIsReached` gets there.
- Overlapping transfers, events logged out of order and lost events leave assets elsewhere than their
  history says, exactly as in `AssetOverlap.RunKeepsExplainedIff`.
- Versions of an identity document are each there once exactly as long as no save stops between its
  write and its log and none writes over another version than it loaded
  (`IdentityVersions.RunKeepsDenseIff`). Overlapping saves can store one version twice
  (`IdentityVersions.StaleSavesShareVersion`), and one can put the document back behind its own log
  (`IdentityVersions.StaleSaveIsReached`); when exactly is `IdentityVersions.RunKeepsBoundIff`.
- The recogniser's crops keep eight bits a channel, so a pixel of a decoded JPEG page need not come back
  as it was (`OcrGeometry.StoredKeeps`).
- A tenant can keep another from numbering assets: a tenant's next number in a well-formed office, year,
  category and type is taken exactly when another tenant has used these before
  (`TenantFrame.NextTakenIff`).
- VerifyAPIKey trims the key for the lookup and digests it untrimmed, so a key with white space around it
  is refused (`ApiKeys.VerifiesIffOutstanding`).
- An extracted date need not be a day of the calendar (`OcrIdentity.IsoDateValidIff`).

## Model

| member | source | states |
|---|---|---|
| ResolveProtocol.RunIsSafe | internal/services/resolve.go:63-107 | Under every interleaving of resolve requests (each with the stale batch it listed), ingests, review decisions and crashes between any two store calls: a record's person never changes once written, and people, links and records never disappear |
| ResolveProtocol.OneExternalRecordOnePerson | internal/store/person.go:120-142 | In every reachable state, records of one (tenant, source, external id) that have a person have the same one: the upsert filter names the person, the unique index does not |
| ResolveProtocol.ReferencesHold | internal/services/resolve.go:88-100 | In every reachable state a link points to a person of its own tenant, and a record with a person has a link with its (tenant, person, source, external id) |
| ResolveProtocol.ResolveNeverLinksBlank | internal/store/person.go:115-117 | In every reachable state the blank-key error of the upsert is out of Resolve's reach; a refused upsert means that somebody else holds the link |
| ResolveProtocol.UpsertLinkInv | internal/store/mongo.go:152-157 | An accepted upsert keeps the unique index on (tenant, external id, source) and every reference, and leaves the asked-for link in place |
| ResolveProtocol.MarkInv | internal/store/raw.go:61-87 | Writing a person to a record, next to a link that admits no other, rewrites no person already there |
| ResolveProtocol.StatusOnlyInv | internal/services/review.go:66-93 | A status write without a person (a decision, or the review flush) leaves every record's person alone |
| ResolveProtocol.InsertRawsInv | internal/store/ingest.go:89-104 | Whatever came between the two store calls of a batch, the second adds one pending record a payload, of its tenant and slug and with no person, changes no other, and keeps the invariant |
| Entities.ExternalIdNotBlank | internal/services/resolve.go:88-92 | The external id is never blank: the record's own id stands in when the payload has none |
| Entities.ExtractedTrimmed | internal/services/resolve.go:113-130 | Extracted identifiers carry no outer white space, whatever the payload holds |
| ResolveEffects.IdentifiersOfPayload | internal/services/resolve.go:113-130 | A record carries an identifier if and only if its payload has text under national_id, email or phone that is more than white space; it is that text trimmed, the email in lower case |
| ResolveEffects.ExternalIdOfPayload | internal/services/resolve.go:88-92 | The external id is the payload's external_id, else its id, else the record's own, the first that is not blank |
| ResolveEffects.AmendMerges | internal/store/person.go:84-107 | The person write of a pass gives the person found each identifier that the record carries and leaves every one that it lacks, and tenant, id, attributes and everybody else as they were |
| ResolveEffects.InsertStores | internal/store/person.go:58-80 | A new person has the record's identifiers and its whole payload, behind all the others |
| ResolveEffects.PassMarks | internal/services/resolve.go:94-100 | A pass marks its record and no other as resolved to the person, which is never blank, leaves the record's link with its payload, and keeps every other link |
| ResolveEffects.RunKeepsIdentifiers | internal/store/person.go:92-100 | However requests interleave and wherever they stop, nobody's national id, email or phone ever becomes empty, and tenant, id and attributes of a person never change |
| ResolveEffects.FoundBeforeFoundAfter | internal/services/lookup.go:56-73 | Whoever a lookup by email or phone finds before a record without that identifier is resolved holds it afterwards and, while identifiers are unique, is the one found |
| ResolveEffects.ListedByAge | internal/store/raw.go:21-58 | The n-th oldest record with the status is the n-th of the list, up to the limit, which is 100 when none is given |
| ResolveEffects.FinishedCallMarks | internal/services/resolve.go:53-110 | A finished call resolves every record of its batch that carries an identifier to a person, sends every other one to review, and changes no record outside the batch |
| ResolveEffects.BatchStored | internal/store/ingest.go:51-111 | An accepted batch names its source under the trimmed slug and appends its payloads in order as pending records under new ids; it is refused exactly for a blank slug or no payloads |
| ResolvePass.UndisturbedRequestPasses | internal/services/resolve.go:63-101 | The protocol's four calls for one record, with nothing in between, are the pass of the sequential model, cut after the same writes |
| ResolvePass.PersonWriteSettles | internal/store/person.go:58-107 | Once the person is written, searching again can only find that person, and writing it again changes nothing, when at most one person matched |
| ResolvePass.LinkWriteTwice | internal/store/person.go:119-147 | The link write is idempotent |
| ResolvePass.PassRecovers | internal/services/resolve.go:63-101 | A pass cut between any two of its writes and run again ends in exactly the collections of one uninterrupted pass, with no second person, whenever the record matched at most one person at first |
| ResolveRecovery.SettleAhead | internal/services/resolve.go:65-69 | Settling a record ahead of the review records in front of it gives the same collections |
| ResolveRecovery.CutCallKeepsOutcome | internal/services/resolve.go:53-101 | A call that fails after any store write leaves the outcome of draining the queue what it was |
| ResolveRecovery.FinishedCallKeepsOutcome | internal/services/resolve.go:53-111 | So does a call that finishes, whatever its batch size |
| ResolveRecovery.DrainRecovers | internal/services/resolve.go:53-111 | When every queued record matches at most one person as its turn comes: however the calls were sized and wherever they were cut, refused links included, the queue once drained leaves exactly the collections of one uninterrupted pass over it in order |
| ResolveRecovery.FinishedCallDrains | internal/services/resolve.go:53-110 | A finished call takes exactly the oldest min(batch, pending) records off the tenant's queue, keeps the others in order and loses no record |
| ResolveRecovery.DrainsInRounds | internal/services/resolve.go:49-56 | Finished calls of one size empty a queue of n records if and only if there are at least ceil(n / size) of them |
| ResolveBlocked.CallBlocked | internal/services/resolve.go:94-96 | A call whose batch comes, behind records for review alone, to a record whose external id is held by a person that it does not match stops there, sends none of those records off, and changes neither records nor links |
| ResolveBlocked.RefusedLinkBlocksQueue | internal/services/resolve.go:94-107 | Such a record stops the queue for good: no sequence of calls whose batches come to it resolves a record, sends one to review or makes a link |
| ResolveBlocked.ForeignIffRefused | internal/store/person.go:120-142 | Whatever the search answers the link is refused, if and only if the external id is linked to somebody whom the record does not match |
| ResolveBlocked.AcceptedIffNotForeign | internal/store/person.go:120-142 | For a record that matches at most one person, the link is accepted if and only if that is not so |
| ResolveBlocked.AssuredIffAccepted | internal/store/person.go:120-142 | The link is accepted whatever the search answers, if and only if the external id is linked to nobody or to the only person whom the record matches |
| ResolveBlocked.QueueMovesIff | internal/services/resolve.go:53-107 | For every queue and every batch size: some call of the size moves the queue, and some call without a fault does, if and only if the batch does not come, behind records for review alone, to a record whose external id is linked to somebody whom it does not match |
| ResolveBlocked.QueueMustMoveIff | internal/services/resolve.go:53-107 | Every call of the size without a fault moves the queue, whatever the searches answer, if and only if the first record with identifiers that the batch comes to has its external id linked to nobody or to the only person whom it matches |
| ResolveBlocked.BlockedQueueIsReached | internal/services/resolve.go:88-107 | From the empty store: ingesting and resolving a record, and ingesting its external id again with identifiers that its person does not have, behind any number of records without identifiers, makes a queue that is stuck for exactly the batch sizes that come to it |
| ResolveBlocked.RenamedExists | internal/services/resolve.go:113-130 | Two such payloads: one external id, first with one email and then with another |
| ResolveDecisions.StatusAfter | internal/store/raw.go:61-87 | Under interleaving a record's status is moved by a decision on it, by the last write of a request at it and by the review flush of a request that collected it, whatever it was, and by nothing else |
| ResolveDecisions.EventKeepsRejectedIff | internal/services/resolve.go:98-107 | An event that is no decision keeps every rejection if and only if it is not a request's last write at a rejected record or review flush with one collected |
| ResolveDecisions.RunKeepsRejectedIff | internal/services/resolve.go:53-111 | In every step of an interleaved run rejections last until a reviewer decides again, if and only if no event of the run is one of those two |
| ResolveDecisions.RejectionIsResolved | internal/services/resolve.go:98-101 | A run from the empty store: a record that is rejected after a request took it up ends resolved, with a person |
| ResolveDecisions.RejectionIsReviewed | internal/services/resolve.go:103-107 | A run from the empty store: one without identifiers that is rejected after a request took it up ends in review |
| ResolveIdentity.UniqueIffUnambiguous | internal/services/resolve.go:71-86 | From people who share no identifier within a tenant, one pass (or any cut of it) keeps it so if and only if the record matches at most one person |
| ResolveIdentity.CallsKeepUnique | internal/services/resolve.go:53-111 | Hence any sequence of calls over a conflict-free queue keeps it, cut calls included |
| ResolveIdentity.UniqueAfterInsert | internal/store/person.go:58-80 | Inserting a person keeps people apart if and only if nobody carries one of the identifiers by then |
| ResolveIdentity.UniqueAfterAmend | internal/store/person.go:83-107 | Amending a person keeps people apart if and only if nobody else carries one of the identifiers |
| ResolveRaces.EventKeepsUniqueIff | internal/services/resolve.go:71-86 | From people who share no identifier, an event of any request keeps it so if and only if it is neither an insert of a person whom somebody matches by now nor an amendment of one while somebody else matches |
| ResolveRaces.RunKeepsUniqueIff | internal/services/resolve.go:53-111 | In every state of an interleaved run people stay apart if and only if no event of the run is one of those two |
| ResolveRaces.UniqueIffConflictFree | internal/services/resolve.go:53-111 | The same from the empty store |
| ResolveRaces.InsertRace | internal/services/resolve.go:71-78 | It fails by inserts: whenever two requests hold records that share an identifier and both search before either inserts, both can insert a person |
| ResolveRaces.InsertRaceIsReached | internal/services/resolve.go:53-78 | A run from the empty store that gets there with a single record taken up by two requests |
| ResolveRaces.AmendRace | internal/services/resolve.go:79-86 | It fails by amendments alone: two requests whose records each match one person, and share an identifier, can both give it to their person |
| ResolveRaces.AmendRaceIsReached | internal/services/resolve.go:53-86 | A run from the empty store that gets there while people are apart and no record matches two of them; no person is inserted |
| ResolveRaces.CrossingExists | internal/services/resolve.go:113-130 | Four payloads for that run: two emails and one phone |
| EntityStore.MongoStore.FindPersonByIdentifiers | internal/store/person.go:24-55 | Returns some person whom a non-empty identifier matches, with no priority among identifiers, or none when there is none |
| EntityStore.MongoStore.UpsertLink | internal/store/person.go:110-147 | Overwrites the payload of the person's link, inserts a new one, or refuses a blank key and a key of the unique index that another person holds, changing nothing |
| EntityStore.MongoStore.ListRawByStatus | internal/store/raw.go:21-58 | The cursor loop returns the oldest records of the tenant with the status, at most the limit (100 when it is not positive) |
| EntityStore.MongoStore.SaveBatch | internal/store/ingest.go:51-111 | Upserts the source and adds one pending record a payload in order; when the first write fails nothing changes, when the second fails the source is written and no record is |
| EntityStore.MongoStore.FindPersonWithLinks | internal/store/person.go:159-195 | The person found by the key, with the cursor's links of that person in order |
| ResolveService.Resolve | internal/services/resolve.go:42-111 | The loop does what a call of the recovery model says, finished without an error or cut where the error came; Resolved + NeedsReview counts the records processed and Skipped is 0; a blank tenant fails and changes nothing; otherwise, on a store that answers every call, it finishes or stops at a record whose link is refused |
| ResolveService.ResolveRecord | internal/services/resolve.go:71-100 | One record's three writes in order, stopped after the number of writes that were made when a call fails |
| ResolveService.Decide | internal/services/review.go:66-93 | Refuses a blank tenant, a blank id, an id that does not parse and any other decision, in that order and with that message; otherwise sets the status from any state and leaves the record's person as it is |
| ResolveService.Ingest | internal/services/ingest.go:55-88 | A blank tenant, a blank slug and an empty batch add no record |
| ResolveService.ByEmail | internal/services/lookup.go:56-63 | Looks the folded, trimmed email up; fails on a store that answers only for a blank email or tenant |
| ResolveService.ByPhone | internal/services/lookup.go:66-73 | Looks the phone up as given; fails on a store that answers only for a blank phone or tenant |
| Lookup.EmailVariants | internal/services/lookup.go:56-63 | Any upper- or lower-case spelling of an email, with white space around it, is looked up as the same key |
| Text.CaseIff | internal/services/lookup.go:60-60 | Each capital letter has one small one, 32 code points on, and nothing else folds |
| Text.SpaceIff | internal/services/lookup.go:60-60 | The white space that is trimmed is the blank and the five controls from the tabulator on |
| Lookup.EmailFindsResolved | internal/services/lookup.go:56-95 | After a record is resolved, a lookup by any spelling of its email finds a person with it and all and only that person's links; while identifiers are unique it is the resolved person and the links include the record's own, with its payload |
| Lookup.PhoneFoundIffTrimmed | internal/services/lookup.go:66-73 | In every reachable state a lookup by a phone that is not blank finds the owner of the trimmed phone if and only if it is given without outer white space |
| AssetNumbers.FourSorts | internal/store/asset.go:33-33 | On four-digit serials the order of strings is the order of numbers |
| AssetNumbers.SerialOfPrint | internal/services/asset.go:126-126 | The last four characters of a printed number are its serial up to 9999; serial 10000 is cut down to "0000" |
| AssetNumbers.AcceptsIffMatches | internal/services/asset.go:15-15 | Cutting at the hyphens and checking the five parts decides exactly the language of the asset-number pattern |
| AssetNumbers.PrintMatchesIff | internal/services/asset.go:327-331 | A printed number passes GetAsset's check if and only if office, year, category and type are well-formed and the serial has four digits |
| AssetNumbers.PrintReadsBack | internal/store/asset.go:54-54 | Cutting a well-formed number at the hyphens recovers office, year, category, type and serial |
| AssetNumbers.Pad4ReadsBack | internal/store/asset.go:54-54 | The padded text of any year or serial, negative and over four digits included, parses as that number again |
| AssetNumbers.WellFormedInjective | internal/store/asset.go:54-54 | Well-formed numbers that print alike have the same five parts |
| Assets.GenerateProposesNext | internal/store/asset.go:24-63 | When a group holds the serials 1 to n, string maximum plus one is n + 1 while that number is free, and with 10000 assets the allocator only refuses |
| AssetAllocator.SerialsAreDense | internal/store/asset.go:20-90 | However the find, count and insert calls of any number of requests interleave, the n assets of a tenant's (office, year, category, type) carry serials 1 to n in order of creation, the 10000th stored as "0000", and there are never more |
| AssetAllocator.UndisturbedGenerates | internal/store/asset.go:19-66 | The find and count calls of a request, with nothing in between, generate what GenerateAssetNumber does as a whole |
| AssetAllocator.InsertCanCutSerial | internal/services/asset.go:126-126 | In every reachable state a number that passed the count has the four characters that the serial is cut from |
| AssetAllocator.GroupHasOneTenant | internal/store/mongo.go:219-222 | Because numbers are unique over all tenants, a (office, year, category, type) is never held by two tenants |
| AssetAllocator.NeverReissued | internal/store/asset.go:56-63 | A number stays with the asset that got it, and no later asset gets it again |
| AssetAllocator.FullGroupRefuses | internal/store/asset.go:40-63 | After 10000 assets no number of the group passes the count, one that passed it before is refused by the insert, and the group stays as it is for good |
| AssetAllocator.DisposalUndoneIff | internal/store/asset.go:93-117 | An event takes an asset out of "disposed" if and only if it writes back a document of that asset loaded while it was not disposed |
| AssetAllocator.EventKeepsDisposedIff | internal/store/asset.go:93-117 | An event leaves the disposed assets disposed if and only if it is not such a write |
| AssetAllocator.RunKeepsDisposedIff | internal/services/asset.go:360-442 | Every step of an interleaved run does if and only if no event of the run is such a write |
| AssetAllocator.DisposalsLastIff | internal/services/asset.go:360-442 | The same from the empty collection |
| AssetAllocator.StaleTransferUndoesDisposal | internal/services/asset.go:360-442 | It happens to every active asset: a transfer that loads it before a disposal and writes it back after |
| AssetAllocator.StaleTransferIsReached | internal/services/asset.go:360-442 | A run from the empty collection after which an asset is disposed and a transfer about to undo it |
| AssetStore.LastInGroup | internal/store/asset.go:25-36 | The asset of the tenant's group that no other sorts after |
| AssetStore.MongoStore.GenerateAssetNumber | internal/store/asset.go:19-66 | Computes the next serial from the string-sorted last asset and refuses a number that any tenant has |
| AssetStore.MongoStore.CreateAsset | internal/store/asset.go:69-90 | Appends the asset unless its number is taken |
| AssetStore.MongoStore.UpdateAsset | internal/store/asset.go:93-117 | Writes the whole document over the tenant's asset of that number, or reports that there is none |
| AssetIngest.ValidateAssetRecord | internal/services/asset.go:229-324 | Reports every broken field once and in order, accepts exactly the valid records, and fills in the defaults |
| AssetIngest.FaultIff | internal/services/asset.go:229-324 | Exactly which field is reported with which complaint, for every record |
| AssetService.KnownIffPattern | internal/services/asset.go:15-21 | The ten categories that ingest knows are exactly those that the pattern of an asset number allows |
| AssetIngest.CreateOne | internal/services/asset.go:113-221 | One attempt ends in a stored asset with the allocated number, or in one error; link and event are written when the store answers, and never make the attempt fail |
| AssetIngest.IngestAssets | internal/services/asset.go:87-226 | The nested loops carry out the plan of the batch slot by slot: errors, returned numbers and stored assets are those of the slots' outcomes in order. Every stored asset comes from a valid record and has that record's office, category, type, location, description, value and defaults, one piece each, and the record's acquisition year, or the current one when that is 0 or 1; on a store that answers every call it has a link naming the record's office and position and a created event |
| AssetService.IngestConserves | internal/services/asset.go:107-222 | For any selection of the batch's records: the sum of max(1, quantity) over the valid ones is the assets created of them plus their creation errors; Created is the number of returned numbers and of stored assets, which match one by one |
| AssetService.NumberNamesRecord | internal/store/asset.go:54-54 | Where office, type and year have the documented form, cutting an ingested asset's number at the hyphens gives its record's office, year, category and type |
| AssetService.InvalidRecordReported | internal/services/asset.go:96-99 | Every invalid record gets at least one error and no asset |
| AssetService.SlotOutcome | internal/services/asset.go:113-192 | Where groups are dense an attempt gets the next serial; on a store that answers every call it fails only if the group is full or the number is held elsewhere; GetAsset accepts the number if and only if the group is well-formed and the serial has four digits |
| AssetService.IngestKeepsSerials | internal/services/asset.go:87-226 | Whatever fails during an ingest, groups stay dense and numbers unique |
| AssetService.ReturnedNumbersFresh | internal/services/asset.go:220-221 | The numbers that an ingest returns are distinct and were nobody's before |
| AssetService.IngestIsRun | internal/services/asset.go:209-218 | An ingest on a store that answers every call is a run of the ledger's ingest operations, so the history results hold of it |
| AssetService.TransferAsset | internal/services/asset.go:360-398 | A transfer changes the location of the asset and nothing else, and logs an event from the old location to the new one; on a store that answers every call it is the ledger's step and succeeds exactly when the asset exists; an error changes nothing; a lost event is passed over |
| AssetService.DisposeAsset | internal/services/asset.go:401-442 | The same for a disposal, which changes the status alone and logs its notes |
| AssetService.DisposalNotesSay | internal/services/asset.go:420-426 | The notes are the reason, then the sale value to the cent when there is one, then the caller's notes when there are any |
| Money.TwoPlacesNearest | internal/services/asset.go:421-423 | A printed sale value has two digits after the point and reads back as a number of cents at most half a cent from the value, the even one halfway between two |
| AssetService.GetAsset | internal/services/asset.go:327-347 | Refuses every number outside the pattern; otherwise the tenant's asset with all and only its links, or nothing when there is none |
| AssetLifecycle.HistoryExplainsAssets | internal/services/asset.go:360-442 | Over every sequence of ingests, transfers and disposals, replaying an asset's history from its ingest location gives its location and status, each transfer starts where the last one ended, and the first event is its creation |
| AssetLifecycle.DisposalIsFinal | internal/services/asset.go:401-418 | Run one after the other, no operations take an asset out of "disposed" |
| AssetOverlap.EventKeepsExplainedIff | internal/services/asset.go:360-442 | While requests overlap and events may be lost, from assets whose location and status the events explain, logged and about to be logged in the order of the writes: a step leaves them so if and only if it is neither a write over an asset changed since it was loaded, nor the log of a transfer before an earlier one, nor the loss of a transfer or of the only disposal |
| AssetOverlap.RunKeepsExplainedIff | internal/services/asset.go:360-442 | In every state of an interleaved run the assets are explained if and only if no event of the run is one of those three |
| AssetOverlap.ExplainedIffNeverMisled | internal/services/asset.go:209-442 | The same from the empty store |
| AssetOverlap.UndisturbedIsStep | internal/services/asset.go:360-398 | A transfer or disposal with nothing in between is the operation of the sequential ledger |
| AssetOverlap.OverlapMisleads | internal/services/asset.go:360-398 | A run from the empty store to the first of the three: two transfers that load an asset before either writes |
| AssetOverlap.LateLogMisleads | internal/services/asset.go:378-398 | A run to the second: of two transfers one after the other, the later is logged first |
| AssetOverlap.LostTransferMisleads | internal/services/asset.go:391-397 | A run to the third: the event of a transfer is lost |
| IdentityDocuments.NormaliseTwice | internal/services/identity_document.go:59-95 | Normalising with defaults is idempotent |
| IdentityContents.NormalisedSays | internal/services/identity_document.go:59-95 | What each field of a normalised document is, told of what the caller gave: trimmed, folded, or the default of a blank one; dates and the rest as they come |
| IdentityContents.AcceptableIffGiven | internal/services/identity_document.go:78-104 | What a caller has to give, told of the raw fields: tenant, person, national id and a name that are not blank, a known status or none, and dates of the calendar or none |
| IdentityContents.ValidIffDate | internal/services/identity_document.go:109-112 | The accepted dates are exactly the days of the Gregorian calendar up to 9999, written with four, two and two digits; months and leap years by an independent rule |
| IdentityContents.SaveTells | internal/store/identity_document.go:74-124 | A save that has a target stores there what its caller gave, keeping id, key and creation time and counting the version on, touches no other document, and logs at most one snapshot of it; a save without a target changes nothing |
| IdentityContents.VersionsSayWhatWasSaved | internal/store/identity_document.go:57-127 | After any sequence of saves, some failing or losing their snapshot: version n of a document is what the n-th save that stored to it was given, content, person and actor; the live document is the last and every snapshot the save of its version |
| IdentityDocuments.HistoryIsComplete | internal/store/identity_document.go:57-127 | Over every sequence of saves that log what they store, a document's history is versions 1 to n, created and then updated, all of one id, documentId and createdAt, and the last snapshot is the live document |
| IdentityDocuments.HistoryNeverRunsAhead | internal/store/identity_document.go:111-124 | When snapshots may be lost, logged versions still rise strictly and never pass the live version |
| IdentityDocuments.ResaveChangesVersionOnly | internal/store/identity_document.go:81-96 | Saving a stored document as it is changes version and updatedAt and nothing else: what is stored is normalised and acceptable |
| IdentityDocuments.LogAccepted | internal/store/mongo.go:192-196 | The unique index never refuses the snapshot of a save that runs alone |
| IdentityProtocol.RunIsSafe | internal/store/identity_document.go:62-124 | Under every interleaving of saves, resolution events and crashes a stored document stays, with its id, documentId, tenant and creation time |
| IdentityProtocol.DocumentsReferToPeople | internal/store/identity_document.go:62-71 | In every reachable state documents and snapshots name an existing person of their own tenant, snapshots are of documents that are there, and no version of a document is logged twice |
| IdentityVersions.EventKeepsDenseIff | internal/store/identity_document.go:80-124 | While every document has each version 1 to the live one logged or about to be logged, once: an event keeps it so if and only if it is neither the crash of a save between its write and its log nor the write of a save that loaded another version than the live one |
| IdentityVersions.RunKeepsDenseIff | internal/store/identity_document.go:57-127 | In every state of an interleaved run that holds if and only if no event of the run is one of those two |
| IdentityVersions.DenseIffNeverSpoilt | internal/store/identity_document.go:57-127 | The same from the empty store |
| IdentityVersions.LiveVersionMoves | internal/store/identity_document.go:80-109 | Nothing but a save that writes over the document moves its live version: it rises by one exactly when the save loaded it, falls exactly when the save loaded a version before the one before it, and jumps by two or more exactly when the save loaded a later version |
| IdentityVersions.EventKeepsBoundIff | internal/store/identity_document.go:96-124 | While no logged version is past the live one: an event keeps it so if and only if it neither writes a version before a logged one nor logs a version that the live document has fallen behind |
| IdentityVersions.RunKeepsBoundIff | internal/store/identity_document.go:57-127 | In every state of an interleaved run that holds if and only if no event of the run is one of those two |
| IdentityVersions.BoundedIffNeverOvertaken | internal/store/identity_document.go:57-127 | The same from the empty store |
| IdentityVersions.StaleSavesShareVersion | internal/store/identity_document.go:80-95 | It happens: two saves that load a document before either writes, begun at any two times, store the same version, and the second snapshot is refused |
| IdentityVersions.StaleSaveFallsBehind | internal/store/identity_document.go:80-109 | It happens: a save that writes what it loaded before two other saves puts the document back behind the version that the second of them logged |
| IdentityVersions.StaleSaveIsReached | internal/store/identity_document.go:57-127 | From the empty store, for every acceptable document of a person that some run of entity resolution makes |
| IdentityService.MongoStore.SaveIdentityDocument | internal/store/identity_document.go:57-127 | Of any document: count, find, write and log, stopped where a call fails; the collections are those of the save cut at that point, and success means logged. What is stored is the caller's person and content, inserted as version 1 or put in place of the version before with its id, key and creation time. On a store that answers every call, in a state that saves lead to, it succeeds if and only if the person is there and the document is new or stored |
| IdentityService.SaveDocument | internal/services/identity_document.go:54-107 | On success the document at the key is the one returned, its tenant and person are the trimmed ones given and its content is what was given, cleaned and with defaults; the snapshot logged is of it. On a store that answers every call a save succeeds if and only if the document is acceptable, its person is there, and it is new or stored; an unacceptable one is refused with the first broken rule and nothing changes |
| IdentityService.ComplaintIff | internal/services/identity_document.go:78-104 | The checks in their order turn away exactly what is not acceptable |
| IdentityService.ComplaintTells | internal/services/identity_document.go:78-104 | Which complaint a caller gets, told of the raw fields: the first of the six checks that fails |
| ApiKeys.NormalizeSlugFixes | internal/store/tenant.go:254-264 | Normalising a slug is idempotent, and leaves alone exactly the well-formed slugs |
| ApiKeySpellings.NormalizeSlugIff | internal/store/tenant.go:254-264 | A text normalises to a slug if and only if it spells it: letters in either case, blanks or hyphens, white space around it; and to nothing if and only if it spells none |
| ApiKeySpellings.AcceptedIffSpelled | internal/store/tenant.go:186-224 | After any sequence of operations a key is accepted for every spelling of the slug that it is outstanding for, and for no other text |
| ApiKeySpellings.IssuedIffSpelled | internal/store/tenant.go:135-252 | A key is issued to, and revoked for, the slug that the operation's text spells, and issued only to a tenant that is there |
| ApiKeySpellings.EncodedDecodes | internal/store/tenant.go:266-272 | The letters of a secret read back as its bytes, so no two secrets are written alike |
| ApiKeys.CutIssuedKey | internal/store/tenant.go:153-158 | Cutting an issued key at the dot gives back its id and secret, since neither has one, and trimming it changes nothing |
| ApiKeys.VerifiesIffActive | internal/store/tenant.go:186-224 | Looking a key up by the id in its text and comparing digests accepts exactly the keys stored for the tenant and not revoked |
| ApiKeys.VerifiesIffOutstanding | internal/store/tenant.go:135-252 | After any sequence of create, rename, issue and revoke, a key is accepted for a tenant if and only if that text was issued to the normalised slug and no later operation revoked it |
| ApiKeys.SpellingsAgree | internal/store/tenant.go:191-191 | Every spelling of a slug verifies the same keys |
| ApiKeys.TenantsKeepSlugs | internal/store/tenant.go:70-132 | Slugs are well-formed and unique, names never empty, and no operation changes a tenant's slug |
| TenantStore.MongoStore.VerifyAPIKey | internal/store/tenant.go:186-224 | Accepts exactly the keys that verify, on a store that answers, and none otherwise: those with an unrevoked entry of the same digest whose tenant's slug the text spells |
| TenantStore.MongoStore.IssueAPIKey | internal/store/tenant.go:135-183 | Stores the digest of the returned text, with the trimmed label, for the tenant whose slug the text spells; on a store that answers it succeeds if and only if there is one; otherwise nothing changes |
| TenantStore.MongoStore.CreateTenant | internal/store/tenant.go:70-100 | Adds a tenant under the slug that the text spells, its name trimmed, or the slug in capitals for a blank one; on a store that answers it succeeds if and only if the text spells a slug that nobody has |
| TenantStore.MongoStore.UpdateTenantName | internal/store/tenant.go:105-132 | Renames the tenant that the text spells and changes nothing else; succeeds on a store that answers if and only if there is one and the name is not blank |
| TenantStore.MongoStore.RevokeAPIKey | internal/store/tenant.go:227-252 | Marks one unrevoked key of the spelled tenant with the trimmed id; on a store that answers it succeeds if and only if there is one |
| TenantFrame.OthersUntouched | internal/store/person.go:102-102 | As long as no request is for a tenant, its people, links, records and sources stay as they are under every interleaving, although the person update filters on personId alone |
| TenantFrame.OtherAssetsUntouched | internal/store/asset.go:100-107 | The same for assets under ingests, transfers and disposals |
| TenantFrame.OtherDocumentsUntouched | internal/store/identity_document.go:103-106 | The same for identity documents and their history |
| TenantFrame.OtherHistoryUntouched | internal/services/asset.go:360-442 | The same for the history of assets |
| TenantFrame.OtherLinksUntouched | internal/services/asset.go:194-207 | The same for asset links: an ingest adds links of its own tenant only |
| TenantFrame.OtherKeysUntouched | internal/store/tenant.go:70-252 | The same for tenants and API keys, under operations for other slugs |
| TenantFrame.VerdictsUntouched | internal/store/tenant.go:186-224 | No operation for another tenant changes whether a key is accepted for this one |
| TenantFrame.NextTakenIff | internal/store/asset.go:56-63 | Tenants do share the numbers: up to its 9999th asset of a well-formed office, year, category and type, a tenant's next number is taken if and only if another tenant holds assets of it |
| TenantFrame.CheckRefusesIff | internal/store/asset.go:56-63 | So under interleaving a number fails the count if and only if the tenant has numbered on since, or another tenant holds assets of the group |
| TenantFrame.HeldGroupRefuses | internal/store/asset.go:56-63 | While another tenant holds assets of a group, well-formed or not, no number of it passes the count for this one |
| OcrGeometry.FindBox | internal/services/document_extraction.go:368-389 | The stride-2 scan finds the smallest box of the sampled dark pixels, or that there is none |
| OcrGeometry.PrepareOCRImage | internal/services/document_extraction.go:367-408 | The crop lies inside the page, equals it pixel for pixel at eight bits a channel, and contains every sampled dark pixel; a page is left alone exactly for the two reasons given |
| OcrPixels.GrowReaches | internal/services/document_extraction.go:394-398 | The crop is every pixel of the page within twenty of the box |
| OcrPixels.TooSmallIff | internal/services/document_extraction.go:399-401 | The page is left alone when the crop has less than a quarter of its width or less than an eighth of its height, both rounded down |
| OcrPixels.NearWhiteIff | internal/services/document_extraction.go:425-428 | Nearly white is 246 or more of 255 in every channel |
| OcrGeometry.StoredKeeps | internal/services/document_extraction.go:396-401 | Eight bits a channel keep what the tests for white and for coloured print look at, and the colour itself if and only if its channels are multiples of 257 |
| OcrGeometry.CropAsDark | internal/services/document_extraction.go:396-401 | So a pixel of the crop is nearly white exactly when the page's is |
| OcrGeometry.SplitWideOCRImage | internal/services/document_extraction.go:319-336 | A page is cut exactly when it is 2.2 times as wide as high, into halves that rejoin to it pixel for pixel at eight bits a channel |
| OcrPixels.WideIff | internal/services/document_extraction.go:319-322 | A page counts as wide if and only if the quotient of its sides is at least 2.2 |
| OcrGeometry.TemplatesProper | internal/services/document_extraction.go:83-96 | The nine regions that the service cuts out lie on the card |
| OcrGeometry.RegionFits | internal/services/document_extraction.go:241-249 | A region of the card that is not empty lies inside the image, so the copy reads no pixel outside |
| OcrGeometry.WriteTemplateRegion | internal/services/document_extraction.go:241-278 | Every pixel of the enlarged region is the cleaned pixel of the region that it stands for |
| OcrPixels.RegionRounded | internal/services/document_extraction.go:241-249 | The corners of a region are its fractions of the card, rounded down to a pixel |
| OcrPixels.LuminanceNear | internal/services/document_extraction.go:269-270 | The grey value of a colour is its weighted brightness to within one step of 256 |
| OcrPixels.CleanPixelIs | internal/services/document_extraction.go:259-276 | Coloured print and light greys turn white, dark greys black, and everything between keeps its brightness |
| OcrGeometry.EveryThirdPixel | internal/services/document_extraction.go:255-258 | Sampling every third pixel gives back the cleaned region |
| OcrGeometry.CleanTwice | internal/services/document_extraction.go:259-276 | Cleaning a cleaned pixel changes nothing |
| OcrIdentity.ParseTSVWords | internal/services/document_extraction.go:483-511 | Collects exactly the words of the well-formed lines below the heading, their confidence total and their count; a line of 64 KiB, counted in bytes of UTF-8, fails the table |
| OcrIdentity.RowRead | internal/services/document_extraction.go:494-505 | A row is a word if and only if it has twelve columns, the twelfth not blank and the eleventh a confidence that is not negative; the word is these two |
| OcrIdentity.TableRead | internal/services/document_extraction.go:489-508 | The heading is passed over and the other rows are read in order |
| OcrIdentity.AverageUniform | internal/services/document_extraction.go:749-754 | The base confidence is a mean in per cent: equally sure words make the text as sure as they are |
| OcrIdentity.ScannableIff | internal/services/document_extraction.go:487-489 | An ASCII table is read if and only if every line is shorter than 65536 characters |
| OcrIdentity.LinesRoundTrip | internal/services/document_extraction.go:487-489 | Lines ended by a line feed, with or without a carriage return, are the lines that the scanner reads |
| OcrIdentity.AverageWithin | internal/services/document_extraction.go:749-754 | A table whose counted confidences are at most 100 gives a base confidence between 0 and 1, and no counted word is blank |
| OcrIdentity.TaggedRoundTrip | internal/services/document_extraction.go:653-662 | The text that the template regions are joined into gives every region's value back under its tag |
| OcrTemplates.TemplateFields | internal/services/document_extraction.go:513-630 | In a text with the lines of a template among others, each region's value is the value of its own field, unless an earlier line is tagged like it |
| OcrTemplates.MissingRegion | internal/services/document_extraction.go:653-662 | A region that was not read has no tagged value, and its field is left to the text as a whole |
| OcrTemplates.ReadTemplate | internal/services/document_extraction.go:219-238 | The loop joins the regions that were read, with their trimmed texts, and passes over the others |
| OcrTemplates.ReadingsProper | internal/services/document_extraction.go:219-238 | What distinct regions are read as can be told apart: proper values under distinct tags, each a region's name |
| OcrTemplates.TemplatesDistinct | internal/services/document_extraction.go:83-96 | The names of the nine regions are tags, distinct on each side of the card |
| OcrIdentity.IsoDateValidIff | internal/services/document_extraction.go:718-728 | An extracted date is one that Save accepts if and only if its month and day exist |
| OcrText.WordsBeforeStopStops | internal/services/document_extraction.go:683-694 | On single-spaced text the words before the stop labels are at most the given number, single-spaced, and contain no stop label in any case |
| OcrText.TextAfterLabelStops | internal/services/document_extraction.go:676-695 | The same for what is read after a label |
| OcrText.TextAfterStandaloneLabelStops | internal/services/document_extraction.go:697-716 | The same for what is read after a standalone label |
| OcrReadings.LabelledValue | internal/services/document_extraction.go:676-695 | The value of a label is the words behind the colon, semicolon, hyphens or blanks after its first occurrence in any case, up to the first stop label and the word limit |
| OcrReadings.NoLabel | internal/services/document_extraction.go:677-680 | A text without the label has no value for it |
| OcrReadings.StandaloneValue | internal/services/document_extraction.go:697-716 | The same behind the end of a matched label |
| OcrText.CleanNameTwice | internal/services/document_extraction.go:664-674 | Cleaning a name is idempotent and gives nothing or two to five single-spaced words of the allowed form |
| OcrReadings.NameKeptIff | internal/services/document_extraction.go:664-674 | Exactly which names are kept, and that a kept one is its words with single blanks |
| OcrReadings.AddressKeptIff | internal/services/document_extraction.go:632-651 | Exactly which addresses are kept, by characters, length and number of letters, and that a kept one is its words with single blanks |
| OcrText.CleanAddressTwice | internal/services/document_extraction.go:632-651 | Cleaning an address is idempotent, its letter count included |
| OcrText.StopAt | internal/services/document_extraction.go:683-689 | A stop label begins at the place found, or the place is the end, and none begins before it |
| OcrText.FindStop | internal/services/document_extraction.go:683-689 | The loop over stop labels finds that place |
| OcrFields.ParseIdentityText | internal/services/document_extraction.go:513-630 | Each field by its source: the tagged region's value where it has one, else what the text has, else nothing; sex is "F" exactly when a pattern for F matches the tagged value or the text, and "M" exactly when none does and one for M matches. A field has a confidence if and only if it was found, and it is that of where it was found, between 0 and the base confidence; the warnings say what is missing |
| OcrFields.RateWithin | internal/services/document_extraction.go:523-619 | No field is rated above the base confidence, or below zero |
| OcrFields.NoteAddress | internal/services/document_extraction.go:603-620 | The first half of a multi-word address is the house and the second the island, and a blank between them rebuilds it |

## Left out

- HTTP handlers, middleware, routing, the admin page and the terminal menus: no state of their own.
- The MongoDB driver, BSON, timeouts, contexts and nil receivers: a store call is an atomic step that may fail.
- A call that fails after the database carried it out: a failed call is modelled as having changed nothing; a request that stops after a call that succeeded is modelled.
- ResolveRecovery.DrainRecovers: asks that every queued record, when its turn comes, match at most one person; otherwise the result depends on which of them FindOne returns.
- UpdateMany and InsertMany over several documents are one step each.
- Created and updated times of people, links, records, assets and keys; documents of one batch share their time, so lists are taken in insertion order.
- Non-ASCII letters and white space in ToLower, ToUpper, TrimSpace and Fields.
- SHA-256 is an injective constructor, random bytes and the current time are parameters, and keys are compared as values.
- Descriptive asset fields (sub-category, vendor, dates of use, approvals, attributes) and classification names: copied through without being looked at.
- Identity document address, blood group, flags, field confidences: copied through as one field; listing documents.
- QueryAssets and its paging, ReviewService.List, ListTenants, GetAssetHistory: reads whose order among equal times the database decides.
- Classification lookups, the version service, payload mapping, environment loading.
- Tesseract and Poppler, temporary files, JPEG coding, the choice of a card's side, and joining several passes and pages.
- Regular expressions other than the asset number, the slug, the name and the address: parameters of `OcrFields.ParseIdentityText`, with what they promise of a match in `OcrIdentity.Sound`.
- Parsing of numbers in the word table (`strconv.ParseFloat`) and of an ObjectID's text (`primitive.ObjectIDFromHex`): parameters of `OcrIdentity.ParseTSVWords` and `ResolveService.Decide`; NaN and infinite confidences are not modelled.
- Sale values that are infinite or not a number; a sale value is a real.
- OcrTemplates.TemplateFields: asks that a blood group or serial number matched in a region be the first match of the region's text with more behind it, as the source's two expressions have it.
- OcrTemplates.ReadTemplate: leaves out the averaged confidence of the regions, and an image whose region is empty, which ends the extraction.
- TenantFrame.OthersUntouched: says nothing of a tenant that has requests of its own; which ids and asset numbers those get depends on what the other tenants did before.
- Confidences are reals, and the corner of a region is rounded down from a real product rather than a float64 one.
