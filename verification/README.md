# Object records: a verified model of the record store

The system keeps *object records*: a record is Mutable (it grows versions), a
Snapshot (a frozen copy), or Fixed (fossilised: irreversible, carrying the
SHA-256 digest of its last payload). Records live in normalised database
tables (record rows, version rows, attribution edges, snapshot edges); large
payloads live in a write-once blob store under content-addressed keys. Several
HTTP requests at a time read and change both, one query at a time.

What is proved here is that a fixed record can be trusted. That rests on code
in four crates: the core says what fixing a record means, the repository
repeats it as updates of rows, the HTTP handler checks a digest and copies a
blob before it calls the repository, and the conversion layer has to read back
whatever was written.

## How it is built

Codecs and conversions:

- `Digests`, `Things`, `Convert`: digests as text (a display form and two
  parsers), creator literals, records to rows and back.
- `Core`: the record and its lifecycle, with the mutable record as a class.
- `Storage`: the blob store as a class, and its conditional write.

The repository, sequentially:

- `Tables`: rows, transactions, and the order in which a chain is read.
- `Load`: reading a record back, and the well-formedness of the tables.
- `Repository`: the repository as a class; each method is proved against the
  function of the tables that says what it does.
- `Refinement`, `SequentialRuns`: the tables stand for a map from ids to
  records, and each repository operation is the record operation on that map.

Concurrent requests:

- `Server`: a step machine. A request is a program counter with the values it
  has read; each query, each transaction and each storage call is one step. Any
  number of POST, PUT, fix, GET and asset requests interleave, and any of them
  may be cut off between steps. Reading a record is three separate steps.
- `Integrity`: what holds in *every* run, whatever overlaps.
- `Fossils`, `Frozen`, `Answers`: what holds when no PUT and no fix of one
  record overlap, everything else interleaving freely.
- `Breaches`: for runs that do overlap, exactly which steps break those properties.
- `Overlap`: three concrete runs in which they are broken.
- `Sizes`: exactly which steps store a size that the blob does not have.
- `Replies`, `Uploads`: what POST, PUT, GET and uploads are answered in every
  interleaving, and what is stored from then on.
- `Alone`: each request from any well-formed state, beside any others that stand
  still: when it goes through, what it leaves, and why it is refused otherwise.
- `AppendOrder`: chains are read in commit order.
- `Provisioning`: concurrent first-time sign-ins.

## What is assumed

- Transactions are atomic and serialisable. Creating a row whose id is taken
  fails the whole transaction; updating or deleting a missing row does nothing.
- SHA-256 and the base64 decoder (section 4 of RFC 4648) are arbitrary
  functions, parameters of the step machine. Nothing is assumed about
  collisions anywhere.
- Minted ids (UUID version 7, section 5.7 of RFC 9562) and clock readings are
  arbitrary in the step machine: no result about it but those of `AppendOrder`
  needs a clock that moves, and none needs freshness. `AppendOrder` assumes a strictly increasing
  clock, and says so in `ClockTicks`.
- Versions of one instant are read in the order of their ids, in every read
  alike. A record saved with several versions gives them all one timestamp, so
  its order rests on this. So do `Fossils`, `Frozen`, `Answers` and `Breaches`
  wherever the clock stands still: the handler's read and the repository's read
  must agree which of several rows of one instant is the last.
  `AppendOrder.TimesAloneDecide` shows that with a ticking clock chains grown
  through HTTP do not need it.
- "A PUT and a fix overlap" means that at some moment both requests have made
  their first read and neither has ended or got past its transaction
  (`Fossils.Apart`). A request that has arrived and read nothing overlaps with
  nothing.
- `put_if_absent` has the meaning of `If-None-Match: *`, section 13.1.2 of
  RFC 9110; keys have the meaning they have in the in-memory store.

## Where the code falls short of what it says

- "Fixed is irreversible" fails when a PUT and a fix of one record overlap: the
  append does not look at the state, and the transition reads the record again
  and checks that it is not fixed yet, but not that the payload still has the
  digest. A PUT that commits after the fix changes the fixed record
  (`Overlap.OverlapThaws`). One that commits between the check and the second
  read makes the fix write a wrong fossil (`Overlap.OverlapMisfixes`), or moves
  the new version's blob reference to the blob that was checked
  (`Overlap.OverlapRedirects`). `Breaches.RunRightIff`, `Breaches.RunFrozenIff`
  and `Breaches.RunPayloadsIff` say for every run exactly which steps do such
  harm; without the overlap none does.
- The size of a blob reference is said to be cross-checked with the store when
  one is configured (`crates/objectrecords-api/src/routes/records.rs:187-189`). It
  never is (`Sizes.AnySizeAppends`, `Sizes.WrongSizeStored`); `Sizes.RunFitsIff`
  says exactly which runs keep all sizes right.
- Appending to a record that does not exist leaves a version without a record
  (`Load.OrphanLeft`, exactly then by `Load.AppendKeepsWellFormed`); only the PUT
  handler's own read prevents it.
- The HTTP layer's digest parser is described as strict, but takes a plus sign
  for a leading zero (`Digests.ApiAcceptsMore`, exactly so by `Digests.ApiAcceptsExactly`).
- The recovery lookup of a sign-in is said to miss only if a row was deleted
  (`crates/objectrecords-db/src/repository.rs:487-491`). Any other failure of the
  create does it too (`Provisioning.FaultCanVanish`, `Provisioning.RetryStep`).
- Fixing in the tables hardens the version that *reads* last, fixing a record
  the version that *is* last. For a chain saved out of id order these differ
  (`Refinement.FixesDiverge`); `Refinement.FixCommutesWithSave` says exactly when
  that can be seen.

## Model

| member | source | states |
|---|---|---|
| Fossils.FossilsAlwaysOk | crates/objectrecords-api/src/routes/records.rs:408-494 | over every run in which no PUT and no fix of one record overlap, every fixed record's digest is the digest of its trailing payload and a trailing blob lies under its fossil key, and every request in flight has checked what is still there |
| Fossils.FixedRecordIntegrity | crates/objectrecords-api/src/routes/records.rs:408-494 | whatever record a find returns as fixed in such a run has the digest of its last body; a blob body has the key `/fixed/<hex>`, and the blob there has that digest |
| Fossils.ApplySound | crates/objectrecords-api/src/routes/records.rs:338-494 | the invariant behind it is kept by every single step of any request |
| Fossils.CommitSound | crates/objectrecords-db/src/repository.rs:722-794 | a fix transaction writes a right fossil and leaves every other request sound, other fixes of the same record included |
| Fossils.AppendSound | crates/objectrecords-db/src/repository.rs:673-712 | an append to a record nobody is fixing leaves all fossils right and all requests sound |
| Fossils.CreateSound | crates/objectrecords-db/src/repository.rs:837-878 | a create leaves all fossils right and all requests sound |
| Frozen.FixedIsFrozen | crates/objectrecords-api/src/routes/records.rs:338-494 | once found fixed, a record is found with the same id, kind, digest, chain and attribution at every later moment of a run without overlap |
| Frozen.FrozenFrom | crates/objectrecords-db/src/repository.rs:442-474 | from that moment all rows a read looks at stay the same and every request that arrives later reads them |
| Frozen.LateRequestsSeeTheFossil | crates/objectrecords-api/src/routes/records.rs:41-52 | requests that arrive after the record was fixed: a GET is answered with exactly that record though its three reads are spread out, a PUT or another fix is refused with the state conflict |
| Frozen.SecondCommitKeeps | crates/objectrecords-db/src/repository.rs:762-792 | when two fixes race, the second commit writes what is already there |
| Frozen.AppendThawsIff | crates/objectrecords-db/src/repository.rs:686-706 | an append leaves what is found of a record unchanged if and only if it is for another record: no state protects the record |
| Frozen.CommitThawsIff | crates/objectrecords-db/src/repository.rs:762-792 | a transition that commits on a fixed record leaves it unchanged if and only if it writes the digest and the body already there |
| Answers.FixesAlwaysStand | crates/objectrecords-api/src/routes/records.rs:408-494 | at every moment a fix request past its transaction stands on a record fixed under its own digest, and no refused digest text gets any further |
| Answers.FixAnswersTruly | crates/objectrecords-api/src/routes/records.rs:486-494 | a fix answered with a record was answered with the stored record: fixed, under the digest the caller claimed, rightly so |
| Breaches.RunRightIff | crates/objectrecords-api/src/routes/records.rs:338-494 | over every run, overlapping or not: all fixed records are right at every moment if and only if every fix transaction finds as last body one fit for its digest and every append that reads last in a fixed record brings such a body |
| Breaches.CommitRightIff | crates/objectrecords-db/src/repository.rs:762-792 | a fix transaction leaves its record right if and only if the body that then reads last has the digest, and lies under its fossil key if it is a blob: the transaction looks at neither |
| Breaches.HardenRightIff | crates/objectrecords-db/src/repository.rs:722-792 | a transition that re-reads the current chain writes a right fossil if and only if the payload it finds, moved to the fossil key, has the digest: it does not hash it again |
| Breaches.AppendRightIff | crates/objectrecords-db/src/repository.rs:686-706 | an append keeps a right fossil right if and only if it does not read last or its body is fit for the digest |
| Breaches.RunFrozenIff | crates/objectrecords-db/src/repository.rs:442-474 | over every run: a record found fixed is found the same at every later moment if and only if no append to it commits and no transaction writes it another digest or body |
| Breaches.RunPayloadsIff | crates/objectrecords-db/src/repository.rs:748-792 | over every run: each version goes on standing for a payload of the digest it had if and only if no fix transaction writes over a version a body for another payload |
| Breaches.PayloadsAlwaysKept | crates/objectrecords-api/src/routes/records.rs:454-484 | without overlap every version whose payload is there keeps the digest of that payload between any two moments: fixing moves a blob, it does not exchange it |
| Overlap.OverlapThaws | crates/objectrecords-db/src/repository.rs:686-706 | for any PUT of another payload, a run from a good start in which the PUT commits after the fix: a record found fixed is then found changed, and its digest misses its payload |
| Overlap.OverlapMisfixes | crates/objectrecords-db/src/repository.rs:722-792 | for any such PUT, a run in which it commits between the fix's check and its second read: the fix turns a record that was not fixed into a wrong fossil |
| Overlap.OverlapRedirects | crates/objectrecords-db/src/repository.rs:748-760 | the same with two stored blobs: the version the PUT appended ends up standing for the other blob |
| Overlap.OverlapIsExcluded | crates/objectrecords-api/src/routes/records.rs:338-364 | the no-overlap condition rules out the run that thaws and the run that misfixes |
| Alone.FixAlone | crates/objectrecords-api/src/routes/records.rs:408-505 | a fix goes through if and only if its text is a digest, the record is there and not fixed, and the payload of its last version can be fetched and has that digest, whatever the state and the length of its chain: the fossil is shown, the map of records differs there only, and the blob is at the fossil key. Otherwise nothing changes and the answer is bad request, not found, state conflict, internal or hash mismatch, each for its reason |
| Alone.FixFromSecondRead | crates/objectrecords-db/src/repository.rs:714-795 | from its second read on a fix commits and shows the fossil of what it finds, or is refused by the repository if the record was fixed meanwhile |
| Alone.PutAlone | crates/objectrecords-api/src/routes/records.rs:338-383 | a PUT appends if and only if the record is there and mutable, the body means something and the version id is free; it is shown the record as it then is, which is the record's own update if and only if the version comes after its chain. Otherwise nothing changes and the answer is not found, state conflict with the actual state, bad request or a database error |
| Alone.PostAlone | crates/objectrecords-api/src/routes/records.rs:269-319 | a POST creates exactly the record it asks for, credited to the subject of its token, if and only if kind and body mean something and both minted ids are free; otherwise nothing changes and it is told why |
| Alone.GetAlone | crates/objectrecords-api/src/routes/records.rs:41-52 | a GET shows the record if it is there and is not found otherwise; it changes nothing |
| Alone.AssetAlone | crates/objectrecords-api/src/routes/assets.rs:89-134 | an upload is refused without storage, empty or above 10 MiB, and then changes nothing; otherwise its bytes are under the key of their digest unless something was there, and the answer says which |
| Server.IntoBodyIff | crates/objectrecords-api/src/routes/records.rs:222-247 | a body is accepted if and only if it is the decoded bytes of a text that is not empty, or a blob reference whose key is not empty |
| Replies.PutAnswersTruly | crates/objectrecords-api/src/routes/records.rs:338-383 | in every run, a PUT answered with a record sent a body that means something (the bytes its text decodes to, or the blob it names), was shown a version with it, and that version is stored from then on, moved at most to a fossil key |
| Replies.PostAnswersTruly | crates/objectrecords-api/src/routes/records.rs:269-304 | in every run, a POST answered with a record has stored from then on a record under that id, of the kind it asked for, with one first version of the body its request means, credited to the subject of its token |
| Replies.PostIsCredited | crates/objectrecords-api/src/routes/records.rs:278-319 | the answer names `creo_user:` and the subject, or the anonymous user; from then on every edge of the record names that user, and without a backtick in the subject every find shows it and that user's list holds the record |
| Replies.AnswersStand | crates/objectrecords-api/src/routes/records.rs:486-494 | a request that has been answered keeps its answer |
| Uploads.UploadAnswersTruly | crates/objectrecords-api/src/routes/assets.rs:89-134 | in every run, an upload that was not cut off is refused if and only if it is not to be taken, for the right reason; otherwise its answer names the key, the size and the digest of its bytes, and the key holds a blob of that digest from then on |
| Uploads.OutcomeIsTrue | crates/objectrecords-api/src/routes/assets.rs:106-134 | in every run, an upload is told that it wrote if and only if its key was free the moment before its step |
| Uploads.OneWriter | crates/objectrecords-storage/src/lib.rs:152-166 | of all uploads answered for one key at most one is told that it wrote |
| Replies.GetShowsThreeMoments | crates/objectrecords-db/src/repository.rs:442-474 | in every run, a GET shows a record row of one moment, the chain of a later one and the edge of a still later one; the chain is never older than the state |
| Sizes.RunFitsIff | crates/objectrecords-api/src/routes/records.rs:187-189 | over every run: every stated size is that of its blob at every moment if and only if every create, append, fix and upload of the run stores only right sizes |
| Sizes.CreateFitsIff | crates/objectrecords-db/src/repository.rs:837-878 | a create keeps all sizes right if and only if each body it brings states the size of its blob, if that is there |
| Sizes.AppendFitsIff | crates/objectrecords-db/src/repository.rs:686-706 | an append keeps all sizes right if and only if its body states the size of its blob |
| Sizes.FixFitsIff | crates/objectrecords-db/src/repository.rs:748-792 | a fix transaction does if and only if the body it writes states the size of the blob under the fossil key |
| Sizes.PutFitsIff | crates/objectrecords-storage/src/lib.rs:248-264 | a conditional write does if and only if the key was taken or every version that awaits that blob states its size |
| Sizes.AnySizeAppends | crates/objectrecords-api/src/routes/records.rs:338-371 | a PUT of a blob reference goes on to append, whatever size it states, if and only if the record is mutable and the key is not empty |
| Sizes.WrongSizeStored | crates/objectrecords-api/src/routes/records.rs:269-304 | a POST of three steps that stores a size its blob does not have, for any blob and any wrong size |
| Integrity.AlwaysIntact | crates/objectrecords-db/src/repository.rs:442-474 | over every run of any requests, overlapping or not: tables well-formed, blobs addressed by content, and from start to end no row lost, no record's edge and no blob's bytes changed |
| Integrity.ApplyOk | crates/objectrecords-api/src/routes/records.rs:269-494 | every single action keeps that invariant and only moves stored data forward |
| Integrity.BetweenMoments | crates/objectrecords-storage/src/lib.rs:248-264 | between any two moments of a run the bytes under every key and every stored row survive: so two gets of one key agree |
| Integrity.PutKeepsAddressed | crates/objectrecords-api/src/routes/records.rs:459-476 | whatever is under `/fixed/<h>` or `/assets/<h>` has digest h, kept by uploads and by the copy a fix makes |
| Integrity.ReadsNeverFail | crates/objectrecords-db/src/repository.rs:442-474 | every stored record loads at every moment, and no request of any run is answered with an error that speaks of damaged rows, although it reads in three steps |
| Integrity.ReadStepOk | crates/objectrecords-db/src/repository.rs:442-474 | each of the three reads, on whatever the earlier ones returned under interference, goes on or ends with a proper record of that id; a record once seen is never missed |
| Integrity.PcOkStable | crates/objectrecords-api/src/routes/records.rs:408-494 | what a request has read stays vouched for under every change other requests can make |
| Integrity.RingsNeverLost | crates/objectrecords-db/src/repository.rs:748-792 | between any two moments of any run a chain does not get shorter; each version keeps its id, time, inline bytes or blob size, and moves at most to a fossil key |
| Integrity.LifecycleMonotonic | crates/objectrecords-db/src/repository.rs:778-792 | between any two moments a record's kind stays, its state stays or becomes fixed, and it has a digest exactly when fixed |
| Integrity.LaterCreatesLose | crates/objectrecords-db/src/repository.rs:543-566 | of racing creates of one id, each that comes after the record is there is refused and leaves the tables alone |
| AppendOrder.ReadsFollowCommits | crates/objectrecords-db/src/repository.rs:424-437 | with a ticking clock and no overlapping PUTs of one record, a chain reads as it did at any earlier moment followed by the versions committed since, in commit order |
| AppendOrder.TimesAloneDecide | crates/objectrecords-db/src/repository.rs:673-712 | in such runs every listing ordered by time alone is the chain as read: ties never arise |
| AppendOrder.AlwaysTimely | crates/objectrecords-db/src/repository.rs:673-680 | in such runs no two versions of a record share an instant, and a PUT about to commit holds a reading later than its whole chain |
| AppendOrder.StepIds | crates/objectrecords-db/src/repository.rs:686-706 | one step adds at most its own version, at the end of its own chain |
| Provisioning.SameSubSameUser | crates/objectrecords-db/src/repository.rs:492-529 | in every run of concurrent sign-ins, all that arrived for one subject and have returned hold the same user, of that subject, whenever they return, and it is stored exactly once |
| Provisioning.ReturnsItsSubject | crates/objectrecords-db/src/repository.rs:531-540 | a sign-in that has returned holds a stored user of the subject it arrived for |
| Provisioning.ReturnedRow | crates/objectrecords-db/src/repository.rs:492-529 | that user is the row its subject had when it arrived, or else one that some sign-in of that subject, itself or the rival that won, stored afterwards under the id and the time that one took when it looked in vain |
| Provisioning.SignInAlone | crates/objectrecords-db/src/repository.rs:492-529 | alone, a sign-in returns its subject's row if there is one, creates one under its own id and time if there is none, and fails if and only if that id is taken |
| Provisioning.LoserReturnsRival | crates/objectrecords-db/src/repository.rs:516-527 | a sign-in whose create comes second returns the row of the one that came first |
| Provisioning.AlwaysInv | crates/objectrecords-db/src/schema.rs:146-151 | no subject ever has two rows, every user returned is stored as returned, and no row is lost |
| Provisioning.NeverVanishes | crates/objectrecords-db/src/repository.rs:518-527 | if creates fail only by the unique index, the second lookup never misses |
| Provisioning.RetryStep | crates/objectrecords-db/src/repository.rs:516-527 | a step keeps every pending second lookup sure to hit if and only if it is not a create that fails for another reason |
| Provisioning.FaultCanVanish | crates/objectrecords-db/src/repository.rs:487-527 | after one such other failure the second lookup can miss |
| SequentialRuns.RunsRefine | crates/objectrecords-db/src/repository.rs:543-827 | after any sequence of saves, appends, transitions and deletes the tables stand for exactly the map of records that inserting, updating, fixing and removing lead to |
| SequentialRuns.RunsContinue | crates/objectrecords-core/src/lib.rs:377-410 | over any such sequence that does not delete it, a stored record keeps its id, its kind and every version in its place, with its bytes or its size |
| SequentialRuns.RunsFromEmpty | crates/objectrecords-db/src/repository.rs:543-827 | from an empty database such a sequence leads to exactly the map it leads to from the empty map |
| SequentialRuns.OpRefines | crates/objectrecords-db/src/repository.rs:543-827 | one operation on the tables is the operation of the same meaning on the map, all other ids unchanged, and keeps the tables well-formed |
| Refinement.SaveLoadsBackIff | crates/objectrecords-db/src/repository.rs:543-566 | a saved record is found exactly as it was if and only if its version ids go up, its kind is no custom kind with a built-in name and its creator has no backtick |
| Refinement.CreatedChain | crates/objectrecords-db/src/convert.rs:248-256 | a chain saved in one call, under one timestamp, is read in its own order if and only if its ids go up |
| Refinement.SaveInserts | crates/objectrecords-db/src/repository.rs:837-878 | a save inserts one record or changes nothing at all; it never alters a record or version that was there |
| Refinement.SecondSaveLoses | crates/objectrecords-db/src/repository.rs:557-564 | after a save of an id every further save of that id fails and changes nothing |
| Refinement.AppendIsUpdateIff | crates/objectrecords-db/src/repository.rs:673-712 | an append to a mutable record is the core update of that record, all others unchanged, if and only if the new row comes after every row of its chain |
| Refinement.TransitionIsFix | crates/objectrecords-db/src/repository.rs:714-795 | the transition is the core fix: in what it returns, in what is found afterwards, and in leaving every other record as it was |
| Refinement.FixCommutesWithSave | crates/objectrecords-db/src/repository.rs:748-760 | saving a mutable record and fixing it in the tables is found as saving its fossil is, if and only if the version with the greatest id is the last one or hardening changes neither body |
| Refinement.FixesDiverge | crates/objectrecords-db/src/repository.rs:748-760 | a record of two versions out of id order for which the two ways end differently |
| Refinement.SnapshotFixesAsSource | crates/objectrecords-db/src/repository.rs:714-795 | fixing a stored snapshot of a record answers with the fossil of that record itself, under the snapshot's ids, if and only if those ids go up and the kind is plain |
| Refinement.FixCommutesWithSaveSnapshot | crates/objectrecords-db/src/repository.rs:568-615 | the same for a snapshot stored under its own ids |
| Refinement.FixCommutesWithWrite | crates/objectrecords-db/src/repository.rs:837-878 | the common part of the two: for any record not yet fixed, writing then fixing against fixing then writing |
| Refinement.SnapshotIndependent | crates/objectrecords-db/src/repository.rs:568-615 | a stored snapshot has record and version ids nothing else had, is found with the source's bodies in order if and only if its new ids go up (and kind and creator are plain), and every other record, its source included, is found as before |
| Refinement.SnapshotEdges | crates/objectrecords-db/src/repository.rs:599-614 | a saved snapshot leaves one edge, from itself to its source, after all earlier ones; only a delete at an end removes an edge, and a delete keeps every edge of other records |
| Refinement.RowsAreTouched | crates/objectrecords-db/src/repository.rs:686-792 | appends and transitions set when the record was last changed, and leave when it was created |
| Refinement.SaveSucceedsIff | crates/objectrecords-db/src/repository.rs:543-566 | a save succeeds if and only if the record is no snapshot, its id and its version ids are free and different, and its creator has a colon; a taken id and a snapshot each have an error of their own |
| Refinement.TransitionSucceedsIff | crates/objectrecords-db/src/repository.rs:722-760 | a transition succeeds if and only if the record is there and not fixed; the two refusals are told apart and change nothing |
| Refinement.OperationsAreLocal | crates/objectrecords-db/src/repository.rs:673-827 | appends, transitions and deletes of one record leave every other one as it is found |
| Refinement.DeleteRemoves | crates/objectrecords-db/src/repository.rs:797-827 | a delete removes exactly that record from the map, leaves no version and no edge that names it, and says whether it was there; a second delete says no and changes nothing |
| Refinement.ListIsExact | crates/objectrecords-db/src/repository.rs:621-671 | listing by creator never fails on well-formed tables and yields exactly the records whose edge names the creator, each once, by time, as a find returns it |
| Refinement.ListFailsIff | crates/objectrecords-db/src/repository.rs:621-626 | listing fails if and only if the creator has no colon |
| Refinement.ListMatchesStore | crates/objectrecords-db/src/repository.rs:621-671 | with creators that need no quoting, the list is of exactly the records of the map that show that creator |
| Refinement.AbsHoldsAll | crates/objectrecords-db/src/repository.rs:442-474 | in well-formed tables every record row is a record of the map, a proper one, under its own id |
| Repository.RecordRepository.Assemble | crates/objectrecords-db/src/repository.rs:442-474 | the three reads with their error exits compute the find the lemmas speak of |
| Repository.RecordRepository.FetchVersions | crates/objectrecords-db/src/repository.rs:424-437 | the loop over the rows yields the record's chain |
| Repository.RecordRepository.FetchAttribution | crates/objectrecords-db/src/repository.rs:403-420 | the first edge of the record, with its creator literal stripped of backticks |
| Repository.RecordRepository.StageVersions | crates/objectrecords-db/src/repository.rs:847-856 | creating the versions one by one succeeds exactly when all ids are new and different, and then holds all of them |
| Repository.RecordRepository.WriteRecordAtomic | crates/objectrecords-db/src/repository.rs:837-878 | all of record, versions and edge are written, or nothing is |
| Repository.RecordRepository.Save | crates/objectrecords-db/src/repository.rs:543-566 | answer and tables are those of the save the refinement speaks of: snapshots and existing ids refused |
| Repository.RecordRepository.SaveSnapshot | crates/objectrecords-db/src/repository.rs:568-615 | the loop over the versions re-mints every id, and answer and tables are those of `Refinement.SnapshotResult` |
| Repository.RecordRepository.AddVersion | crates/objectrecords-db/src/repository.rs:673-712 | one version row more and the record touched if there is one; a taken id changes nothing |
| Repository.RecordRepository.TransitionToFixed | crates/objectrecords-db/src/repository.rs:714-795 | answer and tables are those of `Refinement.TransitionResult`, all error exits included |
| Repository.RecordRepository.Delete | crates/objectrecords-db/src/repository.rs:797-827 | answer and tables are those of `Refinement.DeleteResult` |
| Repository.RecordRepository.ListByCreator | crates/objectrecords-db/src/repository.rs:621-671 | the loop over the edges yields the list of `Refinement.ListResult`, ending at the first error |
| Load.FindSucceeds | crates/objectrecords-db/src/repository.rs:442-474 | in well-formed tables a find never errs and returns a proper record exactly for the ids that have a row |
| Load.CreateKeepsWellFormed | crates/objectrecords-db/src/repository.rs:837-878 | a create keeps the tables well-formed if and only if it brings a version and a digest column that fits its state |
| Load.AppendKeepsWellFormed | crates/objectrecords-db/src/repository.rs:686-706 | an append keeps the tables well-formed if and only if its record exists; otherwise it leaves an orphan |
| Load.OrphanLeft | crates/objectrecords-db/src/repository.rs:686-706 | any append to empty tables leaves such an orphan |
| Load.FixKeepsWellFormed | crates/objectrecords-db/src/repository.rs:778-792 | a transition keeps the tables well-formed, whatever rows it is aimed at |
| Load.DeleteKeepsWellFormed | crates/objectrecords-db/src/repository.rs:811-824 | a delete keeps the tables well-formed |
| Tables.ChainContents | crates/objectrecords-db/src/repository.rs:424-437 | a read chain holds exactly the record's rows, each once, in order |
| Tables.OrderUnique | crates/objectrecords-db/src/repository.rs:424-437 | only one ordered listing of the rows exists, so any sort returns the chain as read |
| Tables.TimesDecideOrder | crates/objectrecords-db/src/repository.rs:424-437 | where no two rows share an instant, ordering by time alone gives that listing |
| Tables.ChainAppendIff | crates/objectrecords-db/src/repository.rs:686-706 | a new row reads last if and only if it comes after every row of its record |
| Tables.ChainRewrite | crates/objectrecords-db/src/repository.rs:778-792 | rewriting one body keeps every chain's length and order and changes one place |
| Convert.RowRoundTrip | crates/objectrecords-db/src/convert.rs:244-377 | a proper record in any state converts to a row and back to itself if and only if its kind is no custom kind with a built-in name; it always converts back to some record |
| Convert.TryIntoConditions | crates/objectrecords-db/src/convert.rs:275-356 | each typed load succeeds if and only if the row is in that state, its digest column fits it and its chain is not empty |
| Convert.TryIntoErrors | crates/objectrecords-db/src/convert.rs:199-356 | a load that fails names the first thing wrong: the state, then the digest column, then the chain |
| Convert.ShownRowReadsBack | crates/objectrecords-api/src/routes/records.rs:61-128 | the row of a response reads back as the record shown, if and only if its kind is plain, and carries the attribution and its time throughout |
| Convert.ParsedKindsRoundTrip | crates/objectrecords-api/src/routes/records.rs:256-267 | request parsing yields every kind but the empty custom one and the custom ones with built-in names, so records created over HTTP round-trip |
| Convert.KindRoundTrip | crates/objectrecords-db/src/convert.rs:127-151 | a kind survives storage if and only if it is no custom kind with a built-in name |
| Convert.StateLiteralRoundTrip | crates/objectrecords-db/src/persisted.rs:165-185 | a text parses to a state if and only if it is that state's literal |
| Convert.LoadIgnoresTimes | crates/objectrecords-db/src/convert.rs:191-196 | what a row loads as depends on neither its timestamps nor its creator |
| Things.CreatorRoundTrip | crates/objectrecords-db/src/repository.rs:362-374 | a creator literal is read back as written if and only if it has no backtick |
| Things.ParseOfLiteral | crates/objectrecords-db/src/repository.rs:362-366 | the literal of a stored creator without quoting splits back into it |
| Things.RenderedReadsAsLiteral | crates/objectrecords-db/src/repository.rs:372-374 | whether or not the database quotes the key, stripping leaves the same literal |
| Things.ClaimsParse | crates/objectrecords-api/src/routes/records.rs:314-319 | every creator the HTTP layer writes splits into the user table and the whole subject, further colons included |
| Digests.ParseInvertsDisplay | crates/objectrecords-db/src/convert.rs:100-124 | the strict parser reads a text as a digest if and only if the digest prints as that text |
| Digests.ParsersAgreeWithoutPlus | crates/objectrecords-api/src/routes/records.rs:522-544 | the strict parser accepts exactly what the HTTP parser accepts without a plus sign, with the same digest |
| Digests.ApiAcceptsExactly | crates/objectrecords-api/src/routes/records.rs:522-544 | the HTTP parser reads a text as a digest if and only if the digest prints as that text with some leading zeros of bytes written as plus signs |
| Digests.ApiAcceptsMore | crates/objectrecords-api/src/routes/records.rs:522-544 | the HTTP parser accepts a text that no digest prints as |
| Digests.Display | crates/objectrecords-core/src/lib.rs:147-152 | the loop over the bytes prints two lowercase digits for each |
| Digests.ParseSha256Hex | crates/objectrecords-db/src/convert.rs:100-112 | the loop that fills the array, with its early exits, is the strict parser |
| Digests.ParseSha256HexApi | crates/objectrecords-api/src/routes/records.rs:522-544 | the loop that fills the array pair by pair is the lax parser |
| Core.Fossilize | crates/objectrecords-core/src/lib.rs:298-322 | rewriting the last element in place gives the fossil, from whatever state |
| Core.MutableRecord.constructor | crates/objectrecords-core/src/lib.rs:332-346 | a fresh record is mutable, without digest, with one version |
| Core.MutableRecord.Update | crates/objectrecords-core/src/lib.rs:377-383 | the record grows by one version at the end and is otherwise the same |
| Core.MutableRecord.TakeSnapshot | crates/objectrecords-core/src/lib.rs:392-400 | the copy has the chain of the record, which is not changed |
| Core.MutableRecord.FixWith | crates/objectrecords-core/src/lib.rs:408-410 | the fossil of the record as it stands |
| Core.FossilIdempotent | crates/objectrecords-core/src/lib.rs:298-322 | fossilising again changes nothing if and only if the digest is the same |
| Core.FixedKeyInjective | crates/objectrecords-core/src/lib.rs:298-322 | fossil keys tell digests apart |
| Storage.InMemoryStorage.TryPut | crates/objectrecords-storage/src/lib.rs:248-264 | writes only where nothing was, keeps every other key, and says which it was |
| Storage.InMemoryStorage.Get | crates/objectrecords-storage/src/lib.rs:213-220 | the bytes under the key, or that there are none |
| Storage.InMemoryStorage.Delete | crates/objectrecords-storage/src/lib.rs:236-246 | the key and nothing else is gone; a missing key is an error and no change |
| Storage.FirstWriteWins | crates/objectrecords-storage/src/lib.rs:152-166 | any number of conditional writes under one key leave what was there, or else the first of them |

## Left out

- The query language, the client library, connections and schema application: tables and transactions stand in for them; only the unique index on the user subject is kept.
- The S3 client, presigned URLs, multipart uploads and path normalisation of storage keys.
- The insides of SHA-256 and of the base64 decoder.
- Token verification, scopes and middleware; environment resolution; the tables from errors to status codes; the health route; logging.
- Error message texts and JSON shapes: error constructors are kept, texts dropped. Three texts that share one constructor in the source are told apart here (damaged digest, damaged literal, missing attribution).
- Timestamps in responses: the source fills them from the attribution edge, and so does the model, so they are not those of the rows.
- Record type-states are a field of one datatype; the stored body and state types are merged with the core ones, whose constructors they copy.
- Digest texts with characters outside ASCII: refused here; the HTTP parser slices bytes and may abort on them.
- Integer widths: sizes and ids are unbounded.
- Quoting of creator literals beyond backticks, which reading strips wherever they stand.
- Which of several edges of one instant a list shows first: the stored order here.
- A crash between the two queries of `save_snapshot`, which would leave the snapshot without its edge to the source.
- Overlap of `save_snapshot`, `delete` or `list_by_creator` with other requests: no HTTP route calls them, so they are modelled one at a time.
- Backend failures during the lookups of a sign-in; failures of its create are modelled.
- SequentialRuns.RunsRefine: states the refinement for callers that, where a save is to store something, mint version ids in order and not yet taken and use plain kinds and creators, and that append to mutable records later than their chain; `Refinement.SaveLoadsBackIff` and `Refinement.AppendIsUpdateIff` say exactly what happens otherwise.
- Refinement.ListMatchesStore: assumes stored creators without quoting, because stripping makes two different quoted creators read alike.
