# hmacsecret: encrypted store, backends and alias service

A Dafny model of the three layers that turn a FIDO2 authenticator into a named-secret
store, and proofs of what they promise together.

* **Key hierarchy and protocol** (`pkg/store/encrypted`). A random DEK is wrapped by the
  caller's KEK in a revisioned header; records are sealed under the DEK. `Protocol.dfy`
  is a step machine: any number of handles share one backend, any number of calls are in
  flight on each handle, every backend call and every locked section is one atomic step,
  and calls may fail, handles may crash, and the backend may rearrange or invent
  envelopes. `EncryptedStore.dfy` is the `Store` object itself, method by method over
  Pebble and over byte buffers; each method is proved to do what the machine does when
  the call runs alone, and `Reachability.dfy` that calls run alone are runs of the machine.
* **Backends** (`pkg/store/pebble`, `pkg/store/sqlite`). Two classes refine one contract
  (`BackendContract.dfy`): byte keys in one ordered key space with a range scan, and two
  tables with a separate revision column.
* **Alias service** (`pkg/secrets`). `ServiceProtocol.dfy` stacks callers of `Create` and
  `Derive` on the store machine, so every claim about secrets holds under locking,
  rotation, failures and crashes below. `SecretsService.dfy` is the service object.

The functions these are stated with have statements of their own, on arguments and
fields: `Unicode.dfy` says what trimming, UTF-8 validity and JSON mean for code points
given as numbers, `BackendLaws.dfy` how the calls of a backend answer each other, and
`Answers.dfy` and `StoreAnswers.dfy` what each call of the plain map and of the encrypted
store answers from any state.

Beside them: `Devices.dfy` (device listing, in place on an array) and `Ownership.dfy`
(byte slices as arrays: clones, and records read out of a buffer that is then wiped).

Modelling choices. The AEAD is symbolic, the ideal form of the operations in sections 2.1
and 2.2 of RFC 5116: a ciphertext opens only under the key, nonce and associated data it
was sealed with; associated data and plaintexts are real bytes. A fresh DEK is one under
which nothing in the backend is sealed yet. A tampering backend does not hold the DEK,
but keeps every ciphertext it was ever handed, whatever came of the call, and may pass
off any ciphertext with a header's associated data as an envelope.
Random values, the environment's failures and the authenticator's answers are arguments
of the steps. Go strings are byte strings; `TrimSpace` knows every White_Space code point
in UTF-8. JSON replaces each invalid UTF-8 byte by U+FFFD. A missing enclave is a key of
the wrong size, which fails the same check. `Unavailable` stands for any failing I/O
call, cancelled context or crash. The proofs use Dafny's `hide` statement to keep
definitions out of obligations that do not need them.

## Where the code is not what one expects

Each point is proved exactly, with the condition under which the code does meet the
expectation.

* A store accepts any non-blank RP id at `Initialize`, authenticates the header with its
  bytes, but stores it as JSON: the store opens again if and only if the trimmed RP id is
  valid UTF-8 (`KeyLifecycle.ReopensIff`, `LockedOutExample`; the same after a rotation,
  `RotationReopensIff`).
* `Revision++` wraps: rotating at revision 2^64 - 1 stores revision 0, a header nothing
  opens and nothing replaces (`Rotation.WrappedRevisionIsFinal`, `StoredHeaderValidIff`);
  a run that gets there exists (`Reachability.WrapIsReached`).
* Length prefixes are cut to 32 bits: header associated data is unambiguous for exactly
  the credential id bounds up to 2^32 (`Codec.HeaderAADInjectiveIff`).
* `encodeRecord` does not check the salt, `decodeRecord` does: they are inverse exactly
  for salts of at most 2^20 bytes (`Codec.DecodeAfterEncode`). Validation before both
  makes this unreachable in the store.
* SQLite refuses revisions with the top bit set and keeps algorithm names as they are,
  Pebble takes all revisions and passes names through JSON
  (`BackendEquivalence.PortableIff`).
* A Put that is reported failed may still come back: its blob has reached the backend,
  which may store it later. So a Get is promised records that some Put sealed
  (`EnvelopeBinding.GetReturnsSealed`), and records that some Put stored only while the
  backend uses no other record ciphertexts (`GetsAreSourced`; without that,
  `FailedPut.FailedPutComesBack`).
* An `Initialize` that finds envelopes but no header reports a conflict; without
  tampering this means that another call has just initialised the store
  (`Refinement.RecordsNeedHeader`).

## Model

| member | source | states |
|---|---|---|
| ByteStrings.BigEndianInRange | pkg/store/encrypted/encrypted.go:577-594 | an integer that fits its width reads back unchanged |
| ByteStrings.BigEndianWraps | pkg/store/encrypted/encrypted.go:589-594 | a length one full turn larger has the same 32-bit prefix |
| ByteStrings.LexCommonPrefix | pkg/store/pebble/pebble.go:395-402 | stripping a common prefix keeps the order of keys, both ways |
| ByteStrings.SortedListIsAscending | pkg/store/pebble/pebble.go:395-406 | a strictly ascending listing is determined by the set it lists |
| ByteStrings.BigEndianDigits | pkg/store/encrypted/encrypted.go:577-594 | the bytes of an integer are its digits to the base 256, the highest weight first, cut to the width |
| ByteStrings.LexLessIff | pkg/store/pebble/pebble.go:395-402 | a key comes before another exactly when it is a proper prefix of it or has the smaller byte where they first differ |
| Unicode.SpaceAtIff | pkg/store/encrypted/encrypted.go:217-218 | the scanner finds white space exactly at the encodings of the White_Space code points, given as numbers |
| Unicode.TrimSplits | pkg/store/encrypted/encrypted.go:217-218 | trimming takes white space off both ends and nothing else, and leaves none there |
| Unicode.TrimRemoves | pkg/store/encrypted/encrypted.go:217-218 | conversely, any white space put around a text without any at its ends is trimmed off again |
| Unicode.BlankTrims | lib/store/store.go:47-52 | a string trims to nothing exactly when it is a sequence of encoded white-space code points |
| Unicode.ValidUtf8Iff | pkg/store/pebble/pebble.go:193-200 | the strings called valid UTF-8 are exactly the encodings of sequences of scalar values |
| Unicode.JsonKeepsRune | pkg/store/pebble/pebble.go:193-200 | JSON passes an encoded scalar value unchanged |
| Unicode.JsonReplacesByte | pkg/store/pebble/pebble.go:193-200 | JSON replaces one byte by U+FFFD where no scalar value is encoded |
| Text.TrimSpaceIdempotent | pkg/store/pebble/pebble.go:278-285 | the backend's second trim never changes the alias the store already trimmed |
| Text.JsonLosslessIffValid | pkg/store/pebble/pebble.go:193-200 | a string survives a JSON body exactly when it is valid UTF-8, and otherwise comes back longer |
| Text.JsonKeepsNonBlank | lib/store/encrypted.go:82-94 | an RP id that passed validation is still not blank after JSON |
| Codec.LengthPrefixExact | pkg/store/encrypted/encrypted.go:589-594 | the length prefix is right exactly for lengths below 2^32 |
| Codec.HeaderAADInjective | pkg/store/encrypted/encrypted.go:488-497 | equal header AADs come from headers equal in version, revision, store id and KEK reference |
| Codec.AmbiguousAboveWindow | pkg/store/encrypted/encrypted.go:488-497 | two valid, different headers share one AAD as soon as credential ids may exceed 2^32 bytes |
| Codec.HeaderAADInjectiveIff | pkg/store/encrypted/encrypted.go:488-497 | header AAD is injective on valid headers if and only if credential ids are bounded by 2^32 bytes |
| Codec.RecordAADInjective | pkg/store/encrypted/encrypted.go:499-505 | equal record AADs name the same store and alias, for aliases of any length |
| Codec.RecordAADHasOwnPrefix | pkg/store/encrypted/encrypted.go:33-36 | no record AAD begins as header AADs do |
| Codec.AADDomainsDisjoint | pkg/store/encrypted/encrypted.go:488-505 | no header AAD ever equals a record AAD |
| Codec.ReadFieldIff | pkg/store/encrypted/encrypted.go:563-575 | a field read accepts exactly a length-prefixed field within the limit, and returns it with the rest |
| Codec.DecodeAfterEncode | pkg/store/encrypted/encrypted.go:507-548 | decoding an encoded record returns it, if and only if its salt is within the field limit |
| Codec.EncodeAfterDecode | pkg/store/encrypted/encrypted.go:518-548 | bytes that decode re-encode to exactly themselves: no record has two encodings |
| Codec.PayloadLayout | pkg/store/encrypted/encrypted.go:507-516 | the payload byte for byte: version 1, then credential id, salt and RP id, each behind its length |
| Codec.RecordAADLayout | pkg/store/encrypted/encrypted.go:499-505 | a record's associated data byte for byte: label, version 1, store id, alias |
| Codec.HeaderAADLayout | pkg/store/encrypted/encrypted.go:488-497 | a header's associated data byte for byte: label, version, revision, store id and the three fields of the reference |
| KeyHierarchy.OpenAfterSeal | pkg/store/encrypted/encrypted.go:227-274 | sealing a valid record works exactly within the field limits, and what was sealed passes every check of a later Get |
| KeyHierarchy.UnwrapIff | pkg/store/encrypted/encrypted.go:348-370 | a stored header unwraps to its DEK exactly under its own KEK and unchanged RP id; anything else is an integrity error |
| Pebble.EnvelopeKey | pkg/store/pebble/pebble.go:419-423 | an envelope key carries the envelope prefix and its alias, and is never the header key |
| Pebble.UpperBoundExact | pkg/store/pebble/pebble.go:425-434 | a key lies between a prefix and its upper bound if and only if it has that prefix, for every prefix |
| Pebble.PrefixUpperBound | pkg/store/pebble/pebble.go:425-434 | the loop computes that bound; no bound means unbounded |
| Pebble.SetEnvelopeView | pkg/store/pebble/pebble.go:302-304 | setting an envelope key adds that one alias to the contents and moves nothing else |
| Pebble.DeleteEnvelopeView | pkg/store/pebble/pebble.go:354-356 | deleting an envelope key removes that one alias from the contents and moves nothing else |
| Pebble.RestUnchanged | pkg/store/pebble/pebble.go:32-35 | writes to reserved keys leave every other key of the database alone |
| Pebble.StrippedScanIsListing | pkg/store/pebble/pebble.go:395-406 | the stripped scan is the strictly ascending list of exactly the stored aliases |
| Pebble.PebbleStore.CreateHeader | pkg/store/pebble/pebble.go:193-216 | stores a first header and refuses a second one; nothing else changes |
| Pebble.PebbleStore.LoadHeader | pkg/store/pebble/pebble.go:219-237 | returns the stored header, or that there is none |
| Pebble.PebbleStore.CompareAndSwapHeader | pkg/store/pebble/pebble.go:240-275 | replaces the header exactly when the stored revision is the expected one |
| Pebble.PebbleStore.PutEnvelope | pkg/store/pebble/pebble.go:278-306 | adds an envelope under a new trimmed alias; an existing or empty alias changes nothing |
| Pebble.PebbleStore.GetEnvelope | pkg/store/pebble/pebble.go:309-331 | returns the envelope of the trimmed alias |
| Pebble.PebbleStore.DeleteEnvelope | pkg/store/pebble/pebble.go:334-358 | removes exactly the envelope of the trimmed alias, or reports it missing |
| Pebble.PebbleStore.HasEnvelope | pkg/store/pebble/pebble.go:361-378 | reports whether the trimmed alias has an envelope |
| Pebble.PebbleStore.ListEnvelopes | pkg/store/pebble/pebble.go:381-407 | lists exactly the stored aliases, strictly ascending; the break on a foreign key is never taken |
| Sqlite.SqliteStore.CreateHeader | pkg/store/sqlite/sqlite.go:175-190 | as on Pebble, except that a revision with the top bit set is refused |
| Sqlite.SqliteStore.LoadHeader | pkg/store/sqlite/sqlite.go:193-217 | returns the stored header; column and body never disagree |
| Sqlite.SqliteStore.CompareAndSwapHeader | pkg/store/sqlite/sqlite.go:220-257 | UPDATE and rows affected amount to the same compare-and-swap, within signed 64 bits |
| Sqlite.SqliteStore.PutEnvelope | pkg/store/sqlite/sqlite.go:260-281 | INSERT adds a new trimmed alias and refuses an existing one |
| Sqlite.SqliteStore.GetEnvelope | pkg/store/sqlite/sqlite.go:284-302 | returns the row of the trimmed alias |
| Sqlite.SqliteStore.DeleteEnvelope | pkg/store/sqlite/sqlite.go:305-323 | removes exactly that row, or reports it missing from the rows affected |
| Sqlite.SqliteStore.HasEnvelope | pkg/store/sqlite/sqlite.go:326-338 | reports whether the trimmed alias has a row |
| Sqlite.SqliteStore.ListEnvelopes | pkg/store/sqlite/sqlite.go:341-361 | the row loop returns exactly the stored aliases, strictly ascending |
| BackendEquivalence.PortableIff | lib/store/encrypted.go:66-80 | a call gets the same answer and effect from both backends in every state if and only if it is portable: signed revisions and a UTF-8 algorithm name |
| BackendEquivalence.RunBoth | lib/store/encrypted.go:66-80 | any sequence of portable calls gets equal answers from both databases and leaves equal contents |
| BackendEquivalence.SqliteRevisionLimit | pkg/store/sqlite/sqlite.go:175-257 | SQLite refuses to write a header of revision 2^63 or more, or to compare with one, and otherwise writes headers as Pebble does |
| BackendLaws.BlankNames | lib/store/encrypted.go:66-80 | a blank name is refused by every envelope call with ErrInvalidAlias, and nothing changes |
| BackendLaws.PutGetDelete | lib/store/encrypted.go:66-80 | Put goes through exactly where Get reports ErrNotFound and otherwise answers ErrExists; Get then returns that blob; Delete restores the contents; no other name notices |
| BackendLaws.ReadsAgree | lib/store/encrypted.go:66-80 | Get, Has and List agree on which names are stored; List is strictly ascending; ErrNotFound is the only refusal of a non-blank name |
| BackendLaws.CreateThenLoad | lib/store/encrypted.go:66-80 | a header is created exactly where none can be loaded, and is loaded from then on, all of it but strings that are not UTF-8 |
| BackendLaws.SwapThenLoad | lib/store/encrypted.go:66-80 | a swap goes through exactly on the expected revision; the error is ErrNotInitialized without a header and ErrConflict otherwise; repeated, it conflicts |
| AliasMap.MapStepOnAlias | lib/store/store.go:31-45 | a call changes at most the alias it names; Put stores and Delete removes exactly when they report success |
| AliasMap.RecordStays | lib/store/store.go:31-45 | over any history a stored record stays unchanged until its alias is deleted |
| AliasMap.GetReturnsStored | lib/store/store.go:31-45 | a Get after a Put, with no deletion in between, returns the record that was put, normalised |
| AliasMap.PutsAreSeparated | lib/store/store.go:31-45 | between two successful Puts of an alias lies a deletion of it |
| AliasMap.ContentsWellFormed | lib/store/store.go:47-70 | over any history every stored record is valid, normalised and under its own non-empty trimmed alias |
| Answers.PutAnswer | lib/store/store.go:31-45 | when exactly a Put succeeds, on the fields of the record as passed, with which error it fails otherwise, and the record it leaves |
| Answers.GetAnswer | lib/store/store.go:31-45 | a Get returns the record under the trimmed alias, ErrNotFound where there is none, ErrInvalidAlias for a blank one |
| Answers.DeleteAnswer | lib/store/store.go:31-45 | a Delete removes exactly the trimmed alias if it is stored, and reports ErrNotFound otherwise |
| Answers.ListAnswer | lib/store/store.go:31-45 | a List has exactly the stored aliases, each once, in ascending byte order |
| Answers.SpaceAroundNames | pkg/store/encrypted/encrypted.go:217-218 | white space of any kind around an alias makes no difference to any call, and never reaches the stored alias |
| Answers.BlankRPIDIsRefused | lib/store/store.go:55-70 | a record with a blank RP id is refused with ErrInvalidRecord and nothing is stored |
| Protocol.StepsDescend | pkg/store/encrypted/encrypted.go:72-310 | every call ends after boundedly many steps, from every state |
| ProtocolInvariant.StoredHeaderOpens | pkg/store/encrypted/encrypted.go:132-157 | the stored header opens to the one DEK exactly under the last installed KEK with a UTF-8 RP id |
| ProtocolInvariant.ThreadStepKeeps | pkg/store/encrypted/encrypted.go:72-333 | each step of each call keeps the global invariant and only extends the history |
| ProtocolInvariant.InvAlways | pkg/store/encrypted/encrypted.go:72-333 | in every run of every interleaving: one DEK and store id, each header wraps that DEK at the next revision, handles and calls in flight hold that DEK, and ciphertexts under it are the store's own |
| ProtocolInvariant.LogOnlyGrows | pkg/store/encrypted/encrypted.go:72-333 | installed headers, completed calls, DEK and store id never change once set |
| Refinement.DataCallIsAtomic | pkg/store/encrypted/encrypted.go:213-310 | a data call that takes effect answers and changes the stored records as one step of the plain map |
| Refinement.RunsAreLinearizable | pkg/store/encrypted/encrypted.go:213-310 | every untampered run answers its data calls as one plain map would, in the order of their backend calls, and stores exactly that map |
| Refinement.DataCallAlone | pkg/store/encrypted/encrypted.go:213-310 | a data call with nothing beside it on an unlocked handle gets the map's answer and leaves the map's contents |
| Refinement.LockedHandle | pkg/store/encrypted/encrypted.go:277-333 | on a locked handle Put, Get and Delete fail without effect, Has and List still answer from the map |
| Refinement.RecordsNeedHeader | pkg/store/encrypted/encrypted.go:86-97 | without tampering, no envelope exists before the header |
| Rotation.OneKeyForever | pkg/store/encrypted/encrypted.go:119-210 | any two handles, at any times, hold the same DEK and store id, and never a revision above the stored one |
| Rotation.HeaderAdvances | pkg/store/encrypted/encrypted.go:187-209 | each step leaves the stored header, creates revision 1, or moves a non-zero revision to its successor in the same store |
| Rotation.StoredHeaderValidIff | pkg/store/encrypted/encrypted.go:451-465 | every stored header passes validation, unless its revision has wrapped to 0 |
| Rotation.WrappedRevisionIsFinal | pkg/store/encrypted/encrypted.go:191-206 | a header whose revision wrapped to 0 is never replaced |
| Rotation.MutexAlways | pkg/store/encrypted/encrypted.go:181-196 | one rotation per handle at a time, and the handle keeps its key and compared revision throughout |
| Rotation.InstallersAlways | pkg/store/encrypted/encrypted.go:119-208 | every successful Initialize or RotateKEK installed its own header, and every header has one installer, whose KEK and trimmed reference it carries |
| Rotation.SwapIff | pkg/store/encrypted/encrypted.go:205-208 | a swap succeeds exactly when no header was installed since it loaded one; a loser changes nothing |
| Rotation.AtMostOneWinner | pkg/store/encrypted/encrypted.go:181-209 | of two rotations from the same revision, on any handles at any times, at most one ever succeeds |
| KeyLifecycle.UnlockOutcome | pkg/store/encrypted/encrypted.go:132-157 | in every reachable state, what Unlock answers: it opens exactly with the last installed KEK and a UTF-8 RP id, and changes nothing before it publishes |
| KeyLifecycle.UnlockAlone | pkg/store/encrypted/encrypted.go:132-157 | in every reachable state, the handle, backend and reply after an Unlock with nothing beside it: with the last installed KEK and a UTF-8 RP id the handle holds the stored header and the DEK; otherwise it is as it was |
| KeyLifecycle.PublishUnlocks | pkg/store/encrypted/encrypted.go:152-155 | the last step of Initialize and Unlock leaves the handle holding what was published, and reports success |
| KeyLifecycle.LockForgets | pkg/store/encrypted/encrypted.go:160-165 | a Lock succeeds in one step, in every state and beside any other calls, and leaves its handle without a key |
| KeyLifecycle.StaysLocked | pkg/store/encrypted/encrypted.go:152-164 | a handle without a key stays so through any run in which no Initialize or Unlock publishes to it |
| KeyLifecycle.TroubleTouchesNothing | pkg/store/encrypted/encrypted.go:72-333 | a failing call ends with its error and changes nothing else; a crash does so for the calls of its handle and takes that handle's key |
| KeyLifecycle.LastKEKWasPassed | pkg/store/encrypted/encrypted.go:74-210 | the last installed KEK and the reference stored with it are the arguments, trimmed, of the call that installed it: Initialize for the first header, RotateKEK for the others |
| KeyLifecycle.KeyCallsKeepRecords | pkg/store/encrypted/encrypted.go:72-210 | Initialize, Unlock, Lock, RotateKEK and Header leave every envelope and the history of records alone |
| KeyLifecycle.InitializeAlone | pkg/store/encrypted/encrypted.go:74-128 | on an empty backend Initialize succeeds, stores revision 1 and leaves the handle unlocked with that header and DEK |
| KeyLifecycle.ReopensIff | pkg/store/encrypted/encrypted.go:74-157 | after Initialize, Unlock with the same KEK leaves the handle holding the stored header and the DEK if and only if the trimmed RP id is valid UTF-8; otherwise authentication fails and the handle stays locked |
| KeyLifecycle.LockedOutExample | pkg/store/encrypted/encrypted.go:74-157 | the RP id of one byte 0xFF is accepted and then fails authentication |
| KeyLifecycle.RotateAlone | pkg/store/encrypted/encrypted.go:168-210 | in every reachable state RotateKEK alone goes through exactly when the handle is up to date and the revision has not wrapped, with its whole effect |
| KeyLifecycle.RotationReopensIff | pkg/store/encrypted/encrypted.go:132-210 | after a rotation exactly the new KEK opens the store and leaves the handle holding the rotated header and the same DEK, for a UTF-8 RP id, unless the rotated revision was 2^64 - 1 |
| EnvelopeBinding.OpenedWasSealed | pkg/store/encrypted/encrypted.go:257-275 | whatever opens under the DEK for an alias is a record some Put sealed for that alias |
| EnvelopeBinding.GetReturnsSealed | pkg/store/encrypted/encrypted.go:213-275 | in every reachable state, with a backend that uses any ciphertext it was ever handed, even in refused or failing Puts: what a Get returns was sealed before for this store and the alias asked for, by a Put of that record |
| EnvelopeBinding.GetsAreSourced | pkg/store/encrypted/encrypted.go:244-275 | in every run in which the backend moves, copies, replays or invents but uses only record ciphertexts it reported stored, Get returns only records put successfully before under the alias asked for |
| FailedPut.FailedPutComesBack | pkg/store/encrypted/encrypted.go:233-240 | a run in which every Put failed and a Get returns a record |
| History.EventsAlwaysMatch | pkg/store/encrypted/encrypted.go:213-310 | the history has exactly one entry, with its reply, for each data call that took effect |
| History.EveryAnswerIsRecorded | pkg/store/encrypted/encrypted.go:213-310 | a call is in the history, with its reply, exactly if it is a finished Put, Get, Delete, Has or List that was not refused as locked or unavailable |
| SoloCalls.InitializeResult | pkg/store/encrypted/encrypted.go:74-128 | what Initialize run alone comes to, from every state: which check fails first, and the header it creates |
| SoloCalls.RotateResult | pkg/store/encrypted/encrypted.go:168-210 | what RotateKEK run alone comes to, from every state |
| SoloCalls.PutResult | pkg/store/encrypted/encrypted.go:213-241 | what Put run alone comes to, from every state |
| SoloCalls.GetResult | pkg/store/encrypted/encrypted.go:244-275 | what Get run alone comes to, from every state |
| SoloCalls.HeaderResult | pkg/store/encrypted/encrypted.go:61-70 | what Header run alone comes to, from every state |
| StoreAnswers.HeaderRefused | pkg/store/encrypted/encrypted.go:451-465 | which headers are refused, and with which error, on the fields of the header |
| StoreAnswers.BlobRefused | pkg/store/encrypted/encrypted.go:467-485 | which blobs are refused, and with which error, on their fields |
| StoreAnswers.ReferenceRefused | lib/store/encrypted.go:82-94 | a KEK reference is refused exactly if its credential id is empty, its salt is not 32 bytes or its RP id is blank |
| StoreAnswers.InitializeAnswer | pkg/store/encrypted/encrypted.go:74-128 | from every state, what Initialize answers on its arguments and what is stored and held then: revision 1, the drawn store id, the DEK under the caller's KEK and the drawn nonce |
| StoreAnswers.UnlockAnswer | pkg/store/encrypted/encrypted.go:132-157 | from every state, even a corrupted one: Unlock succeeds exactly if the stored header passes its checks and carries a 32-byte key under the KEK passed, and then the handle holds both |
| StoreAnswers.LockAnswer | pkg/store/encrypted/encrypted.go:160-165 | from every state Lock succeeds, the handle holds no key, and the backend is as it was |
| StoreAnswers.RotateAnswer | pkg/store/encrypted/encrypted.go:168-210 | from every state, what RotateKEK answers, check by check, and the header it leaves: next revision modulo 2^64, same store id and DEK, the new reference and KEK |
| StoreAnswers.HeaderAnswer | pkg/store/encrypted/encrypted.go:61-70 | from every state, the stored header or the reason why there is none to return |
| StoreAnswers.PutAnswer | pkg/store/encrypted/encrypted.go:213-241 | from every state, what Put answers on the fields of the record, and the one envelope it leaves under the trimmed alias, carrying exactly that record under the drawn nonce |
| StoreAnswers.OpensTo | pkg/store/encrypted/encrypted.go:257-275 | a blob opens to a record exactly if it carries that record, sealed under this DEK for this store and alias |
| StoreAnswers.GetAnswer | pkg/store/encrypted/encrypted.go:244-275 | from every state, what Get answers, and that it changes nothing |
| StoreAnswers.DeleteAnswer | pkg/store/encrypted/encrypted.go:278-290 | from every state, what Delete answers, and that it removes the trimmed alias alone |
| StoreAnswers.HasAnswer | pkg/store/encrypted/encrypted.go:293-302 | from every state, locked or not, Has tells whether the trimmed alias is stored |
| StoreAnswers.ListAnswer | pkg/store/encrypted/encrypted.go:305-310 | from every state, locked or not, List has exactly the stored aliases in ascending order |
| Reachability.CallAlone | pkg/store/encrypted/encrypted.go:72-333 | from any reachable state without calls under way, a call run alone is a run of the machine, with the handle, backend and reply that RunAlone gives |
| Reachability.EveryRevisionIsReached | pkg/store/encrypted/encrypted.go:187-209 | for every n up to 2^64 some run installs n headers and leaves a handle up to date with the last |
| Reachability.WrapIsReached | pkg/store/encrypted/encrypted.go:198-208 | some run stores revision 0 |
| EncryptedStore.Store.constructor | pkg/store/encrypted/encrypted.go:53-58 | a new store is locked, and callers hold none of its buffers |
| EncryptedStore.Store.CallerWritesDoNotShow | pkg/store/encrypted/encrypted.go:596-621 | whatever callers write between calls into buffers they passed in or were given, handle and backend stay as they were, and with them every later result |
| EncryptedStore.Store.TakeSnapshot | pkg/store/encrypted/encrypted.go:326-333 | the header by value and the DEK, or neither |
| EncryptedStore.Store.Keep | pkg/store/encrypted/encrypted.go:123-126 | the retained header has the published value and buffers of its own |
| EncryptedStore.Store.Create | pkg/store/encrypted/encrypted.go:86-128 | creates and publishes the first header around the cloned reference, or changes nothing |
| EncryptedStore.Store.RotateLocked | pkg/store/encrypted/encrypted.go:181-210 | the locked section: swaps in the rewrapped header and publishes it, or changes nothing |
| EncryptedStore.Store.HandOut | pkg/store/encrypted/encrypted.go:69-70 | what a caller is given equals the loaded header and shares no buffer with the store |
| EncryptedStore.OpenEnvelope | pkg/store/encrypted/encrypted.go:261-274 | opens, decodes and validates an envelope into fresh buffers, with the errors of each stage |
| EncryptedStore.Store.Initialize | pkg/store/encrypted/encrypted.go:74-128 | handle, backend and reply are those of the machine's Initialize run alone on the value of the caller's reference; success leaves the handle unlocked with revision 1 and that header stored, failure changes nothing; a blank RP id is refused; none of the caller's buffers is kept |
| EncryptedStore.Store.Unlock | pkg/store/encrypted/encrypted.go:132-157 | handle, backend and reply are those of the machine's Unlock run alone; success leaves the handle holding the stored header and the key it carries under the KEK, failure leaves everything as it was |
| EncryptedStore.Store.Lock | pkg/store/encrypted/encrypted.go:160-165 | always succeeds, leaves no key in the handle and touches nothing else |
| EncryptedStore.Store.RotateKEK | pkg/store/encrypted/encrypted.go:168-210 | handle, backend and reply are those of the machine's RotateKEK run alone on the value of the caller's reference; success leaves the next revision with the caller's trimmed reference held and stored under the same DEK, failure changes nothing; a blank RP id is refused; none of the caller's buffers is kept |
| EncryptedStore.Store.ReadHeader | pkg/store/encrypted/encrypted.go:61-70 | returns the stored header if it is valid, in buffers of its own, and changes nothing; without a header it reports that |
| EncryptedStore.Store.Put | pkg/store/encrypted/encrypted.go:213-241 | handle, backend and reply are those of the machine's Put run alone on the value of the caller's record; success adds one envelope under the trimmed alias, which carries exactly that record, failure changes nothing; a blank RP id is refused; none of the caller's buffers is kept |
| EncryptedStore.Store.Get | pkg/store/encrypted/encrypted.go:244-275 | reply is that of the machine's Get run alone, locked and absent aliases by name; the record comes in buffers of its own, out of a plaintext that is then destroyed |
| EncryptedStore.Store.Delete | pkg/store/encrypted/encrypted.go:278-290 | backend and reply are those of the machine's Delete run alone; success removes exactly the trimmed alias, failure changes nothing |
| EncryptedStore.Store.Has | pkg/store/encrypted/encrypted.go:293-302 | whether the trimmed alias is stored, locked or not |
| EncryptedStore.Store.List | pkg/store/encrypted/encrypted.go:305-310 | exactly the stored aliases in ascending byte order, locked or not |
| Ownership.CloneReference | pkg/store/encrypted/encrypted.go:596-602 | equal value in fresh buffers |
| Ownership.CloneBlob | pkg/store/encrypted/encrypted.go:604-611 | equal value in fresh buffers |
| Ownership.CloneHeader | pkg/store/encrypted/encrypted.go:613-621 | equal value in fresh buffers, all the way down |
| Ownership.CloneTrimmed | pkg/store/encrypted/encrypted.go:78-79 | the caller's reference by value, trimmed, in fresh buffers |
| Ownership.Rewrap | pkg/store/encrypted/encrypted.go:198-204 | the current header with new revision, reference and wrapped key, its other buffers fresh |
| Ownership.PayloadReader.ReadUint16 | pkg/store/encrypted/encrypted.go:554-561 | consumes exactly two bytes, or fails and consumes none |
| Ownership.PayloadReader.ReadBytes | pkg/store/encrypted/encrypted.go:563-575 | reads one field as the format says, into a fresh buffer |
| Ownership.DecodeBuffer | pkg/store/encrypted/encrypted.go:518-548 | decodes the buffer as the format says; the record shares none of it |
| Ownership.DecodeAndDestroy | pkg/store/encrypted/encrypted.go:261-274 | the plaintext is gone and the record read from it is intact |
| Service.ServiceRPIDNormalized | pkg/secrets/secrets.go:98-101 | a service's RP id is the given one, trimmed, or the default if that is blank; it is never empty |
| Service.SelectionAnswer | pkg/secrets/secrets.go:260-290 | when exactly a device is opened, and with which error the selection fails otherwise |
| SecretsService.CreateOutcome | pkg/secrets/secrets.go:129-189 | on which inputs exactly Create succeeds and with which error it ends otherwise; the RP id, credential id and salt it derives from; that a failing Create leaves no trace unless only the last derivation failed, and that then, as on success, exactly one record of these three was added |
| SecretsService.DeriveOutcome | pkg/secrets/secrets.go:192-221 | on which inputs exactly Derive succeeds and with which error it ends otherwise; it derives from the three fields of the stored record, and changes nothing |
| SecretsService.Secrets.constructor | pkg/secrets/secrets.go:98-121 | keeps the given RP id, trimmed, or the default if it is blank |
| SecretsService.Secrets.Create | pkg/secrets/secrets.go:129-189 | store and outcome are those of the machine's Create caller driven alone, and outcome, asked inputs and added record are given on the arguments |
| SecretsService.Secrets.Register | pkg/secrets/secrets.go:146-188 | the part of Create behind the alias check: how it ends and the one record it may add |
| SecretsService.Secrets.Derive | pkg/secrets/secrets.go:192-221 | as the machine's Derive caller driven alone; changes nothing, succeeds exactly on a stored, named alias without trouble, and asks for the fields of the stored record |
| SecretsService.Secrets.Delete | pkg/secrets/secrets.go:224-236 | succeeds exactly when the alias is stored and the store answers, and then removes exactly it; otherwise removes nothing |
| ServiceProtocol.WorldInvAlways | pkg/secrets/secrets.go:129-221 | in every run of services stacked on the store: callers act on the answers of their own store calls, and one Create per service is in its locked section |
| EndToEnd.CreateAllOrNothing | pkg/secrets/secrets.go:135-188 | in every run an ended Create stored exactly one record, whose fields are those it asked the authenticator with, or none |
| EndToEnd.StoringCaller | pkg/secrets/secrets.go:166-177 | a record that a caller's call stored is the one its Create built, whether or not it has read the answer |
| EndToEnd.AtMostOneCreation | pkg/secrets/secrets.go:135-177 | two Creates of one alias, by any services and whether or not they lived to read the answer, both stored their record only if the alias was deleted between the two Puts |
| EndToEnd.LaterCreatesAreRefused | pkg/secrets/secrets.go:138-177 | while an alias is stored every later Create of it that ends is refused: it exists, the record is invalid anyway, or the store was locked or out of reach |
| EndToEnd.SecretIsStable | pkg/secrets/secrets.go:191-221 | through any locking, rotation, failure and other calls, Derive asks the authenticator with the RP id, credential id and salt that the Create that stored the alias put there and asks with itself, even if that Create never read the answer |
| EndToEnd.SecretStaysAvailable | pkg/secrets/secrets.go:191-221 | a Derive of a stored alias that ends without a secret failed on its way to the authenticator, or the store was locked or out of reach |
| EndToEnd.SecretIsDelivered | pkg/secrets/secrets.go:191-221 | a Derive of a stored alias that ends, with no failure of context, device, PIN or authenticator, ends with the secret's inputs, unless the store was locked or out of reach |
| EndToEnd.CallerStep | pkg/secrets/secrets.go:129-221 | what each step of a Create or Derive comes to, by the store's answer and the device side: a loaded or stored record without failure ends in its own inputs; which error each refusal gives; when a credential is registered and when one is lost |
| EndToEnd.CallerBegins | pkg/secrets/secrets.go:129-200 | which store call each step begins, on the service's own handle, and the record it puts |
| Credentials.CredentialsAreAccountedFor | pkg/secrets/secrets.go:135-177 | per service and alias, the credentials registered in any run are at most one more than the failed Puts and the successful deletions in its history together |
| Devices.ListDevices | lib/hmacsecret/device.go:19-64 | the three errors exactly, and otherwise the allowed locations with the first broker moved to the front and indexes equal to positions |
| Devices.PreferHello | lib/hmacsecret/device.go:48-59 | the overlapping copy moves the first broker entry to the front and shifts what was before it by one |
| Devices.ListIsOrdered | lib/hmacsecret/device.go:48-63 | the broker is first when there is one, and no two other entries change places |
| Devices.ListShowsFields | lib/hmacsecret/device.go:28-43 | each listed device shows all the fields of one location, and no two the same one |
| Devices.ListIsPermutation | lib/hmacsecret/device.go:28-63 | the list is a permutation of the allowed locations |
| Devices.FilterKeepsOrder | lib/hmacsecret/device.go:28-43 | the filter keeps exactly the allowed locations, in order |
| Devices.PlainPlatform | lib/hmacsecret/platform_nonwindows.go:9-15 | off Windows nothing is filtered or moved |
| Devices.ExcludedBroker | lib/hmacsecret/platform_windows.go:13-24 | with the broker excluded, none is listed and none is moved |
| Devices.NothingExcluded | lib/hmacsecret/platform_windows.go:17-24 | without the option nothing is filtered on any platform |
| Devices.BrokerIff | lib/hmacsecret/platform_windows.go:9-15 | on Windows exactly the spellings of windows://hello in any case, also with U+017F for its s, and with any white space around them, are the broker |

## Left out

- `cmd/hmac-secret`, `cmd/secrets`, `pkg/device/cli`, `pkg/pin`: flag parsing, printing and terminal interaction.
- `internal/webauthn`, `lib/hmacsecret` beyond device listing: foreign calls; the authenticator is a function of RP id, credential id and salt, as its documentation promises.
- The plain (unencrypted) Put, Get, Delete, Has and List of the backends: with Pebble they share the encrypted key space, so they are modelled only as values under foreign keys, and a plain Put under an alias that begins with a zero byte is outside the model.
- `Close` and the opening of databases: no state beyond what New leaves.
- Secrecy, nonce uniqueness and the random source itself: the AEAD is ideal and its random inputs are arguments.
- Key wiping, freezing, and the pointer identity check after opening a ciphertext: a symbolic plaintext has no address. Only the wipe of the record plaintext is in `Ownership`.
- A backend that replaces or rolls back the header: the code has no defence against a replayed old header; tampering is modelled for envelopes.
- A failing backend call has no effect, and a call whose reply is lost after its effect is a finished call whose caller never looks: partial writes and disk faults are not modelled.
- Nil slices as opposed to empty ones: SQLite refuses a nil nonce or ciphertext, which the encrypted store never passes.
- `pkg/secrets` Has and List: they forward to the store.
- EncryptedStore.Store.Initialize: one object at a time, with the Pebble class in place of the backend interface; interleavings and any other backend are covered by the step machine, which works on values.
- EncryptedStore.Store.CallerWritesDoNotShow: speaks of writes between calls; a caller that writes into its buffers while a call is reading them races with it, and is not modelled.
- SecretsService.Secrets.Create: outages, salt, device selection, credential and derivation are arguments; texts of wrapped errors are left out.
- Rotation.OneKeyForever: bounds a handle's revision by the stored one but not from below, because an Unlock in flight may publish a header that has been rotated since; the next RotateKEK then reports a conflict.
