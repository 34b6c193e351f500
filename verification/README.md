# Evidence bundles of ATB, modelled and proved in Dafny

ATB keeps audit evidence in *bundles*: lists of events, written one JSON line per record, each record
hashed together with the hash of the record before it. This project models the parts of ATB on which
the trust in a bundle rests, and proves what they are for.

* `Utf8`, `Utf16`, `Json`, `Canonicalize`, `Shortest` - the canonical JSON writer (sections 3.2.2.2 and
  3.2.3 of RFC 8785), its key order, a JSON reader to hold it against, and which text it chooses.
* `Escape` - the streaming writer that makes inspected JSON safe to show in a terminal.
* `HashChain`, `Manifest`, `Bundle` - events, their hashes, the chain, what every bundle keeps, tampering.
* `BundleFile`, `Sign` - loading and saving a bundle, source-prefix hashes, signing a file in place.
* `Journal` - the append-only capture journal: torn writes, failed fsyncs, crashes, repair.
* `Reconcile`, `Import`, `Chatlog` - importing source records: the plan, its application, checkpoints,
  crashes between the two saves, and the chat log mapper.
* `Lock`, `Retry` - the sidecar lock as a concurrent protocol, and waiting for it.
* `Agent` - the agent's disk-backed sessions.
* `Wrappers`, `Seqs` - `Option`, `Result`, and facts about concatenation.

SHA-256, `encoding/json`, base64, the clock, random ids and the outcome of every file operation are
parameters (`Sha`, `Host`, `Codec`, `Env`, `Tools`, `Save`, `Fault`, and the number `left` of writes that still happen). Nothing is assumed of SHA-256
but that it is a function: results about tampering end in "or these two inputs collide". `HostOk`, `CodecOk` and
`EnvOk` say what is assumed of the others: marshalling a value and unmarshalling it gives it back, a record
is one line without line feed that decodes to that record, a generated request id is not empty.

Code that works step by step is here as methods over classes and arrays, each proved against a
function of its inputs or of the old state; the theorems are about those functions.

## Model

| member | source | states |
|---|---|---|
| Canonicalize.WriteValue | internal/canonicalize/canonicalize.go:45-96 | whatever order a map yields its keys in, the buffer grows by exactly the canonical text of the value |
| Canonicalize.WriteString | internal/canonicalize/canonicalize.go:99-126 | the buffer grows by the quoted string with the writer's escapes |
| Canonicalize.SortKeys | internal/canonicalize/canonicalize.go:77-79 | any enumeration of distinct keys is sorted into the one ordered list of their set |
| Canonicalize.OrderUnique | internal/canonicalize/canonicalize.go:71-91 | two key lists in strict UTF-16 order with the same elements are equal, so canonical bytes do not depend on map order |
| Canonicalize.OrderedKeys | internal/canonicalize/canonicalize.go:73-79 | every key set has such a list: in order, exactly these keys |
| Canonicalize.ParseCanon | internal/canonicalize/canonicalize.go:45-126 | a JSON reader applied to canonical text, with anything that ends a token after it, returns the value that was written and the rest, at any depth |
| Canonicalize.CanonInjective | internal/canonicalize/canonicalize.go:45-126 | two values share their canonical bytes only if they are equal up to member order |
| Shortest.CanonShortest | internal/canonicalize/canonicalize.go:45-126 | canonical text is valid UTF-8 that reads as the value, and no valid UTF-8 text that reads as the value is shorter: no space, no needless escape, none longer than needed |
| Shortest.CharShort | internal/canonicalize/canonicalize.go:101-123 | no way to write a character in a JSON string is shorter than the writer's |
| Shortest.ValueShort | internal/canonicalize/canonicalize.go:45-96 | likewise for a value at the start of any valid text |
| Shortest.CanonValid | internal/canonicalize/canonicalize.go:45-126 | canonical text is valid UTF-8 |
| Canonicalize.Hex4 | internal/canonicalize/canonicalize.go:119 | four lower-case hex digits that read as the value |
| Utf16.Utf16Less | internal/canonicalize/canonicalize.go:142-151 | the scan loop decides the lexicographic order of the UTF-16 encodings |
| Utf16.KeyOrderTotal | internal/canonicalize/canonicalize.go:142-151 | exactly one of less, equal, greater holds for any two strings |
| Utf16.KeyOrderTransitive | internal/canonicalize/canonicalize.go:142-151 | the order is transitive |
| Utf16.KeyLessExactly | internal/canonicalize/canonicalize.go:142-151 | one key is before another if and only if, where their UTF-16 encodings first differ, it ends or has the smaller unit |
| Utf16.EncodeRune | internal/canonicalize/canonicalize.go:143-144 | one unit that is the rune, or a surrogate pair that stands for it |
| Utf16.EncodeInjective | internal/canonicalize/canonicalize.go:143-144 | UTF-16 encoding is injective on Unicode strings |
| Utf8.EncodeInjective | internal/canonicalize/canonicalize.go:121 | UTF-8 encoding is injective on Unicode strings |
| Utf8.DecodeStable | cmd/atb/inspect.go:264-269 | more input never changes how a full rune decodes |
| Escape.EscapeData | cmd/atb/inspect.go:262-276 | the loop returns the escape of its input and the unfinished rune it ends in |
| Escape.EscapingWriter.Write | cmd/atb/inspect.go:256-281 | what the sink has received is the escape of all input so far, what is carried over is its unfinished rune; a sink that fails has received what it had and some part of the new output |
| Escape.EscapedSplit | cmd/atb/inspect.go:256-276 | escaping in two parts with the unfinished rune carried over is escaping the whole |
| Escape.ChunkingIrrelevant | cmd/atb/inspect.go:256-281 | for every way to cut a stream into Write calls the total output and carry-over are those of one Write |
| Escape.NoBidiLeft | cmd/atb/inspect.go:245-248 | decoding the output meets no bidi or zero-width rune |
| Escape.BidiListed | cmd/atb/inspect.go:283-299 | the runes that are escaped are exactly the nineteen listed |
| Escape.CleanUnchanged | cmd/atb/inspect.go:262-276 | a stream without them passes unchanged but for an unfinished rune at its end |
| Escape.EscapedChars | cmd/atb/inspect.go:245-248 | a JSON string reads as the same characters after escaping |
| Escape.EscapedValue | cmd/atb/inspect.go:245-248 | a JSON value of any depth reads as the same value after escaping |
| Escape.DocumentPreserved | cmd/atb/inspect.go:55-64 | a whole document and the white space after it, in any chunks, arrive complete, clean, and read as the same value followed by white space |
| Escape.StringExactlyWhen | cmd/atb/inspect.go:245-281 | a text is a JSON string if and only if its escape is one and no escaping backslash in it stands directly before a rune that gets escaped |
| HashChain.EventInjective | internal/event/event.go:10-103 | the JSON of an event determines all its fields, acquisition and checkpoint included |
| HashChain.EventReads | internal/event/event.go:6-103 | every field of an event, its acquisition and checkpoint stands in its JSON under its own name, empty ones left out, and nothing else does |
| HashChain.DecimalReads | internal/canonicalize/canonicalize.go:129-138 | the digits of an integer stand for it, without a zero in front |
| HashChain.PreimageInjective | internal/hash/hash.go:29-38 | events with full-width previous hashes have the same hash input only if they are equal |
| HashChain.PreimageReads | internal/hash/hash.go:29-38 | the hash input is the previous hash followed by text that reads as the event's JSON and nothing more |
| HashChain.Chain | internal/hash/hash.go:42-54 | numbers and links the events in place so that the chain check accepts them; returns the last hash; changes nothing else |
| HashChain.VerifyChain | internal/hash/hash.go:58-88 | succeeds exactly on chains; a reported fault is at the first record that does not fit and is the first test it fails |
| HashChain.SameHead | internal/hash/hash.go:29-88 | two verifying chains with the same last hash are the same list, or an explicit collision or genesis preimage is returned |
| HashChain.ChainPrefix | internal/hash/hash.go:58-88 | a prefix of a chain is a chain |
| HashChain.ChainGrows | internal/hash/hash.go:58-88 | a chain and a record numbered and linked to its end are a chain |
| Manifest.V3IsStructured | internal/bundle/bundle.go:682-818 | a manifest declares version 3 if and only if it is a structured one that says so and has a creation time and id; no string payload does |
| Manifest.StructuredExactly | internal/bundle/bundle.go:774-818 | a structured manifest reads if and only if it has version 2 or 3, a creation time and an id, and as what it says |
| Bundle.NewKeeps | internal/bundle/bundle.go:142-189 | every constructor yields one manifest record that reads back what was asked for and satisfies the bundle invariant |
| Bundle.AppendShape | internal/bundle/bundle.go:197-271 | an accepted append adds one record at the end with the type and data asked for and each option in its own field, and a list that verifies still does |
| Bundle.AppendKeeps | internal/bundle/bundle.go:197-271 | an accepted append adds one record and keeps: verifies, manifest only first, acquisition only under a version 3 manifest |
| Bundle.AppendAllKeeps | internal/bundle/bundle.go:192-271 | so does every run of appends, accepted or refused, and the old bundle is a prefix of the new |
| Bundle.StampKeeps | internal/acquisition/import_integration.go:727-774 | stamping leaves what the manifest declares; the bundle stays sound if it has one record or had the stamp, and otherwise does not unless old and new manifest collide |
| Bundle.StampAdds | internal/acquisition/import_integration.go:739-760 | the stamp is in the metadata and every other entry and field is kept |
| Bundle.SameBundle | internal/bundle/bundle.go:832-877 | two verifying bundles with a manifest (or of equal length) and the same head are equal, or an explicit collision is returned |
| Bundle.PrefixVerifies | internal/bundle/bundle.go:832-877 | every prefix of a verifying bundle verifies |
| Bundle.Bundle.AppendWithOptions | internal/bundle/bundle.go:197-271 | the records become the specified list or stay as they are with the right error; the invariant stays |
| Bundle.Bundle.Verify | internal/bundle/bundle.go:274-286 | no fault exactly when the bundle verifies, numbered from 0 with a manifest and from 1 without |
| Bundle.Bundle.StampManifestProvenance | internal/acquisition/import_integration.go:727-774 | record 0 is edited and rehashed in place, or nothing changes |
| BundleFile.Tracker.Add | internal/bundle/bundle.go:544-564 | after any chunks the two hash states have absorbed all bytes, and all but the last |
| BundleFile.Tracker.TakeSnapshot | internal/bundle/bundle.go:573-581 | the snapshot is that of hashing the byte prefix directly |
| BundleFile.SnapshotMeans | internal/bundle/bundle.go:573-581 | the hash of the whole prefix, and of it without its last byte if and only if that is the line feed closing a line with something in it |
| BundleFile.ContentMeans | internal/bundle/bundle.go:486-493 | a line's content is what stands before its LF or CR LF |
| BundleFile.ScanLines | internal/bundle/bundle.go:462-531 | the scan with its running tracker gives each record the hashes of the literal bytes before it, and fails as the line-by-line specification does |
| BundleFile.LoadReader | internal/bundle/bundle.go:462-531 | loading with limits and manifest check is the specified load |
| BundleFile.SetSourcePrefixHashes | internal/bundle/bundle.go:595-631 | in place, each signature among the records gets the prefix hashes of its line in the raw bytes, every other record none |
| BundleFile.SaveMatchesLoad | internal/bundle/bundle.go:337-363 | saved bytes load if and only if no line is too long and the records are not too many; the metadata a save sets is then what loading computes, record for record |
| BundleFile.SavedLoads | internal/bundle/bundle.go:337-531 | a saved bundle whose manifest reads loads, as the records saved, if and only if no line, the record count and the size are beyond the limits |
| BundleFile.SaveInjective | internal/bundle/bundle.go:337-363 | saved bytes determine the records |
| BundleFile.EncodeRecords | internal/bundle/rooted.go:55-63 | the encoding loop of a save writes each record's line in order |
| BundleFile.ReboundKeeps | internal/bundle/bundle.go:595-631 | setting the metadata changes no record |
| Sign.PayloadCapacity | internal/bundle/sign.go:326-336 | succeeds exactly when both sizes and two separators fit a 64-bit int, and no sum leaves the range |
| Sign.PayloadMetrics | internal/bundle/sign.go:338-351 | the output size is exact and at most the capacity |
| Sign.AppendSignedRecord | internal/bundle/sign.go:291-324 | succeeds exactly when the output is within the limit; the output is the file, closed, and the record's line |
| Sign.SignTo | internal/bundle/sign.go:113-213 | read, load, verify, sign, append: the specified outcome in every error case |
| Sign.LoadClosed | internal/bundle/bundle.go:462-581 | closing an unterminated last line changes no record and no prefix hash |
| Sign.LoadSplit | internal/bundle/bundle.go:462-531 | loading closed lines and more bytes is loading each, the second after the first's bytes |
| Sign.SignReload | internal/bundle/sign.go:113-213 | a signed file keeps every byte, has the announced size, and loads again exactly when there is room for the record; then it holds the old records, the signature bound to the bytes signed, and a verifying chain |
| Sign.SignatureReads | internal/sign/bundle.go:55-112 | reading a signature record gives the digest of the signed bytes, the key's signature and public key, its algorithm, backend and id, each from its own field |
| Sign.SignatureReloads | internal/bundle/sign.go:113-197 | so does reading the last record of the signed file after loading it |
| Sign.SignedReply | internal/bundle/sign.go:157-176 | only an answer with a signature and a key of its algorithm's size is taken |
| Sign.SignAllReload | internal/bundle/sign.go:113-351 | after one or more signings every byte is in place and the file loads if and only if records, last line and size are within their limits; it then holds the first records, then the signatures, a verifying chain, and every signature's digest equals its prefix hash with or without the closing line feed |
| Journal.ReadEntries | internal/capturejournal/journal.go:430-494 | the read loop returns the specified entries, torn flag or error |
| Journal.ReadOk | internal/capturejournal/journal.go:430-519 | a file of well-chained lines and an unfinished one reads as exactly those entries, torn exactly when something unfinished follows, or is refused exactly when an entry has another format version |
| Journal.HashableReads | internal/capturejournal/journal.go:66-96 | each field of an observation stands in what its hash covers under its own name |
| Journal.EntryInjective | internal/capturejournal/journal.go:98-105 | the hash input determines the whole entry but its format version and stored hash |
| Journal.SameJournal | internal/capturejournal/journal.go:66-105 | two well-chained journals with the same last hash are the same up to format versions, or an explicit collision is returned |
| Journal.ReadIsChained | internal/capturejournal/journal.go:430-494 | whatever the file's bytes, entries that read are in place, linked and of version 1 |
| Journal.TamperEvident | internal/capturejournal/journal.go:430-494 | two journal files that read and end in the same hash hold the same entries, or an explicit collision is returned |
| Journal.JournalFile.Append | internal/capturejournal/journal.go:353-408 | disk, object and result are the specified ones for every way the write and the fsync end |
| Journal.OpenJournal | internal/capturejournal/journal.go:122-174 | however many effects of Open still happen, those that do are the first of: drop a stale marker, write the repair marker, cut the tail, open the file, sync its directory; the object is there after the last |
| Journal.AppendKeeps | internal/capturejournal/journal.go:353-408 | an append of any entry that succeeds, fails or dies at any byte keeps the journal invariant |
| Journal.OpenKeeps | internal/capturejournal/journal.go:122-174 | an Open that fails or dies before any of its effects keeps the invariant |
| Journal.CrashKeeps | internal/capturejournal/journal.go:353-408 | so does a crash that leaves any number of unsynced bytes |
| Journal.RunKeeps | internal/capturejournal/journal.go:122-519 | so does every run of these |
| Journal.Recovered | internal/capturejournal/journal.go:122-519 | after any run a journal holds well-chained entries at positions 1..n: all acknowledged ones in order and at most one other per failed or dying append; they read if and only if all have format version 1; once a torn tail was cut the journal reads as repaired; a degradation marker stays |
| Journal.NegativeVersion | internal/capturejournal/journal.go:353-467 | a running journal takes exactly the entries with version at most 1, an id and a line that fits, and reads again if and only if it did before and the version was not negative |
| Journal.FailedAppend | internal/capturejournal/journal.go:393-405 | a failed write or fsync is reported, marked as a degradation, and refuses every later append |
| Journal.OversizedAppend | internal/capturejournal/journal.go:385-392 | an oversized entry is refused and marked, and nothing is written |
| Reconcile.Reconciler.Reconcile | internal/acquisition/reconcile.go:86-152 | the classification by known digest, and what is remembered of this identity and no other |
| Reconcile.Reconciler.LoadFromBundle | internal/acquisition/reconcile.go:160-204 | the known records are those the specification folds out of the bundle |
| Reconcile.KnowsLast | internal/acquisition/reconcile.go:160-204 | in a numbered bundle what is known of an identity is the digest and time of its last record |
| Reconcile.Classified | internal/acquisition/reconcile.go:86-152 | NEW if and only if the bundle lacks the identity, UNCHANGED if and only if its last record has the digest, CHANGED otherwise, with the one finding that names record, digests and times; UNKNOWN without an identity |
| Reconcile.JoinInjective | internal/acquisition/reconcile.go:154-157 | without ':' in the system, a key determines system and record id |
| Reconcile.SameKey | internal/acquisition/import_integration.go:598-604 | events of one source record, and no others, share a key |
| Reconcile.UnknownApart | internal/acquisition/import_integration.go:598-604 | an event without a record id shares its key with no other event |
| Reconcile.PlanReconciliation | internal/acquisition/import_integration.go:588-649 | the memoising loop decides every event as the first of its source record is decided against the bundle, and counts each source record once |
| Reconcile.ApplyReconciliation | internal/acquisition/import_integration.go:652-676 | appends exactly what the plan selects, or stops at the first refusal |
| Reconcile.ApplyShape | internal/acquisition/import_integration.go:652-676 | the old bundle is a prefix of the new one, which has one more record per append call, in order, and verifies if the old one did |
| Reconcile.ApplySound | internal/acquisition/import_integration.go:652-676 | applying keeps the whole bundle invariant |
| Reconcile.ApplySucceeds | internal/acquisition/import_integration.go:652-676 | applying succeeds if and only if every append call is no manifest, has a valid type, and carries acquisition only when the manifest the bundle had before declares version 3 |
| Reconcile.CallsPlaced | internal/acquisition/import_integration.go:652-676 | each event's appends stand where those of the events before it end, a finding directly before its event |
| Reconcile.Accounting | internal/acquisition/import_integration.go:588-676 | new + changed + unchanged + unknown is the number of distinct source keys; the bundle grows by written + changed |
| Reconcile.CountsMean | internal/acquisition/import_integration.go:588-649 | each count is the number of source records of that kind, read off the bundle |
| Reconcile.Recorded | internal/acquisition/import_integration.go:588-676 | for the first event of an identified source record the new bundle has, at its place, the event, nothing, or a finding naming both digests and then the event, by what the old bundle holds of it |
| Reconcile.SkippedExactly | internal/acquisition/import_integration.go:588-649 | an identified event is skipped if and only if the last record of its source has its digest |
| Reconcile.Arrived | internal/acquisition/import_integration.go:652-676 | every event not skipped stands in the new bundle as one record, each part in its field |
| Reconcile.PlainCount | internal/acquisition/import_integration.go:588-676 | a plain import appends one record per event |
| Reconcile.OneFinding | internal/acquisition/import_integration.go:588-649 | a CHANGED source record has one finding, at the first of its events, and none of its events is skipped |
| Reconcile.ImportTwice | internal/acquisition/import_integration.go:588-676 | after an import in either mode into any verifying bundle, reconciling the same records finds every identified one UNCHANGED and skips it |
| Reconcile.SecondImportIsEmpty | internal/acquisition/import_integration.go:588-676 | with every event identified, the second import appends nothing to the records of the first |
| Import.RunImport | internal/acquisition/import_integration.go:146-273 | however many writes still happen, those that do are the first of: the bundle, then the checkpoint bound to it; the error tells which case |
| Import.PrepareImport | internal/acquisition/import_integration.go:146-270 | checks, plan, appends and binding give the specified bundle and checkpoint or the specified error |
| Import.CheckpointAfter | internal/acquisition/import_integration.go:268-273 | a complete import's checkpoint has its source, the position asked for, the number of events written, and the saved bundle's head and count |
| Import.SourceRefused | internal/acquisition/checkpoint.go:247-264 | which pairs of sources are refused |
| Import.OldProfileRefused | internal/acquisition/import_integration.go:715-724 | an existing bundle not of version 3 takes no event with acquisition, and nothing is written |
| Import.RunSnapshot | cmd/atb/import.go:217-230 | likewise for a snapshot: the bundle, then its checkpoint rebound, if there is one |
| Import.CheckBeforePlan | internal/acquisition/import_integration.go:146-225 | the checks before planning, in their order: checkpoint, source, loading the bundle's bytes, chain, binding; and what the import then works on |
| Import.OpenBundle | internal/acquisition/import_integration.go:203-212 | the records loaded from the file's bytes within the limits, or a new stamped bundle where there is no file |
| Import.SavedOpens | internal/acquisition/import_integration.go:204-207 | what an import saved opens again, as the records saved, if and only if it is within the load limits and can be read |
| Import.StepKeeps | internal/acquisition/checkpoint_integration.go:79-89 | imports and snapshots with rebinding, each cut off before any of its writes, swaps of the bundle's bytes and damage to checkpoints keep: every bound checkpoint names a saved bundle's head and count |
| Import.CheckpointsNameCommitted | internal/acquisition/import_integration.go:259-273 | so does every run of them |
| Import.ContinuesOnSameEvidence | internal/acquisition/checkpoint.go:277-295 | an import that passes validation on a bound checkpoint works record for record on the saved bundle it was bound to, if that verifies, or a collision is returned |
| Import.Reimport | internal/acquisition/import_integration.go:146-273 | importing the same records again after an import that reached its bundle save is refused exactly for a checkpoint that does not load, a foreign source, a saved bundle beyond the load limits or unreadable, one that does not verify (as before) or a foreign binding; otherwise it writes the same bundle bytes again |
| Import.FreshVerifies | internal/acquisition/import_integration.go:688-705 | where there is no bundle an import starts on a sound one of one manifest that declares version 3 and is stamped as retrospective |
| Chatlog.ExchangeIdentities | internal/capture/chatlog.go:239-271 | each message's exchange id, and one digest per exchange, over all its messages |
| Chatlog.ExchangeMeans | internal/capture/chatlog.go:239-271 | an exchange is opened by a user turn, under its request id or a generated one, and lasts to the next user turn |
| Chatlog.NamespaceMeans | internal/capture/chatlog.go:558-568 | the first conversation or session id, or the default |
| Chatlog.LinesMean | internal/capture/chatlog.go:239-271 | an exchange's digest is over the raw lines of exactly its messages, in order |
| Chatlog.MapMessages | internal/capture/chatlog.go:333-481 | accepts exactly the lists without a faulty message and reports the first fault; each event comes from a message with request id, source record id and exchange id all equal, and the exchange's digest; skipped and model flags |
| Chatlog.EventCount | internal/capture/chatlog.go:333-481 | the number of events is users + tools + assistants without a model + 3 per assistant with one |
| Chatlog.EventSays | internal/capture/chatlog.go:333-481 | an event's type fits the role of its message, and its acquisition names chat log, exchange, digest and times |
| Chatlog.TypesOf | internal/capture/chatlog.go:333-481 | the events of each kind of message in their order |
| Chatlog.FilterKnownTurns | internal/capture/chatlog.go:311-322 | the messages of known role in order, and the indices of all the others, ascending |
| Chatlog.MappedIsClean | internal/capture/chatlog.go:274-295 | mapped events are identified, their system has no ':', and the digest is a function of the id |
| Chatlog.ChatlogTwice | internal/acquisition/import_integration.go:588-676 | importing a chat log again later in reconcile mode appends nothing to the records of the first import, into any verifying bundle |
| Lock.StableRun | internal/bundle/lock_unix.go:33-86 | while the lock file lasts and nobody is about to remove it, every interleaving has at most one holder and keeps the file |
| Lock.RootedRun | internal/bundle/rooted.go:112-125 | from an empty directory, rooted callers exclude each other and never remove the lock file once it is there |
| Lock.RemovalBreaks | internal/bundle/lock_open.go:15-33 | from an empty directory one `lockPath` caller suffices for two holders at once |
| Lock.SafeExactlyWhen | internal/bundle/lock_unix.go:33-86 | among two or more callers exclusion holds in every interleaving if and only if the lock file is already there or all callers are rooted |
| Retry.AcquireWithRetry | internal/bundle/lock.go:44-83 | at most ceil(timeout/interval) + 1 tries; each pause is the lesser of the interval and the time left, so none passes the deadline; a cancelled wait ends the run and only it does so as cancelled; release only after a successful try |
| Agent.BundleFileManager.OpenSession | internal/agent/bundle_file_manager.go:63-120 | manager and file bytes after opening, in every error case, and the health that is recorded |
| Agent.BundleFileManager.AppendEvent | internal/agent/bundle_file_manager.go:123-152 | manager and file bytes after an append whose save ends in any way |
| Agent.BundleFileManager.CloseSession | internal/agent/bundle_file_manager.go:155-195 | manager and file bytes after saving, loading back and closing |
| Agent.LoadRooted | internal/bundle/rooted.go:18-38 | loads exactly bytes within the limits that are a manifest-first, verifying bundle, with the hashes before its signatures |
| Agent.SaveRooted | internal/bundle/rooted.go:42-69 | the file becomes the records' lines unless the save fails before its rename; after a success the metadata in memory is that of the bytes written |
| Agent.SavedRereads | internal/bundle/rooted.go:18-69 | saved bytes of a sound bundle load if and only if they are within the limits, and then as the bundle in memory |
| Agent.RunKeeps | internal/agent/bundle_file_manager.go:63-195 | over every run with distinct live paths: each session's bundle verifies, its event count is its non-manifest records, its file loads as that bundle or is the bytes of it or of it and one event whose append failed |
| Agent.FilesExactlyWhen | internal/agent/bundle_file_manager.go:75-118 | the file part of that holds over every run if and only if no two live sessions use one path |
| Agent.SharedPathBreaks | internal/agent/bundle_file_manager.go:123-152 | of two live sessions on one path, a run of successful appends to one leaves a file that is not the other's bundle nor that and one event |
| Agent.SharedPathLoses | internal/agent/bundle_file_manager.go:123-152 | after successful appends to two sessions on one path the file is the second's memory, without the first's event |
| Agent.AppendOutcome | internal/agent/bundle_file_manager.go:123-152 | on success memory has the one new event, with the session's trimmed actor, and the file loads as memory exactly if it is within the limits; on failure memory is as it was and the file is as it was or the bytes of memory and that event |
| Bundle.Trimmed | internal/agent/bundle_file_manager.go:252-258 | trimming takes away all space at both ends and nothing else |
| Agent.CloseOutcome | internal/agent/bundle_file_manager.go:155-195 | a close succeeds if and only if save, read and metadata file do and the records are within the limits; the file then loads as the session's records |
| Agent.ReopenOutcome | internal/agent/bundle_file_manager.go:86-95 | a saved bundle opens again if and only if it is within the limits, with its records |
| Agent.FileLoads | internal/agent/bundle_file_manager.go:63-195 | a live session's file, within the limits, loads as the session's records or those and one event whose append failed |
| Agent.OutgrownNeverCloses | internal/agent/bundle_file_manager.go:123-195 | a session whose records no longer fit the limits stays open in every run, while every append whose save succeeds succeeds |
| Agent.SuccessSynced | internal/agent/bundle_file_manager.go:63-195 | after a step that succeeded the session's file loads as the session's bundle, metadata included, unless the bundle is beyond the limits |
| Agent.ClosedStays | internal/agent/bundle_file_manager.go:155-195 | a closed session never changes again |
| Agent.HealthIsLast | internal/agent/bundle_file_manager.go:213-229 | over every run the recorded error is the outcome of the last step that did not end in a session-state error |
| Agent.HealthStays | internal/agent/bundle_file_manager.go:213-229 | without such a step it stays what it was |

## Left out

- Numbers: a number is its token. That `serializeNumber` prints section 3.2.2.3 of RFC 8785 is not claimed, nor float64 rounding of integers above 2^53; sequence numbers print exactly.
- Shortest.CanonShortest: does not order texts of equal length; key order and the case of hex digits are stated on their own.
- Sign.SignatureReads: lowers ASCII letters only; base64 is a parameter that gives text without space around it.
- Strings are sequences of Unicode scalar values; Go strings that are not UTF-8 reach the writer with U+FFFD in place of their bad bytes.
- `encoding/json`: case-insensitive field matching and duplicate keys in records; the codec is a parameter. A `null` version 1 manifest payload, on which the stamp would panic, is a refusal here.
- File system: fsync and rename are atomic durable steps, with a cut before and after; file modes and path cleaning are not modelled. Bytes of the journal that were not synced may be lost from the end in any number.
- BundleFile.LoadReader: does not say which error comes first when a file breaks more than one limit, because that depends on how far the reader has read ahead.
- bufio.Scanner: buffer growth; the blank-line test of the journal is a parameter.
- Journal.Recovered: is about a journal file that still exists; removing the file starts a new history. A truncation is durable at once; one that a power loss undoes is not modelled.
- Reconcile.ImportTwice: is for source systems without ':' other than `__unknown__`, because keys are plain joins, and for one digest per identity in the import.
- Import.ContinuesOnSameEvidence: is for one importer at a time; an import is one step that may stop before any of its writes.
- Sign.SignAllReload: is for runs of signings only; a save in between writes every record anew, so earlier bytes may change.
- Lock.StableRun: does not model Windows, network file systems, or removal of the lock file by others.
- Retry.AcquireWithRetry: does not model overflow of time values; clock readings are a parameter that never goes back and no timer fires early.
- Agent.RunKeeps: does not say which of several failed appends left its event in the file.
- Checkpoints are values that are replaced, where the Go code updates one held by a manager; their creation times and the derivation of their paths are not modelled.
- Chat log parsing, and the event data the mapper builds besides type, request id, role, line, time and acquisition: the properties here do not depend on them.
- The OTel translator: its events enter the same import; its translation is not part of this model.
- The signer is a reply that is checked; key handling, RFC 3161 anchors and encryption are thin layers over libraries.
- CLI, HTTP handlers, viewer, profiles, archives, exports and retention: presentation and assembly, or the same chain argument again.
