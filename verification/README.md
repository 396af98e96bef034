# Sub0Log, verified

A Dafny model of Sub0Log, a lock-free, crash-surviving binary log, and proofs of what its
design promises. Many producer threads claim fixed-size chunks of a memory segment, write
records into their own chunk and publish each record by storing its head word last; a reader
that never talks to them recovers exactly what was published from any snapshot of the bytes.

`dafny verify dfyconfig.toml` checks everything.

## How it is built

**The format.** `Bytes`, `Crc`, `Wire` hold little-endian words, CRC-32, head words, size
classes and chunk headers. `Layout` says how records lie in a chunk body, `Memory` how bytes
land one store at a time.

**The reader.** `Reader` is the recovery walk over arbitrary bytes (a class with the loops of
`visit`, against a recursive specification); `Chains` is the continuation-chain state machine
against a stateless look-ahead; `Decoder` is the two-pass decoder class; `Parsing` says what its
parsers accept.

**The writer.** `Encode`, `Groups`, `Fit` say which records a request becomes and how it is made
to fit, `Answers` what those records say. `Writer`, `Encoder`, `Logging`, `Offers`, `Emitter` are the imperative emit path over an
`array<byte>`, from the created segment on, each method tied to the specification in `Sequential`;
`Bridge` proves that after every call the bytes open and read back as those records.

**The protocol.** `Segments`, `History`, `Producer` are a step machine: any number of threads, any
number of segments, one atomic access per step (a claim, one header byte, one payload byte, a
head word whole or low half then tag half, the announced key, the announce table). What a
request and a group of records look like is a parameter there (`Format`); `Vocabulary` plugs in
the library's own. `Safety` proves what every step keeps and lifts it to every state of every run;
`Ledger` follows every call of a run to its end, `Losses` gives the reason of every drop, and
`Solo` joins the step machine to the emit path.

**The promises.** `Recovery`, `Snapshots`, `Transcripts`, `Readback` compute what a reader makes of
a state's bytes; `Guarantees` states the results over every reachable state. `Live` is the visit
load by load, `Chronicles` what it finds when every load sees a different state, `Owners` and `Torn` whose
records it takes them for. `Follow`, `Identity` and `Tailing` treat repeated scans; `Damage`,
`Confinement` and `Forgery` damaged bytes; `Assembly` builds the segment an example needs.

**The rest.** `Claims` (two claim protocols), `Announce` (the plugin table), `Registry` (that table as
the protocol's map), `Text` (UTF-8 and JSON export), `Quoting` (Windows command lines), `Capture`
and `Children` (child output lines and their records), `Rotation` (a session over many segments)
and `Hearing` (what a reader makes of one).

Where a promise needs a condition, the condition is part of the statement: the healthy-segment
count has the 1-to-31-byte tail, the claim word is unique up to 2^64 claims, damage is confined
unless it forges a live header with another stride, a plugin's message decodes exactly when its
bytes parse as the types its site declared, a live reader names the right owner exactly when the
id's non-zero bytes were stored before it loaded them.

## Model

| member | source | states |
|---|---|---|
| `Guarantees.CommittedPrefix` | include/sub0log/chunk.hpp:104-136 | In a snapshot of every state of every interleaving, with head words stored whole or low half then tag half, the image opens and its records are exactly each chunk's published groups, in offset order, with payload, kind, flags and owner as written. |
| `Guarantees.SnapshotDecodes` | include/sub0log/detail/emit.hpp:444-532 | After any step of any run, decoding gives exactly one complete message per published emit, in order; no stray continuation, no malformed definition: a chain is there whole or not at all. |
| `Guarantees.LedgerBalances` | include/sub0log/detail/emit.hpp:585-616 | At every instant of every run, however long after exhaustion: every emit and plugin emit that began on a segment is still under way or has ended, the ended ones are exactly the decoded messages plus undecodable plus counted drops, and only plugin bytes that do not parse as their declared types are undecodable. |
| `Guarantees.EmitsOnly` | include/sub0log/detail/emit.hpp:448-473 | Without plugin emits nothing is undecodable, and emits begun equal messages decoded plus drops counted plus emits still under way. |
| `Guarantees.MessageIsItsCall` | include/sub0log/detail/emit.hpp:362-537 | Every message a snapshot of a run shows was said by a call that began on that segment, with that call's own site and arguments, texts up to 4096 bytes, or 512 exactly where no empty chunk holds the chain, flagged exactly when a byte was lost. |
| `Guarantees.SelfDescription` | include/sub0log/site.hpp:32-52 | In every reachable snapshot every visible message's site is defined in the same segment, with the types it was written with, and each learnt site is its owner's description with at most its two strings cut. |
| `Guarantees.NamesAreTrue` | include/sub0log/reader.hpp:707-718 | On every reachable snapshot exactly the subsystems a published definition names are known, each under the first 512 bytes of the first name published for it. |
| `Guarantees.GroupIsItsCall` | include/sub0log/child.hpp:435-454 | Every published group but an announcement says what one call on that segment asked for: a child's record has the kind, flags and payload given, a subsystem's name its id and first 512 bytes, a plugin's message the bytes given. |
| `Guarantees.LostForCause` | include/sub0log/detail/emit.hpp:100-148 | In every run a call that ended in a drop came to a segment with every chunk granted, or asked for what no empty chunk can take even cut, or is a plugin's whose site the table did not answer for. |
| `Guarantees.IdleIsHealthy` | include/sub0log/reader.hpp:412-419 | With no thread mid-write, the bytes a visit counts unreadable are exactly the tail behind the last whole chunk when that tail is shorter than a chunk header, and none otherwise. |
| `Safety.RunInv` | include/sub0log/instance.hpp:496-512 | Every state of every run keeps memory equal to the chunks' histories, every key and table entry backed by a published definition, every group being written chosen for its own call with a second try only on an empty chunk, and at most one unfinished chunk per thread. |
| `Safety.StepInv` | include/sub0log/detail/emit.hpp:574-616 | Each single step of each thread keeps all of that. |
| `Safety.RunLater` | include/sub0log/chunk.hpp:104-136 | Between an earlier and a later state of a run each chunk's header is unchanged, no less of it is stored, and its records and groups only extend. |
| `Ledger.CallsConserved` | include/sub0log/detail/emit.hpp:585-616 | Over any run and for any description of calls, those that began on a segment are exactly those that ended there plus those under way: none is lost sight of, none ends twice. |
| `Ledger.GroupsAccounted` | include/sub0log/instance.hpp:496-512 | The groups a segment has published, announcements aside, are exactly those its ended calls wrote, and its drop counters count exactly the calls that ended with nothing. |
| `Ledger.EndingsAreFair` | include/sub0log/detail/emit.hpp:448-473 | A call that ended with a group ended with one of its own kind, chosen for what it asked, on an empty chunk if on a second try. |
| `Ledger.LedgerHolds` | include/sub0log/detail/emit.hpp:585-616 | Per segment and kind of call: ended is published plus dropped, begun is ended plus under way. |
| `Ledger.GroupHasCall` | include/sub0log/detail/emit.hpp:362-537 | Every published group but an announcement answers a call that began on that segment. |
| `Losses.LostIsDue` | include/sub0log/instance.hpp:496-512 | Whatever the requests are, a lost call had a reason: the segment was spent, a fresh chunk refused it, or the table missed its site. |
| `Solo.SoloEmit` | include/sub0log/detail/emit.hpp:585-616 | An emit no other thread interrupts takes the step machine exactly where the emit path's specification says: same records, claims, cache and drops, same group or loss, and the site remembered once its message is out. |
| `Safety.OthersKeep` | include/sub0log/instance.hpp:441-449 | One thread's step never disturbs what another thread relies on. |
| `Safety.PutKeeps` | include/sub0log/detail/emit.hpp:509-532 | The publishing store, and no earlier one, lets a thread go on; after an announcing group is out, its definition is in the segment. |
| `Vocabulary.RealIsGood` | include/sub0log/abi_host.hpp:335-445 | Every call the library makes, typed, plugin or plain record, meets what the protocol's guarantees assume of calls. |
| `Segments.MovedOk` | include/sub0log/segment.hpp:387-435 | Every claim, header byte, reservation, payload byte and head-word store keeps memory equal to what the chunks' histories say, and nothing else. |
| `Segments.TagIsLast` | include/sub0log/detail/atomics.hpp:158-171 | Under the commit order the tag of a group's first record is stored by the publishing store alone, and that store completes the group. |
| `Segments.CreatedOpens` | include/sub0log/segment.hpp:226-245 | What the producer initialises, the reader opens, with the same geometry. |
| `Segments.FreshOk` | include/sub0log/segment.hpp:296-334 | A created segment starts the protocol in order. |
| `Snapshots.SnapshotVisits` | include/sub0log/reader.hpp:371-574 | A visit of a segment at any instant yields each chunk's published head words at their offsets, numbered by ordinal modulo 65536, and nothing from half-stamped or half-written chunks. |
| `Snapshots.SnapshotRecords` | include/sub0log/reader.hpp:510-566 | The records loaded from it carry the payloads that were written. |
| `Snapshots.PartialJudged` | include/sub0log/reader.hpp:435-508 | A header caught half-stamped never declares another stride. |
| `Snapshots.QuietIsHealthy` | include/sub0log/reader.hpp:412-419 | A segment nobody is writing is unreadable nowhere but in that tail. |
| `Live.StillIsVisit` | include/sub0log/reader.hpp:371-574 | On memory that does not change, the visit load by load is the visit of that image, whenever its loads happen. |
| `Chronicles.LiveHead` | include/sub0log/detail/atomics.hpp:173-199 | A head word whose tag half is loaded at one moment and whose other half at a later one is never a tag with a stale length: a tag is seen exactly on published records, and the word and every payload byte, each loaded at its own moment, are that record's. |
| `Chronicles.HeaderIsPartial` | include/sub0log/segment.hpp:430-430 | A chunk header whose bytes are loaded at different moments is the stamp as far as each byte was stored when it was loaded, and zero elsewhere. |
| `Chronicles.LiveTail` | include/sub0log/reader.hpp:498-566 | A pass over one chunk, header and body, while it is claimed, stamped and written shows an initial run of its final records: all published when the pass began, and steps on by the uniform stride. |
| `Chronicles.LivePrefix` | include/sub0log/reader.hpp:371-574 | A whole visit whose every load sees a state of its own yields, chunk by chunk, such an initial run, heads with ordinals and payloads whole, and nothing besides. |
| `Chronicles.LiveVisitOfRun` | include/sub0log/reader.hpp:510-566 | The same in every run, for a visit started at any state and finished by any later one. |
| `Owners.OwnerRightIff` | include/sub0log/reader.hpp:435-470 | The owner a live reader reports is the claiming thread exactly when each non-zero byte of the thread's id was stored before it was loaded, since a header without a checksum yet is believed. |
| `Owners.SettledOwner` | include/sub0log/segment.hpp:404-435 | It is right whenever the claim had returned before the visit came to the chunk. |
| `Torn.TornOwner` | include/sub0log/reader.hpp:435-470 | It can be wrong, in a run given step by step: a header of which only the generation is stored is taken for live, and a record published later is reported under another owner. |
| `Tailing.FollowIsExact` | tools/sub0log_cat.cpp:386-505 | Scans decoded from the bytes of any segments at any instants of a run, merged in any order, print each message some instant shows and the filter wants exactly once, and nothing else; what they read is exactly what is published there then. |
| `Tailing.SameKeySameMessage` | tools/sub0log_cat.cpp:463-475 | Whenever and from whichever segment a key is read, it is the same segment and the same message, but for where a definition's two strings were cut. |
| `Tailing.ReadIsShown` | include/sub0log/reader.hpp:682-958 | A scan of a segment's bytes has an entry under a key exactly when the message at that place is published. |
| `Tailing.ShownStays` | include/sub0log/reader.hpp:386-571 | A message one instant shows, every later instant shows. |
| `Identity.OneAtAnOffset` | include/sub0log/chunk.hpp:104-123 | No two published groups of a segment share an offset. |
| `Identity.SameSpot` | include/sub0log/chunk.hpp:104-136 | What stands at an offset in one state of a segment stands there in every later one. |
| `Tailing.DecodedPlaces` | include/sub0log/reader.hpp:682-958 | Decoding a snapshot finds a message at each published message's offset and nowhere else. |
| `Tailing.GenerationsDiffer` | include/sub0log/segment.hpp:226-245 | No two segments of a run share a generation. |
| `Follow.Run` | tools/sub0log_cat.cpp:372-505 | The scan loop succeeds exactly when each scan, the retained cursor and the whole output are within their budgets, and then prints the wanted first sightings of all scans in order; otherwise an initial part of them. |
| `Follow.PrintScan` | tools/sub0log_cat.cpp:452-505 | One pass over a scan stops exactly when the cursor or the output would exceed its budget. |
| `Follow.ExactlyOnce` | tools/sub0log_cat.cpp:463-475 | Keyed by process, generation and offset, every wanted message any scan shows is printed once. |
| `Reader.VisitIsSafe` | include/sub0log/reader.hpp:371-574 | On any image `open` accepts the visit goes chunk behind chunk, each told from its own bytes: records come only from a chunk whose stored checksum is 0 or matches, whose generation is the segment's and whose class byte is at most 17, and they are its tagged words one behind the other, under the thread id stored there; the next chunk starts where that class spells, or one stride on for every other chunk; and which of the two counters its bytes go to is fixed for every kind of chunk and every kind of stop. Every payload lies inside its own chunk, no two overlap, and every byte is counted once. |
| `Reader.SegmentReader.Visit` | include/sub0log/reader.hpp:371-574 | The nested cursor loops compute exactly the recursive walk and its two byte counters, from zero on each call, and what they yield and count is what the image's bytes tell, chunk by chunk. |
| `Reader.SegmentReader.WalkBody` | include/sub0log/reader.hpp:498-566 | The inner loop's records and counts are those of the recursive walk, stopping at blank, torn and overlong words. |
| `Reader.SegmentReader.LoadHead` | include/sub0log/detail/atomics.hpp:192-199 | Loading a word by halves and testing its tag is reading its eight bytes. |
| `Reader.WalkFinds` | include/sub0log/reader.hpp:498-566 | Inside one body, records lie between the cursor and the end, never overlap, and every byte is counted once. |
| `Chains.Stream` | include/sub0log/reader.hpp:779-957 | On every record stream the pending-chain machine yields, in order, exactly the Messages that are whole: those that promise no chain, and those with an unbroken row of Continuations right behind them, all but the last promising another, each joined in turn; every other Message is counted undecodable once, and every Continuation that no open chain reaches is skipped once. |
| `Chains.Feed` | include/sub0log/reader.hpp:803-943 | One record through the machine publishes, gives up or orphans exactly what the look-ahead says is still to come. |
| `Chains.MessagesAreWhole` | include/sub0log/reader.hpp:803-957 | The stateless look-ahead finds exactly the Messages that are whole, stated by positions in the stream; the rest are the undecodable ones. |
| `Chains.OrphansAreStray` | include/sub0log/reader.hpp:803-860 | The orphans are exactly the Continuations that no chain a Message opened reaches unbroken. |
| `Chains.ContinuationsConserved` | include/sub0log/reader.hpp:803-860 | On every stream each Continuation belongs to one chain or is an orphan. |
| `Decoder.TypedDecoder.DecodeAll` | include/sub0log/reader.hpp:682-958 | Both passes over one image: each Message is a result where it is whole and counted undecodable where it is not, each Continuation outside every chain and each record of another kind is skipped once, malformed definitions are counted, and sites and names are those known before or else first defined. |
| `Decoder.TypedDecoder.LearnDefinitions` | include/sub0log/reader.hpp:694-735 | After the first pass exactly the ids known before or defined by a well-formed record are known, sites and subsystem names alike, each as known before or else by the first of its definitions; malformed and other records are counted. |
| `Decoder.LearnKeepsFirst` | include/sub0log/reader.hpp:694-718 | Learning record by record keeps what was known and otherwise believes the first to speak of an id. |
| `Fit.ArgumentsSurvive` | include/sub0log/encode.hpp:226-264 | Whatever room it is written into, a message reads back, whatever records follow, with every fixed argument unchanged and every text up to 4096 bytes, or 512 where the chain exceeds that room, flagged exactly when bytes were lost. |
| `Fit.TruncatedIffLost` | include/sub0log/detail/emit.hpp:534-536 | The truncated flag is set exactly when some text is longer than what was kept. |
| `Fit.LostIffDifferent` | include/sub0log/detail/emit.hpp:534-536 | Some text is longer than what was kept exactly when the arguments read back differ from the uncut ones. |
| `Fit.ChosenFits` | include/sub0log/detail/emit.hpp:271-320 | Whatever is chosen for a request fits the room it was chosen for, chains included, whole. |
| `Fit.DefinitionFitsIff` | include/sub0log/detail/emit.hpp:118-148 | A definition can be written into an empty chunk exactly when its fixed part fits. |
| `Fit.ShrunkIsFair` | include/sub0log/detail/emit.hpp:118-148 | A cut definition keeps each string whole within its half of the space and cuts it to that half otherwise, fits, and has no more space to share out. |
| `Fit.ChoiceIff` | include/sub0log/detail/emit.hpp:271-320 | A chunk in hand takes exactly what it can take whole; a fresh one also what it can only take cut. |
| `Answers.ChosenAnswers` | include/sub0log/child.hpp:435-454 | Whatever is chosen for a request, its records read back as what was asked for: a child's record with its kind, flags and payload, a subsystem's id and capped name, a plugin's site, time, correlation and bytes, a message's arguments up to the cap, a definition with its strings whole or fairly cut; flagged exactly when bytes are missing. |
| `Fit.MessageFitsIff` | include/sub0log/detail/emit.hpp:448-473 | A message is refused by a fresh chunk exactly when its inline part does not fit. |
| `Encode.FixedRoundTrip` | include/sub0log/encode.hpp:313-335 | Every fixed-size value decodes to itself, sign included. |
| `Encode.ArgsRoundTrip` | include/sub0log/encode.hpp:339-402 | The inline encoding of any argument list parses back, whatever follows it, with texts up to 512 bytes. |
| `Encode.DefinitionRoundTrip` | include/sub0log/detail/emit.hpp:150-182 | A definition reads back with every type code and the parts of its strings it had room for. |
| `Encode.LinksComplete` | include/sub0log/detail/emit.hpp:405-446 | Inline parts extended by all a message's slices are its texts up to 4096 bytes. |
| `Encode.SlicesAreFull` | include/sub0log/detail/emit.hpp:271-320 | Slices lose nothing, and none but the last is short. |
| `Encode.ChainJoins` | include/sub0log/reader.hpp:803-860 | Reading a chain's continuations appends exactly its slices to the arguments they name. |
| `Groups.GroupDecodes` | include/sub0log/reader.hpp:779-957 | Any group read back, whatever records follow it, yields exactly its own message and leaves no orphan. |
| `Readback.SubsystemRoundTrip` | include/sub0log/reader.hpp:628-642 | A subsystem definition parses back to its id and capped name. |
| `Parsing.ParsesIffSpelled` | include/sub0log/reader.hpp:858-905 | On any bytes, arguments parse exactly when they are spelled one behind the other at the front, each text within its bytes; no length reaches past the payload. |
| `Parsing.SiteIff` | include/sub0log/reader.hpp:579-627 | A site definition is well formed exactly when it is spelled as one, and is then that site. |
| `Parsing.SubsystemIff` | include/sub0log/reader.hpp:628-642 | A subsystem definition is well formed exactly when it is spelled as one. |
| `Parsing.OpensIff` | include/sub0log/reader.hpp:862-919 | A Message opens exactly when its payload names a known site and spells that site's arguments. |
| `Parsing.OpenIff` | include/sub0log/reader.hpp:326-369 | An image opens exactly when its first 64 bytes are a header of this format with a sane geometry the image has room for, and which error another one gets. |
| `Writer.ChunkWriter.Reserve` | include/sub0log/chunk.hpp:104-123 | A reservation succeeds exactly when the length fits 16 bits and the padded record fits, takes the next ordinal, and a refusal changes nothing. |
| `Writer.ChunkWriter.Commit` | include/sub0log/chunk.hpp:125-136 | The committed word carries the ordinal given at reservation and touches no other byte. |
| `Writer.ChunkWriter.ReserveChain` | include/sub0log/detail/emit.hpp:271-320 | The whole chain is reserved in this chunk, slot after slot, exactly when it fits; otherwise the writer is left as it was. |
| `Writer.ChunkWriter.Publish` | include/sub0log/detail/emit.hpp:475-532 | Payloads, then continuation heads, then the message head: afterwards memory is the old one with the group's bytes, padding included, and nothing else changed. |
| `Encoder.SizeArgs` | include/sub0log/detail/emit.hpp:385-436 | One pass finds the inline size, the overruns whose slices are the chain's, and whether any text is past the ceiling. |
| `Encoder.EncodeAll` | include/sub0log/encode.hpp:365-402 | The running-offset loop writes the inline encoding of the whole list. |
| `Encoder.BoundedLength` | include/sub0log/encode.hpp:242-264 | A C string is scanned to its end or one byte past the ceiling, never further. |
| `Logging.Initialise` | include/sub0log/segment.hpp:226-334 | Creating a segment in caller memory zeroes it and writes its header: the state the protocol starts from. |
| `Logging.Logger.ClaimChunk` | include/sub0log/segment.hpp:387-435 | A claim advances the cursor in the segment, grants the next chunk while they last, stamped with this segment's generation, the claiming thread, the time, class and checksum, and leaves an invalid writer afterwards; segment header, earlier stamps and all records stay. |
| `Logging.Logger.Finish` | include/sub0log/detail/emit.hpp:475-537 | Records written into reserved slots append to that chunk in memory, and a cut is counted once. |
| `Emitter.OfferSay` | include/sub0log/detail/emit.hpp:362-537 | A message goes in as its whole chain, or on a fresh chunk as its inline part, exactly as the specification chooses. |
| `Emitter.OfferDefine` | include/sub0log/detail/emit.hpp:89-189 | A definition goes in whole, or shortened on a fresh chunk, exactly as the specification chooses. |
| `Emitter.OfferRelay` | include/sub0log/abi_host.hpp:401-445 | A plugin's payload is cut at what the head word can say, flagged and counted. |
| `Emitter.Deliver` | include/sub0log/instance.hpp:496-512 | Chunk in hand, fresh chunk, counted drop: the group's records are the newest chunk's last and say what was asked for, or no record is added; memory, cursor and counters are the specification's, every chunk claimed on the way carries this thread's stamp, and the bytes open and read back as exactly the records accounted for. |
| `Emitter.EmitRecord` | include/sub0log/detail/emit.hpp:572-616 | Afterwards the records are the old ones, then, exactly if the key did not name this segment, this site's definition, then the message for this site and these arguments as the newest chunk's last; the key names the segment exactly if the definition is out; a failed announcement writes nothing and is the call's one drop; a failed message adds none; and the bytes read back so. |
| `Bridge.LoggerReads` | include/sub0log/reader.hpp:371-574 | Whatever an emitting thread has done so far, its bytes open as its segment and read back as exactly the records it is accounted to have written, each under its chunk's owner. |
| `Bridge.StoredReads` | include/sub0log/reader.hpp:371-574 | A created segment whose stamped chunks hold these records reads back exactly them. |
| `Sequential.DeliverLedger` | include/sub0log/instance.hpp:639-658 | A request ends as one group or one drop and claims at most one chunk, or two when the thread held none. |
| `Sequential.DeliverWrites` | include/sub0log/instance.hpp:496-512 | A request's records are the newest chunk's last and say what was asked for, or nothing is written; a cut is counted once. |
| `Sequential.DeliverFate` | include/sub0log/instance.hpp:496-512 | A chunk in hand that can take a request whole takes it; otherwise exactly one chunk is claimed; it is dropped exactly if no empty chunk can take it even cut or none is left. |
| `Sequential.EmitWrites` | include/sub0log/detail/emit.hpp:585-616 | An emit writes the definition first exactly if its site is not announced, then the message; if the definition is lost nothing more is tried. |
| `Sequential.EmitClaims` | include/sub0log/detail/emit.hpp:100-148 | One emit claims at most 2 chunks when the thread holds one in this segment and at most 3 otherwise, and counts at most one drop. |
| `Sequential.FittingIsDelivered` | include/sub0log/detail/emit.hpp:118-148 | A request an empty chunk can take is lost only to an exhausted segment. |
| `Rotation.Rotator.Session` | examples/13_rotation.cpp:199-208 | Any number of fitting events, rotating on the watermark after each and on pauses, with at least 3 chunks: nothing is dropped; the current segment and every one handed off decode to exactly the events said there, each site, time and arguments in order; together with those evicted they are all of the events. |
| `Rotation.Rotator.RotateIfNearlyFull` | examples/13_rotation.cpp:84-98 | Rotation happens exactly when one chunk or none is left, and loses no counted drop. |
| `Rotation.Rotator.HandOff` | examples/13_rotation.cpp:145-163 | The outbox keeps the newest segments in order and counts each eviction. |
| `Rotation.HeadroomDelivers` | examples/13_rotation.cpp:82-98 | With the watermark's headroom an emit of fitting records writes its definition, if due, and then the message for its site and arguments. |
| `Rotation.Rotator.Emit` | include/sub0log/detail/emit.hpp:585-616 | One log statement: if it is written it is the last the segment decodes to, and nothing else changed there. |
| `Hearing.BehindReads` | include/sub0log/reader.hpp:682-957 | Whatever bytes read as the records one thread wrote decode to exactly the statements it reached, in order. |
| `Damage.VisitDamaged` | include/sub0log/reader.hpp:510-566 | On any reading, body damage leaves every earlier head and every other chunk's records as found. |
| `Confinement.BodyDamageIsLocal` | include/sub0log/reader.hpp:371-574 | On any image, overwriting bytes in one chunk's body loses no record of another chunk and none that ends before them, payloads included. |
| `Confinement.ChunkDamageIsLocal` | include/sub0log/reader.hpp:435-508 | On a producer's segment any bytes of one chunk may be replaced, header included: unless they spell a live header with another stride, every other chunk is visited as before. |
| `Confinement.StrideKeptIff` | include/sub0log/reader.hpp:488-508 | The walk leaves the uniform stride at a chunk exactly when its header is live with another declared size. |
| `Forgery.ForgedHides` | include/sub0log/reader.hpp:449-508 | A header without a checksum in an empty first chunk whose class spans the rest of the segment hides every record behind it. |
| `Forgery.ForgeryEscapes` | include/sub0log/reader.hpp:449-508 | A segment and 32 replaced bytes of one chunk that lose another chunk's record. |
| `Confinement.OneByteIsLocal` | include/sub0log/wire.hpp:389-411 | Any single changed byte of a stamped chunk is confined to that chunk. |
| `Confinement.OneByteKeepsStride` | include/sub0log/wire.hpp:389-411 | No single byte of a stamped header can forge another stride: a changed size class always fails its checksum. |
| `Confinement.OthersKeepPayloads` | include/sub0log/reader.hpp:545-566 | Records of undamaged chunks keep their payloads. |
| `Confinement.VisitParts` | include/sub0log/reader.hpp:488-508 | Where every chunk keeps the stride, the size-class walk is the uniform-stride walk. |
| `Crc.Crc32` | include/sub0log/wire.hpp:338-347 | The nibble-table loop is the bit-by-bit CRC for every input and start value. |
| `Crc.BuildNibbleTable` | include/sub0log/wire.hpp:310-320 | Each entry is its index divided four bits on. |
| `Crc.Chaining` | include/sub0log/wire.hpp:322-347 | Chained calls over a split equal one call over the whole. |
| `Crc.OneByteAlwaysShows` | include/sub0log/wire.hpp:338-347 | Inputs of any length that differ in one byte have different CRCs. |
| `Crc.LastByteIsNoNearMiss` | include/sub0log/wire.hpp:407-411 | Inputs that differ in their last byte never differ by bit 0 alone, so the 0-to-1 remap cannot merge them. |
| `Crc.PolynomialIs` | include/sub0log/wire.hpp:310-320 | The divisor is 0xEDB88320. |
| `Wire.ComputeChunkHeaderChecksum` | include/sub0log/wire.hpp:389-411 | Two chained calls compute the checksum of the 25 covered bytes, never 0. |
| `Wire.OneByteUnseenIff` | include/sub0log/wire.hpp:407-411 | Headers that differ in one covered byte have different raw CRCs and share a checksum exactly when those are 0 and 1. |
| `Wire.ClassAlwaysShows` | include/sub0log/wire.hpp:407-411 | A changed size class always changes the checksum. |
| `Wire.PackRoundTrip` | include/sub0log/wire.hpp:238-261 | Unpacking a packed head gives it back, and it is committed. |
| `Wire.HeadBytesArePack` | include/sub0log/wire.hpp:238-245 | The eight stored bytes are the little-endian packed word, tag in the high half. |
| `Wire.SizeClassForChunkBytes` | include/sub0log/wire.hpp:114-122 | The search finds the class that spells a size, and 0 exactly when there is none. |
| `Wire.FootprintAligned` | include/sub0log/wire.hpp:264-268 | Records stay 8-aligned and fit any aligned space their payload and head fit. |
| `Claims.ProtocolsAgree` | include/sub0log/detail/atomics.hpp:203-242 | After the same number of finished claims, in any interleaving and with any spurious failures, both protocols have granted exactly the indices below min(claims, count), once each, and report the same usage. |
| `Claims.SplitInvariant` | include/sub0log/detail/atomics.hpp:207-218 | The bounded exchange never passes the chunk count, never touches the high half, and nobody gives up while a chunk is left. |
| `Claims.WideUniqueIff` | include/sub0log/detail/atomics.hpp:219-225 | The 64-bit cursor never grants an index twice exactly as long as there were at most 2^64 claims. |
| `Claims.GrantsDisjoint` | include/sub0log/segment.hpp:404-407 | Two granted chunks share no byte. |
| `Announce.TableIsSafe` | include/sub0log/abi_host.hpp:222-268 | In any interleaving a lookup answers 0 or a generation recorded for that id, and never 0 for an id recorded before it began. |
| `Announce.OneSlotEach` | include/sub0log/abi_host.hpp:254-268 | No id occupies two slots. |
| `Announce.OwnersNeverChange` | include/sub0log/abi_host.hpp:254-268 | An occupied slot keeps its owner for the rest of the run. |
| `Announce.SiteAnnounceTable.GenerationFor` | include/sub0log/abi_host.hpp:222-237 | Called alone, the probe loop answers what a plain map would. |
| `Announce.SiteAnnounceTable.Record` | include/sub0log/abi_host.hpp:254-268 | Called alone, it succeeds exactly when one of the id's 32 probes is free or its own, then answers the new generation for that id and the old answer for every other, changing no slot but its own; otherwise it changes nothing and counts the failure. |
| `Announce.StepIsTheMap` | include/sub0log/abi_host.hpp:222-268 | Each atomic step of any thread leaves the table's answers alone or is one update of one id, and an answer it gives is the map's or 0. |
| `Announce.TableIsAMap` | include/sub0log/abi_host.hpp:222-268 | After every step of every interleaving the table answers as the map of finished records does. |
| `Registry.TableServes` | include/sub0log/abi_host.hpp:354-424 | A plugin emit passes the table's answer exactly when it passes the protocol's check. |
| `Registry.LookupIsDecide` | include/sub0log/abi_host.hpp:401-424 | The comparison of an answer with the current generation is the protocol's check, with 0 as a miss. |
| `Registry.RecordIsRemember` | include/sub0log/abi_host.hpp:354-398 | A finished record is the protocol's kept announcement. |
| `Text.ValidUtf8` | include/sub0log/json.hpp:23-57 | Accepts exactly the byte strings of the grammar in section 4 of RFC 3629. |
| `Text.AppendText` | include/sub0log/json.hpp:89-98 | The loops write the export form. |
| `Text.AppendQuoted` | include/sub0log/json.hpp:61-77 | The loop writes the escaped string. |
| `Text.ExportRoundTrip` | include/sub0log/json.hpp:61-98 | Reading an export back by section 7 of RFC 8259, or as hexadecimal, returns the bytes, for every byte string. |
| `Text.ExportForm` | include/sub0log/json.hpp:89-98 | Every valid UTF-8 text is exported as text, with every run of bytes that needs no escape standing in it unchanged; only other bytes are exported in hexadecimal. |
| `Text.ExportIsInjective` | include/sub0log/json.hpp:89-98 | No two byte strings share an export. |
| `Text.ExportIsUtf8` | include/sub0log/json.hpp:89-98 | The export of any byte string is itself valid UTF-8. |
| `Quoting.CommandLineRoundTrip` | include/sub0log/child.hpp:127-175 | Splitting the command line by the CommandLineToArgvW rules gives the argument list back, for every list. |
| `Quoting.QuotedIffNeeded` | include/sub0log/child.hpp:129-131 | An argument is left as it is exactly when it is not empty and holds no space, tab or quote. |
| `Quoting.OneSpaceBetween` | include/sub0log/child.hpp:165-175 | Arguments are set off by one space each. |
| `Quoting.QuoteArgument` | include/sub0log/child.hpp:127-159 | The backslash-counting loop writes the quoted form. |
| `Quoting.BuildCommandLine` | include/sub0log/child.hpp:165-175 | The joining loop writes the command line. |
| `Capture.CaptureAll` | include/sub0log/child.hpp:402-500 | For any partition of the stream into reads the captured lines are those of the stream split at newlines; captured equals suppressed plus unlogged plus written plus dropped, the suppressed are those the filter holds back, an unbound process logs none of the rest, a bound one writes what there is room for. |
| `Capture.LineCapture.ProcessChunk` | include/sub0log/child.hpp:463-500 | Lines, carry and discarding state are a function of the bytes seen so far. |
| `Capture.LineCapture.Finish` | include/sub0log/child.hpp:667-672 | At end of stream the lines are the whole stream split at newlines, the unended rest included. |
| `Capture.LinesAreClosedThenOpen` | include/sub0log/child.hpp:463-500 | Splitting from the front and keeping what each prefix determines give the same lines. |
| `Capture.LineAt` | include/sub0log/child.hpp:463-500 | Each line is the bytes between two newlines: its first 4096, flagged, if it is longer; otherwise all of it but the carriage return of a CRLF pair. |
| `Capture.LineCount` | include/sub0log/child.hpp:463-500 | There is one line for each newline and one for a rest that is not empty. |
| `Children.LineSurvives` | include/sub0log/child.hpp:402-458 | A line handed to a logger ends as one record that reads back as that line, its child, time and stream, or as one drop, for want of a chunk or of room. |
| `Capture.CrlfAtTheCap` | include/sub0log/child.hpp:481-498 | A 4096-byte line that ends in CRLF is over the cap, because its carriage return counts. |

## Left out

- Weak memory: every atomic access is one sequentially consistent step, in program order; relaxed, acquire and release orders are not distinguished.
- Operating-system plumbing: file mapping, processes, pipes, signals, environment, clocks. Clock readings, process and thread ids, generations and correlation ids are inputs.
- Emission from a signal handler on the same thread, rebinding or moving a live Logger, forked children: caller obligations in the code.
- The clash of two random generations, or of two 32-bit announce keys of different shared objects: a segment's index stands for its key, and generations of a run differ.
- Thresholds, severities, subsystem filters and correlation scopes: single branches around the modelled calls.
- `merge.hpp`: a scan may list messages in any order here, so the sort and its anchor arithmetic do not matter.
- `Decoder::format`, JSON numbers and object fields around exported text, floating-point conversion: floating-point arguments stay bit patterns.
- Compile-time type mapping: an argument is its type code and value; at most 255 arguments, the count the wire can say.
- Site strings and argument lengths of 4 GiB and more, whose 32-bit sums would wrap, and images of 2^63 bytes and more.
- The two passes of `decodeAll` over memory that changes between them: decoding is stated over one frozen image, as the header documents; the single visit underneath is stated live.
- Tailing.FollowIsExact: each image of a scan is one segment's bytes at one instant; a file read that straddles stores is not modelled.
- Follow.Run: the `--wait-ms` early stop and the per-file byte budget, which end a scan before its loop, are left out.
- Producer.Step: the truncation counter is not part of the step machine; `Emitter.Deliver` has it.
- Claims.WideUniqueIff: the step machine's claim step is guarded below 2^64 claims, where this lemma shows uniqueness holds; `Logging.Logger.ClaimChunk` grants by an unbounded count, and only its cursor bytes wrap.
- Rotation.Rotator.Session: segment creation and hand-off always succeed; a failed create or rename is I/O. Its segments are the emit path's specification, `Sequential.Shelf`; the bytes behind one are `Emitter`'s.
- Announce.TableIsSafe: the hash that picks the first probe is arbitrary; that it spreads nearby addresses is not stated.
