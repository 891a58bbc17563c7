# readcon-db: a verified model

readcon-db keeps molecular trajectory frames (CON text) in LMDB tables, indexes them, and ingests them serially, on
threads, over shards, or in parallel over MPI. This project models that logic in Dafny and proves what the code and its
documentation promise about it.

Reading order:

- `Prelude`, `Utf8`, `Keys`, `KeyOrder`, `F64Order`: machine integers, bytes, RFC 3629 text, key layouts, and the orders
  the tables are sorted in.
- `FrameCodec`: the stored form of a frame: raw text, one zstd frame, a zstd group of an aligned run of 64, a redirect.
  `CodecSizes` says which form is stored when.
- `Store`, `Ingest`, `Corpus`: the tables of one environment, one serial ingest, and the invariant `Corpus.Coherent` that
  ties every table to the texts the primary table reads back as. `CorpusGrow`, `CorpusRewrite`, `CorpusRebuild` show what
  append, extend, set-units, reindex and migrate do to it, `InMemory` which frames an in-memory ingest indexes as their
  stored text says; `Environment.Txn` and `Mutators.ConCorpus` are the same operations as they change fields in place,
  each in a transaction that is installed whole or dropped.
- `Mpi*`: the parallel ingest. `MpiWire`, `MpiPlan`, `MpiExchange`, `MpiDecode`, `MpiRegroup`, `KeyWire` model the pieces;
  `MpiStream`, `MpiSerial`, `MpiArrive` relate them to serial ingest; `MpiEngine.Engine` is the whole collective, with
  ranks as a sequence of states and each collective as one synchronous step; `MpiLockstep` has each rank decide by itself
  what to do after every collective; `MpiCoherent` carries the invariant over, and `MpiSharded.IngestSharded` puts the engine
  behind the shard routing of `Routing`, which its readers use as well.
- `Scan`, `Query`, `Selection`: the query engine against a plain filter.
- `TxnGate`, `ExtendRace`, `DirectoryIngest`, `Archive`: the concurrent parts, as state machines over all schedules.
- `Shard`, `CookedSoa`, `Units`: fan-out and join/split, the packed numeric cache, and unit conversion over the reals;
  `ExportMeans` says what the exported numbers are, and `StoredUnits` puts units and cache on the store.

What is taken as given, always as a hypothesis on a parameter: zstd is a deterministic function with `D(Z(x)) = x` and an
output of at least 4 bytes (the magic number of section 3.1.1 of RFC 8878); the content hash tells apart the texts in
play where a theorem says so (`MpiPlan.CollisionFree`, `Selection.Injective`); the CON parser and its projection are
functions of the text; where frames come from memory, writing and parsing keeps the projection (`CorpusGrow.Faithful`);
the parser cuts the concatenation of a trajectory's stored texts back into them (`Shard.SplitsBack`); an LMDB cursor visits
a table in byte order (`Query.Cursor`); unit sizes are positive and convert by their ratio (`Units.Lawful`);
the cook and the parser read the same numbers and a converted frame is read back as it was written
(`StoredUnits.ReadsBits`, `StoredUnits.WritesBack`). The field accessors that `reindex` uses are taken to
agree with the projection that ingest uses, since both are library functions.

Four points where the code does something narrower than one might expect, and what is proved about it:

- A range bound that is not finite is replaced by 0 or `u64::MAX` whatever its sign. `F64Order.BoundsExact` gives the
  exact bounds for which a scan keeps what the order says.
- `drain_ready` computes the end of an aligned run in 32 bits. `MpiRegroup.DrainReady` gives the exact streams whose
  buffer empties, and `MpiEngine.Engine` that a trajectory of more than 0xFFFFFFC0 frames is never ingested.
- The index keys of an in-memory frame come from the frame, not from its stored text. `InMemory.InMemoryIndexed`
  gives the exact fields in which the frame and its text must agree, `InMemory.RoundingDiffers` a family where they do not.
- A group writes every text length as a `u32`, even where grouping would not pay. `FrameCodec.PackSucceeds` gives the
  exact frame lists that cannot be packed, and append, extend, set-units, migrate, join and split each name them as
  the one failure of their compression.

## Model

| member | source | states |
|---|---|---|
| MpiEngine.Engine | src/mpi_ingest.rs:583-750 | for every rank count, batch size, route and set of files: success means every environment equals compressed serial ingest of the same files in order; a failure before the commit round changes nothing; in the commit round each environment is whole or untouched; it never commits input that `CanIngest` refuses, and with no local failure it succeeds exactly on input that `CanIngest` admits |
| MpiEngine.Stage | src/mpi_ingest.rs:595-742 | everything up to the commit round: on success every environment's session holds its serial result and the input was ingestible; without local failures ingestible input succeeds |
| MpiEngine.FlushReady | src/mpi_ingest.rs:323-341 | after a flush an environment buffers fewer than 64 frames or starts with one whose group end wraps; once its stream has ended the buffer is empty exactly when there is no such frame; the session holds the puts of exactly the drained prefix |
| MpiEngine.BatchRank | src/mpi_ingest.rs:704-715 | one batch on one rank: decoded rows are appended to their environments' buffers in global order and drained |
| MpiEngine.CommitRank | src/mpi_ingest.rs:743-749 | each environment of a rank is either as before or as its session left it |
| MpiEngine.ShortEnv | src/mpi_ingest.rs:717-727 | a trajectory of more than 0xFFFFFFC0 frames puts a frame of the wrapping group into its environment's stream, where it is never drained |
| MpiEngine.AllNarrow | src/mpi_ingest.rs:463-478 | an ingest that exchanged every batch had no record wider than one collective, duplicates included |
| MpiSharded.IngestSharded | src/mpi_ingest.rs:785-817 | a parallel ingest into n shards leaves, whatever it returns, every shard consistent and holding only frames that route to it; on success every frame of every file is found, with its text, in the shard readers look in, and each shard holds exactly what it held and the files that route to it |
| Routing.ShardNext | src/shard.rs:114-117 | consecutive trajectory ids go to consecutive shards, from the last back to the first |
| Routing.ShardRepeats | src/shard.rs:114-117 | ids that are the shard count apart share a shard |
| Routing.ShardOnce | src/shard.rs:114-117 | of any n consecutive ids exactly one goes to each of n shards |
| MpiCoherent.SerialCoherent | src/corpus.rs:1083-1122 | serial ingest, and so a successful parallel one, keeps every environment consistent and adds exactly the texts of its files |
| MpiCoherent.WithFilesHas | src/corpus.rs:1083-1122 | each frame of each file is among the texts of the environment its trajectory routes to |
| MpiLockstep.StepLockstep | src/mpi_ingest.rs:440-524 | one collective leaves every rank in the same place with the same history, whatever each found locally |
| MpiLockstep.ResumeShrinks | src/mpi_ingest.rs:451-524 | every collective brings the run nearer its end, the batch-splitting loop included |
| MpiLockstep.AllReturnAlike | src/mpi_ingest.rs:583-750 | under any stream of local results all ranks return, after the same collectives, with the same outcome, and a rank that reports success has committed |
| MpiLockstep.FailureEndsAll | src/mpi_ingest.rs:107-119 | a local failure on any rank ends the ingest with an error on every rank and commits nothing |
| MpiLockstep.WroteStays | src/mpi_ingest.rs:728-749 | sessions are committed only on the way into the last agreement, after a unanimous vote |
| MpiLockstep.HealthySucceeds | src/mpi_ingest.rs:583-750 | with no local failure every rank succeeds |
| MpiSerial.SerialInClosedForm | src/corpus.rs:1083-1122 | serial ingest of many files is, per environment, one run of puts in file order plus the metadata |
| MpiSerial.StreamMatchesSerial | src/mpi_ingest.rs:292-321 | regrouping the whole frame stream of an environment gives the puts of serial ingest |
| MpiStream.FileMatchesSerial | src/mpi_ingest.rs:277-290 | packing the held rows of one file and decoding their keys gives the prepared puts of serial ingest |
| MpiStream.PackHeldSplits | src/frame_codec.rs:70-106 | packing held rows splits at an aligned cut |
| MpiRegroup.DrainReady | src/mpi_ingest.rs:292-321 | streaming regrouping equals whole-stream packing: what is drained plus the packing of the rest is the packing of everything; neither alignment error can occur; the buffer stays below 64 frames unless its first group end wraps, and of a stream that arrived as a whole it is empty exactly when no frame index reaches 0xFFFFFFC0 |
| MpiRegroup.GroupShape | src/mpi_ingest.rs:292-321 | a group at a boundary is one trajectory's consecutive frames of one aligned run |
| MpiRegroup.WrappedNeedIs | src/mpi_ingest.rs:292-321 | the 32-bit group end is right exactly for starts below 0xFFFFFFC0, the fact behind the exact condition of `DrainReady` |
| MpiExchange.ExchangeBatch | src/mpi_ingest.rs:440-524 | every owner receives the records of its frames of a non-empty batch in ascending global order; failure only when one frame exceeds the i32 limit or the total exceeds u64 |
| MpiExchange.ReceivedInOrder | src/mpi_ingest.rs:504-522 | concatenating the senders' messages by rank gives one message in global order |
| MpiExchange.PlannedEqualsBuilt | src/mpi_ingest.rs:479-485 | planned lengths equal built lengths |
| MpiExchange.PayloadSent | src/mpi_ingest.rs:407-438 | a frame's stored bytes travel with it except when an earlier frame of the same batch brings them |
| MpiExchange.Layout | src/mpi_ingest.rs:486-507 | counts and displacements exist exactly when the total fits an i32 |
| MpiExchange.OneFrameTooWide | src/mpi_ingest.rs:463-478 | a width failure means a single record exceeds the limit |
| MpiExchange.PlanTooWide | src/mpi_ingest.rs:390-413 | a plan overflows only when the input exceeds u64 bytes |
| MpiExchange.SmallBatchFits | src/mpi_ingest.rs:461-478 | a batch whose total fits an i32 is never split |
| MpiExchange.GatherHashes | src/mpi_ingest.rs:348-388 | the chunked gathers give every rank the hashes of all frames in order |
| MpiDecode.DecodeBatch | src/mpi_ingest.rs:526-581 | decoding a delivered buffer yields exactly the owner's frames of the batch, each with its own stored bytes and key, and never fails, so a missing duplicate payload is unreachable |
| MpiDecode.DecodeStep | src/mpi_ingest.rs:544-580 | one record: an omitted payload is the one kept from the same batch |
| MpiArrive.BatchArrives | src/mpi_ingest.rs:705-709 | the rows of consecutive batches make up an environment's frame stream |
| MpiPlan.FirstOf | src/mpi_ingest.rs:671-683 | each frame's winner is the lowest global index with the same hash in the same environment |
| MpiPlan.WinnerBytes | src/mpi_ingest.rs:671-683 | a winner is its own winner, stores the same bytes and has keys of the same length |
| MpiPlan.BlocksTile | src/mpi_ingest.rs:58-63 | the ranks' blocks tile the frames in order |
| MpiPlan.BlocksBalanced | src/mpi_ingest.rs:58-63 | block sizes differ by at most one, and do not grow with the rank |
| MpiPlan.OwnersSpread | src/mpi_ingest.rs:804-809 | a single writer is rank 0; of any P consecutive shards each of P ranks owns exactly one |
| MpiPlan.FileOfFinds | src/mpi_ingest.rs:205-207 | the file that `file_of` names holds the global frame index, at the offset it computes |
| MpiPlan.Bisect | src/mpi_ingest.rs:205-207 | the binary search finds that file |
| MpiWire.PrefixI32 | src/mpi_wire.rs:19-33 | displacements are the prefix sums, and exist exactly when all counts are non-negative and the total fits an i32 |
| MpiWire.FitsI32 | src/mpi_wire.rs:35-47 | true exactly when the counts and their total fit an i32 |
| MpiWire.FitsEach | src/mpi_wire.rs:13-47 | then every count and every displacement is a non-negative i32 |
| MpiWire.BatchAdvances | src/mpi_wire.rs:64-75 | a batch holds the asked number of frames, at least one and at most what is left, for every batch value including `usize::MAX` |
| MpiWire.ShrinkStops | src/mpi_wire.rs:77-90 | a split at least halves the batch and stops exactly at one frame |
| MpiWire.WrappedEndIsEmpty | src/mpi_wire.rs:57-75 | the wrapping addition that the saturating one replaces would end before it starts |
| MpiWire.RecordReads | src/mpi_wire.rs:106-133 | a record reads back, whatever follows it |
| MpiWire.RecordLength | src/mpi_wire.rs:92-112 | the planned size of a record is its built size, payload sent or not |
| KeyWire.KeysRoundTrip | src/corpus.rs:974-1015 | the keys of a frame survive the wire encoding that `put_encoded` decodes |
| KeyWire.BuiltIsShaped | src/corpus.rs:2744-2802 | every key list a frame derives has the widths the decoder demands |
| KeyWire.SameTextWidth | src/corpus.rs:974-1015 | frames with the same text encode their keys in the same number of bytes, or both fail |
| FrameCodec.PackDecodes | src/frame_codec.rs:70-150 | every packed value decodes to its own frame's text, following redirects inside the same packed result once at most |
| FrameCodec.PackSucceeds | src/frame_codec.rs:70-177 | packing fails exactly when a text longer than u32 shares its aligned run with another frame |
| FrameCodec.PackSplits | src/frame_codec.rs:70-106 | packing a concatenation is packing the parts when the cut is aligned |
| FrameCodec.PackNeverLonger | src/frame_codec.rs:82-104 | packing never costs bytes against storing each frame alone |
| CodecSizes.StoredSize | src/frame_codec.rs:49-62 | a compressed single value takes the smaller of the text and its tagged compression, and is tagged exactly when that is strictly smaller |
| CodecSizes.PackedRun | src/frame_codec.rs:82-104 | a packed run of several frames takes the smaller of its single values and one group with 10 bytes for each other frame; its head is a group exactly when that is strictly smaller, else every value is the smallest single |
| CodecSizes.PackedSizes | src/frame_codec.rs:70-106 | so every maximal aligned run of a packed frame list, however long the list is |
| FrameCodec.StoreNeverLonger | src/frame_codec.rs:49-62 | a single value is the text or strictly shorter |
| FrameCodec.StoreLoads | src/frame_codec.rs:49-127 | a stored single loads as its text and carries no group or redirect tag |
| FrameCodec.TextIsUntagged | src/frame_codec.rs:36-47 | UTF-8 text is never mistaken for a tagged value |
| FrameCodec.GroupDecodes | src/frame_codec.rs:160-229 | a group decodes to its texts |
| FrameCodec.RedirectParses | src/frame_codec.rs:179-197 | a redirect parses to its head and slot |
| FrameCodec.PackAlignedLoop | src/frame_codec.rs:70-106 | the two-cursor loop packs each maximal aligned run by itself, in order |
| FrameCodec.EncodeGroupLoop | src/frame_codec.rs:160-177 | the payload loop builds the group value, and fails exactly on a text longer than u32 |
| FrameCodec.DecodeGroupLoop | src/frame_codec.rs:199-229 | the cursor loop parses exactly the length-prefixed texts that fill the payload |
| Utf8.NoHighBytes | src/frame_codec.rs:15-22 | RFC 3629 text contains neither 0xFD nor 0xFF |
| Keys.FrameKeyRoundTrip | src/keys.rs:40-60 | a primary key reads back |
| Keys.NamesOne | src/keys.rs:64-178 | an index key names one frame |
| Keys.MaskBits | src/keys.rs:252-262 | bit 0 of the boundary byte is x, bit 1 is y, bit 2 is z, and there is no other |
| KeyOrder.FrameKeyOrder | src/keys.rs:33-46 | the byte order of primary keys is by trajectory, then frame |
| KeyOrder.BigEndianOrder | src/keys.rs:64-110 | big-endian numbers of one width sort as numbers |
| KeyOrder.Listing | src/corpus.rs:617-628 | the keys of a table in cursor order, each once |
| F64Order.OrderedBitsSort | src/keys.rs:85-96 | the stored integers sort in the totalOrder of IEEE 754-2019 section 5.10 |
| F64Order.TotalIsNumeric | src/keys.rs:85-96 | on finite values that is numeric order with -0 below +0 |
| F64Order.BoundsExact | src/corpus.rs:2190-2216 | a scan keeps exactly the values between its bounds iff the lower one is finite or negative and the upper one finite or positive |
| Corpus.EmptyIsCoherent | src/corpus.rs:408-570 | a new environment is consistent |
| Corpus.PutAllSound | src/corpus.rs:727-766 | puts of new frames keep hashes, postings and index rows in step with the texts |
| Store.PutAllPosts | src/corpus.rs:727-766 | a digest keeps the frame it is posted to, and a new digest is posted to the first frame put with it |
| Corpus.SpanReadable | src/corpus.rs:1083-1122 | new frames leave every stored frame readable with its text |
| Corpus.ReadKept | src/corpus.rs:1760-1785 | a readable frame keeps its text when other trajectories change |
| CorpusGrow.AppendCoherent | src/corpus.rs:1201-1213 | append keeps the invariant and adds exactly its spans, only to a new trajectory |
| CorpusGrow.AppendSucceeds | src/corpus.rs:1201-1213 | append succeeds exactly for a new trajectory whose texts parse and, compressing, group |
| CorpusGrow.CommitCoherent | src/corpus.rs:1083-1122 | a commit is refused exactly when the trajectory exists, and otherwise adds its texts |
| CorpusGrow.ExtendCoherent | src/corpus.rs:1265-1319 | an extend succeeds exactly when the live count is the one it read, and then adds its block behind it and counts it, under the source the trajectory had or, when it is new, the hint |
| CorpusGrow.GroupedCarries | src/corpus.rs:1066-1080 | grouping changes the stored form and nothing else |
| InMemory.ScreenDecides | src/corpus.rs:652-725 | two projections give the same index rows exactly when they agree in atom count, element counts, formula, capabilities, boundary mask and every finite scalar |
| InMemory.InMemoryIndexed | src/corpus.rs:926-949 | in-memory ingest indexes what its text implies exactly when the text parses and both projections agree in those fields |
| InMemory.RoundingDiffers | src/corpus.rs:926-949 | a writer that rounds the energy, largest force, mass or volume to another finite number leaves the frame under the old one |
| CorpusRewrite.DeleteRows | src/corpus.rs:773-818 | deleting a frame's rows takes no other frame's |
| CorpusRewrite.DeleteSound | src/corpus.rs:773-818 | after a deletion only the reported digest may be posted to a frame that is gone |
| CorpusRewrite.RepointAllSound | src/corpus.rs:823-869 | repointing the stale digests makes every posting name a live frame with that digest again |
| CorpusRewrite.RewriteCoherent | src/corpus.rs:1152-1193 | delete, repoint and re-put leave exactly the new texts, for shared digests too, with no stale index row or cooked array |
| CorpusRebuild.ReindexRestores | src/corpus.rs:1373-1495 | reindex restores every secondary table from a merely readable environment, succeeds exactly when every text parses, and posts each digest to its first frame |
| CorpusRebuild.RepackReads | src/corpus.rs:1944-1980 | repacking a trajectory stored in any mix of codecs keeps every text and leaves no dangling redirect |
| CorpusRebuild.TrajPacks | src/corpus.rs:1944-1980 | a trajectory can be repacked exactly when each text fits a u32 length or is alone in its aligned run |
| CorpusRebuild.RepackTwice | src/corpus.rs:1926-1980 | a second repack writes nothing |
| Environment.Txn.PutIndexPuts | src/corpus.rs:727-766 | the puts of one frame in every table, an existing posting kept |
| Environment.Txn.DeleteIndexPuts | src/corpus.rs:773-818 | every row of one frame goes, its posting stays and is reported |
| Environment.Txn.RepointFrameByHash | src/corpus.rs:823-869 | each stale digest moves to its first surviving frame or goes |
| Environment.Txn.IndexFrame | src/corpus.rs:1418-1486 | the rows reindex derives field by field are the rows ingest derives |
| Mutators.ConCorpus.constructor | src/corpus.rs:264-300 | a new corpus satisfies the invariant |
| Mutators.ConCorpus.AppendStr | src/corpus.rs:1201-1213 | the in-place append equals the serial append or changes nothing |
| Mutators.ConCorpus.ExtendFrames | src/corpus.rs:1265-1319 | new frames occupy the indices behind the live count and the trajectory keeps its source; it fails exactly when, compressing, a frame does not fit its group, and then changes nothing |
| Mutators.ConCorpus.SetTrajectoryUnits | src/corpus.rs:1152-1193 | every frame of the trajectory is replaced by its conversion and the invariant holds, or nothing changes; it succeeds exactly when there are frames, each converts and, compressing, fits its group |
| Mutators.ConCorpus.Reindex | src/corpus.rs:1373-1495 | clears and rebuilds all secondary tables, or changes nothing |
| Mutators.ConCorpus.RepackTraj | src/corpus.rs:1944-1980 | rewrites one trajectory, disturbs no other, counts the values it rewrites and writes nothing where it is settled; it succeeds exactly when every frame of the trajectory fits its group, and then every maximal aligned run is stored in its smallest form |
| Mutators.ConCorpus.MigrateFrames | src/corpus.rs:1932-1942 | succeeds exactly when every frame fits its group, keeps every text and all other tables even when it stops half-way, and counts the values it rewrites; after a success every maximal aligned run of every trajectory is stored in its smallest form; on a settled store it returns zero and writes nothing |
| Mutators.SettledCompact | src/corpus.rs:1932-1980 | a trajectory that a repack would leave alone stores every maximal aligned run in its smallest form |
| Mutators.ConCorpus.CookFrame | src/corpus.rs:1905-1914 | stores the arrays of the text that is stored now |
| Mutators.ConCorpus.DeleteCooked | src/corpus.rs:1995-2002 | drops one cooked entry and nothing else |
| Scan.ScanRange | src/corpus.rs:2190-2216 | leaving the ordered table at the first number above the range loses no frame |
| Scan.NumbersAscend | src/corpus.rs:2080-2104 | byte order is number order on the leading field |
| Scan.PrefixMatchesOnlyEqual | src/keys.rs:71-84 | the 0xff separator makes a prefix match only the same string |
| Scan.ScanPrefix | src/corpus.rs:2106-2122 | a prefix scan finds exactly the frames its rows name |
| Scan.ScanMeta | src/corpus.rs:2302-2329 | the channel scan passes over values above the range without leaving it |
| Query.NatomsHits | src/corpus.rs:2080-2104 | the atom-count scan finds exactly the matching live frames |
| Query.BandHits | src/corpus.rs:2190-2282 | the energy, fmax, mass and volume scans find exactly the matching live frames |
| Query.SymbolHits | src/corpus.rs:2106-2122 | the symbol scan finds exactly the frames that contain the symbol |
| Query.FormulaHits | src/corpus.rs:2124-2140 | the formula scan finds exactly the frames of that non-empty formula |
| Query.CountHits | src/corpus.rs:2162-2188 | the element-count scans find exactly the frames with such a count |
| Query.MetaHits | src/corpus.rs:2302-2367 | the metadata scans find exactly the matching live frames |
| Query.PbcHits | src/corpus.rs:2284-2300 | the boundary scan finds exactly the frames whose boundary conditions have that byte |
| Query.FlagHits | src/corpus.rs:2369-2394 | the capability scans find exactly the frames with the capability |
| Selection.SmallestFirst | src/corpus.rs:2413-2425 | smallest-first intersection with its early stop is the plain intersection |
| Selection.SelectKeys | src/corpus.rs:2064-2433 | the result is the sorted, limit-truncated list of the frames that pass every filter |
| Selection.QueryMeans | src/corpus.rs:2064-2433 | the filters are the query as its fields read: boundary conditions direction by direction, ranges in totalOrder, a largest force from zero when only its upper end is given, a digest filter keeping the posted frame only |
| Selection.UniqueFrameKeys | src/corpus.rs:2657-2667 | the results are in table order, each once, and no two share a text; a text is represented exactly when its posted frame is selected, always so without trajectory and limit filters |
| Selection.AllRepresented | src/corpus.rs:2657-2667 | filters look at the text and a digest filter keeps the posted frame, so the posted frame passes when any frame with its text does |
| TxnGate.GrowDoubles | src/corpus.rs:314-327 | each growth at least doubles the map until it saturates |
| TxnGate.StepKeeps | src/corpus.rs:292-398 | every step of every thread keeps the gate exclusive and each thread's view of the store and map |
| TxnGate.GateOpens | src/corpus.rs:292-306 | a thread is let in exactly when no other holds the gate, or for a reader when only readers do |
| TxnGate.NeverStuck | src/corpus.rs:292-398 | a thread behind the gate always has a next step |
| TxnGate.ResizeAlone | src/corpus.rs:332-398 | when the map is resized no transaction of the process is open, before or after |
| TxnGate.WriteIsAtomic | src/corpus.rs:332-383 | in every schedule `with_write` applies its body once to the store it found, or leaves it |
| TxnGate.WriteSucceeds | src/corpus.rs:348-383 | a write whose transaction opens, whose body succeeds and whose commit succeeds returns success with its work installed |
| TxnGate.CommitReports | src/corpus.rs:357-383 | success is reported exactly when the commit succeeded; a full map leads to another try, anything else to a failure, with nothing installed |
| TxnGate.WriteEnds | src/corpus.rs:332-383 | a write behind the gate ends after a bounded number of its own steps, however often the map is full |
| TxnGate.ResizeReports | src/corpus.rs:312-398 | an accepted growth leaves room for what was asked, a refused one ends the call in failure, and a write that fits starts without one |
| TxnGate.SizesSuffice | src/corpus.rs:312-398 | a write grows the map beforehand exactly when twice its payload does not fit, and every size asked for is enough |
| TxnGate.ReadIsStable | src/corpus.rs:300-306 | a read transaction sees one store from start to end |
| ExtendRace.StepGrows | src/corpus.rs:1265-1319 | a commit succeeds exactly when the live count is the one read, or for an append the trajectory is new; it adds its own block on unused indices at the live count, and a losing racer changes nothing |
| ExtendRace.StepStarts | src/corpus.rs:1271-1286 | a call holds the preparation of its own frames at the live count it read, exactly when they parse and, compressing, fit their groups |
| ExtendRace.NeverStuck | src/corpus.rs:1265-1319 | a prepared block can always be committed and an idle thread can always start |
| ExtendRace.RunKeeps | src/corpus.rs:1095-1121 | in every interleaving of extends and appends the environment stays consistent |
| ExtendRace.RunTiles | src/corpus.rs:1265-1319 | blocks of one trajectory follow each other without overlap |
| ExtendRace.BlockStays | src/corpus.rs:1265-1319 | what one commit stored is still there at the end |
| DirectoryIngest.ChunkBounds | src/corpus.rs:209-223 | the chunks tile the file list, all of one size but the last |
| DirectoryIngest.EvenOnce | src/corpus.rs:209-223 | there is one such tiling, so the chunks depend on the number of files only |
| DirectoryIngest.StepKeeps | src/corpus.rs:2524-2543 | every step of every worker keeps each slot filled at most once, with its own file |
| DirectoryIngest.EveryFileOnce | src/corpus.rs:2517-2546 | under every schedule and worker count each file is prepared exactly once into its own slot |
| DirectoryIngest.StepShrinks | src/corpus.rs:2524-2543 | every step brings the end nearer |
| DirectoryIngest.CommitSlots | src/corpus.rs:2547-2556 | the commits, the result, the first error and the prefix it leaves are those of appending the files one by one |
| DirectoryIngest.LeadingCommitted | src/corpus.rs:2547-2556 | exactly the files in front of the first one that cannot be appended are committed, and stay when that one ends the ingest; it succeeds exactly when there is none |
| DirectoryIngest.EachReported | src/corpus.rs:2547-2556 | a successful ingest reports every file with its trajectory id, frame count and source |
| Archive.StepKeeps | src/archive.rs:70-152 | every step keeps counters, order and flush positions |
| Archive.CountersBalance | src/archive.rs:123-168 | appended plus in-flight rows equal committed plus dropped plus held plus queued, at any moment, across restarts |
| Archive.CommittedAre | src/archive.rs:83-109 | the corpus holds the surviving rows in the order they were sent |
| Archive.CommittedExactly | src/archive.rs:83-109 | the corpus holds what it held when opened and then exactly the rows whose commit succeeded, in the order they were sent; every other answered row, and no more, is counted dropped |
| Archive.SentAre | src/archive.rs:123-141 | the rows sent are those the callers appended since the archive was opened, in that order |
| Archive.FlushCovers | src/archive.rs:143-151 | a flush, once acknowledged, has waited for every row sent before it was called, whatever else happens meanwhile |
| Archive.FlushStores | src/archive.rs:143-168 | when no commit failed and a flush is acknowledged nothing is dropped and every row sent before it is in the corpus, behind the rows it was opened with |
| Archive.WorkerEnds | src/archive.rs:83-109 | the worker has a next step as long as there is work, and each of its steps leaves less, however commits end |
| Archive.NoneWaits | src/archive.rs:98-151 | every flush returns: once the worker has caught up nobody waits for one |
| Archive.RowsStay | src/archive.rs:83-109 | a committed row keeps its place and content in every run |
| Archive.FlushSettles | src/archive.rs:143-151 | when a flush is acknowledged every row sent before it is settled |
| Archive.NextIsFree | src/archive.rs:70-94 | the trajectory id the worker uses is the next free one, after restarts too |
| Archive.Scatter | src/archive.rs:203-213 | each stored row goes to the place its atom id names; errors exactly on wrong counts or ids out of range |
| Archive.Fetch | src/archive.rs:183-220 | a frame stored in any atom order comes back in the caller's order |
| Shard.TopOfTops | src/shard.rs:233-249 | merging per-shard cut-off answers and cutting again gives the cut-off answer of the whole |
| Shard.FanOut | src/shard.rs:233-249 | sharded select returns what one environment with all the frames would |
| Shard.JoinShards | src/shard.rs:578-606 | succeeds exactly when no trajectory has frames on two shards and, compressing, every frame fits its group; the joined environment is consistent, holds exactly the union, counts every copied trajectory and splits back |
| Shard.SplitSingle | src/shard.rs:645-681 | succeeds exactly when there is a shard and, compressing, every frame fits its group; every shard is consistent and holds exactly the frames that route to it |
| Shard.SplitRestores | src/shard.rs:573-645 | splitting the joined texts over the same shard count gives every shard its own back |
| Shard.JoinThenSplit | src/shard.rs:573-681 | joining shards and splitting the result over the same count restores every shard: keys, texts, hashes, index rows, posted digests and counts; it fails only for a frame that does not fit its group |
| Shard.TextsDecide | src/shard.rs:573-681 | equal texts mean equal hashes, equal index rows and equal reads |
| CookedSoa.EncodeLoop | src/cooked_soa.rs:51-99 | the pushing loops build the encoding |
| CookedSoa.DecodeLoop | src/cooked_soa.rs:101-169 | the offset walk decodes what the encoding says, and refuses the rest |
| CookedSoa.DecodeEncode | src/cooked_soa.rs:51-169 | decoding gives exactly the arrays of the parsed text |
| CookedSoa.CookedIs | src/corpus.rs:1840-1862 | in a consistent environment what was cooked is found, and is the arrays of the stored text |
| CookedSoa.CacheAgrees | src/corpus.rs:1854-1903 | in every consistent environment a read through the cache equals a read of the text |
| CookedSoa.EncodeBatchLoop | src/cooked_soa.rs:182-198 | the batch is built blob by blob and refused exactly when a length does not fit |
| CookedSoa.DecodeBatchLoop | src/cooked_soa.rs:200-229 | the cursor loop reads the promised number of blobs or refuses |
| CookedSoa.BatchRoundTrip | src/cooked_soa.rs:182-229 | a batch gives back its blobs in order |
| Units.FactorChain | src/units_canon.rs:132-165 | converting a number and its label leaves what it measures, defaults and merged labels included |
| Units.ClockChain | src/export_h5md.rs:95-135 | the same for the clock unit, blank labels and the exporter's own nanoseconds included |
| Units.ConvertMeans | src/units_canon.rs:151-328 | after a conversion the requested dimensions have the requested labels and the others their old label or default, and every number of the header and the atoms times the size of its label is as before |
| Units.ConvertSucceeds | src/units_canon.rs:132-208 | a conversion succeeds exactly when the time unit is known where it must be and each label changes within its dimension |
| Units.BoxScales | src/export_h5md.rs:179-194 | scaling the box lengths scales the cell, whatever its angles |
| Units.ShowUnchanged | src/units_canon.rs:210-328 | a unit change leaves a frame's exported positions, cell, velocities, forces and time as they were, under both velocity rules |
| Units.ExportUnchanged | src/export_h5md.rs:231-397 | and so a whole trajectory's |
| Units.OverrideExact | src/export_h5md.rs:196-217 | with a velocity unit given by the caller the export of a converted frame differs in its velocities only, and is the same exactly when the conversion left the velocity time unit alone or nothing moves |
| Units.ConFrame.Rescale | src/units_canon.rs:210-328 | the in-place loop converts every number and the labels together, into the requested units, or changes nothing |
| Units.Collect | src/export_h5md.rs:231-397 | the buffers are filled from one shown frame after the other, for a fixed composition and boundary; refused exactly when a frame cannot be shown or they differ |
| Units.CollectedAt | src/export_h5md.rs:231-397 | atom `i` of frame `t` is row `t * n + i` of positions, forces and velocities, zeros where a frame lacks a vector, and the cell is block `t` of the edges |
| ExportMeans.TimeMeans | src/export_h5md.rs:88-135 | an exported time is the frame's time, or its index times a positive timestep, in picoseconds by the declared unit; without a clock it is the index |
| ExportMeans.ClockRefused | src/export_h5md.rs:88-135 | a clock whose unit is neither declared nor given is refused |
| ExportMeans.LatticeMeans | src/export_h5md.rs:137-177 | a lattice of three rows is the exported cell, row by row |
| ExportMeans.SquareMeans | src/export_h5md.rs:179-194 | a right-angled box has its lengths along the axes |
| ExportMeans.TiltedMeans | src/export_h5md.rs:179-194 | any other cell has edges of the stored lengths that enclose the stored angles |
| ExportMeans.LengthsMean | src/export_h5md.rs:231-397 | exported positions and cells, in angstrom, are the stored ones in the frame's length unit |
| ExportMeans.ForcesMean | src/export_h5md.rs:231-397 | exported forces, in kJ/mol per angstrom, are the stored ones in the frame's own energy and length units, zeros where an atom has none |
| ExportMeans.VelocitiesMean | src/export_h5md.rs:196-217 | exported velocities, in angstrom per picosecond, are the stored ones in the frame's length unit and the time unit of the rule: the caller's, else the natural one before v3.1, else the declared one |
| StoredUnits.CachedShow | src/export_h5md.rs:231-346 | in a consistent environment an export through the cooked arrays shows what the text alone would show |
| StoredUnits.SetUnits | src/corpus.rs:1152-1193 | set-units on the store with the conversion of `Units`: succeeds exactly when it can, leaves every stored frame reading back in the requested units with every number measuring what it did, and the whole trajectory's export, cooked arrays or not, as it was |

## Left out

- LMDB and heed internals, file metadata, fsync: tables are maps, a transaction is a copy that is installed or dropped, map-full is a free outcome.
- zstd, xxHash3 and the CON parser, writer and projection: functions with the stated laws.
- Reading files from disk: a file is the list of spans its text parses into, and byte offsets are positions in that list.
- Topology annotation, `idx_topo` and the topology filter: an external process.
- Trajectory metadata beyond frame count and source, and the JSON it is stored in.
- Trajectories of more than 2^32 - 1 frames, whose indices would overflow.
- Which tables a shard directory holds on disk, the manifest, drain, snapshot and removal of a failed destination.
- The C, Python and command-line bindings, `src/mpi_read.rs`, `src/export_xyz.rs`.
- MpiEngine.Engine: the failure messages of the ranks are not modelled, only which outcome every rank reports.
- MpiEngine.Engine: exact success is stated for input whose records fit a 64-bit length together, as what a machine holds in memory does; 32-bit sums wrap as in a build without overflow checks, where a checked build would stop.
- MpiLockstep.AllReturnAlike: a rank's local results are free at every step except where an earlier collective fixed them.
- Mutators.ConCorpus.SetTrajectoryUnits: its reads and its write transaction are taken together, as for `migrate_frames`; only extend and append are interleaved (`ExtendRace`).
- Mutators.ConCorpus.MigrateFrames: the returned count is not bounded by 32 bits.
- DirectoryIngest.CommitSlots: the units option of directory ingest, which re-serialises every frame, is not modelled.
- Shard.JoinShards: trajectories without frames are not copied, and the source label of a copied trajectory is replaced, as in the code; the theorem speaks of texts, hashes and index rows.
- Units.ShowUnchanged: floating-point rounding, surrounding blanks in unit labels and the column copies kept beside the atom list are not modelled; a zero sine stands for a zero quotient.
- Units.ConFrame.Rescale: the requested labels are taken as `canonicalize_units_object` leaves them; spelling aliases and their refusal are not modelled.
- CookedSoa.DecodeLoop: size arithmetic does not overflow a 64-bit `usize` for a 32-bit atom count.
