# Verified model of the BES response caches and request handling

The OPeNDAP back-end server (BES) answers data requests from files on disk and keeps several caches on
the way.  This project models the parts of it whose correctness is hardest to see from the code, and
proves what callers rely on:

* **File-backed caches shared by many processes.**  `LockingCache` is the file system with per-file
  shared and exclusive locks; each operation of the locking cache is one atomic step.  On top of it three
  protocols run, each with any number of interleaved processes, an output buffer separate from the disk
  and purges at any moment: `FunctionCacheProtocol` (server-function results, found by hash and linear
  probing), `StoredResults` (DAP4 results) and `MetadataStore` (DDS, DAS and DMR responses, with datasets
  that change).  `ResponseFile` and `FunctionCache` are the file format and the sequential behaviour of
  the function cache, `CacheCodec` is the binary format of the data, `ReadLock` the life cycle of the
  metadata store's lock objects.
* **`XmlBase`**: the buffer scanner that rewrites `xml:base` in a stored document.
* **`ObjMemCache`**: the in-memory LRU cache made of two maps.
* **`SplitCe`** and **`ConstraintFuncs`**: rewriting of constraint expressions in place.
* **`CachedSequence`**: reading the rows of a cached sequence through a selection.
* **`PathInfo`**: resolving a request path against the file system.
* **`XmlEvents`, `Commands`, `CommandParser`, `CommandPrinter`, `CmdTranslation`**: translating the
  commands of the command-line client to XML.

Code that changes things step by step is modelled by classes, methods and loops that are proved against
functions of the old state; protocols are state machines whose theorems are about every reachable state or
every run.  The whole project is one unit: `dafny verify dfyconfig.toml`.

Where code and comments disagree the code is followed.  In particular: ages of the in-memory cache are
64-bit counters stored as 32-bit map keys, although the class comment speaks of 64 bits; the id reader of
the function cache stops after 4095 characters although ids up to 4097 are admitted; the comment on
`define` writes `where` for the keyword that the code spells `with`; a closing stream or descriptor drops
all POSIX locks of its process on the file, so `store_dap4_result` has lost its exclusive lock before it
downgrades it.

Assumptions that stand for code outside the model are parameters with no property attached (the hash, the
DDX parser, what a serializer writes, the selection of a constraint, `stat`, `lstat`, which function names
are registered).  Numbers in the data codec are little-endian, `size_t` has 8 bytes, floating-point values
are their bit patterns, and the purge fraction is a real number.

Results that contradict what one would expect are stated as such, with a concrete run or with the exact
condition or both: `StoredResults.AbortedResultIsServed` (exact in `ReaderSeesWholeResult`),
`StoredResults.LeakedLockIsKept` (exact in `LockIsKeptExactly`), `MetadataStore.TruncatedItemIsSent` (exact in
`SentIsWholeExactly`), `FunctionCache.FoundAgainExactly`, `FunctionCache.LongIdFillsTheSlots`,
`FunctionCache.CollidesExactly`, `CacheCodec.RoundTripExact`, `CacheCodec.ChunkedEqualsWhole`,
`XmlBase.LostDocument` (exact in `LosesExactly`), `XmlBase.OverrunsExactly`, `XmlBase.MissedDocument` (exact in
`SecondBaseExactly`; it is about occurrences of the text, an attribute proper that the scan comes to is not doubled),
`SplitCe.HiddenCallIsCut` (exact in `SeparatesExactly`),
`ConstraintFuncs.TerminatesExactly`, `ConstraintFuncs.CollectsExactly`, `CommandParser.DefaultIsRefused`,
`Commands.DecodesExactly`, `CommandPrinter.ParsesExactly`.

## Model

| member | source | states |
|---|---|---|
| `CacheCodec.ScalarRoundTrip` | dap/CacheMarshaller.cc:51-84 | a signed or unsigned number in range, stored as its residue in little-endian bytes, is read back as itself |
| `CacheCodec.DecodeUndoesEncode` | dap/CacheUnMarshaller.cc:37-118 | decoding the encoding of one conforming value, with any bytes behind it, gives what was stored and leaves those bytes |
| `CacheCodec.RoundTrip` | dap/CacheUnMarshaller.cc:37-118 | the same for every schema of scalars, strings and vectors |
| `CacheCodec.RoundTripExact` | dap/CacheMarshaller.cc:161-172 | the values themselves come back if and only if no vector's 32-bit byte count wraps |
| `CacheCodec.StrictPrefixFails` | dap/CacheUnMarshaller.h:52-57 | no strict prefix of an encoded dataset decodes: the short read throws |
| `CacheCodec.DecodesAsWritten` | dap/CacheUnMarshaller.h:52-57 | a prefix that decodes at all gives exactly the values written |
| `CacheCodec.DecodeAllExtends` | dap/CacheUnMarshaller.cc:37-118 | a successful decoding does not depend on the bytes behind what it consumed |
| `CacheCodec.ChunkedEqualsWhole` | dap/CacheMarshaller.cc:121-188 | a vector written in parts gives the bytes of the vector written whole if and only if its byte count is below 2^32 |
| `CacheCodec.CacheMarshaller.PutVectorInParts` | dap/CacheMarshaller.cc:121-188 | the count is written once and each part appends its bytes |
| `CacheCodec.CacheMarshaller.PutAll` | dap/BESDapFunctionResponseCache.cc:555-559 | the loop over the variables appends the encoding of the whole dataset |
| `CacheCodec.CacheUnMarshaller.GetAll` | dap/BESDapFunctionResponseCache.cc:474-476 | the loop over the variables decodes the dataset and advances the stream to what follows, or throws exactly on a short read |
| `ResponseFile.SlotInjective` | dap/BESDapFunctionResponseCache.cc:390-414 | two slot names are equal only for the same hash and the same suffix |
| `ResponseFile.RetryNameIsNoSlot` | dap/BESDapFunctionResponseCache.cc:348-360 | a name with a second suffix, as the retry builds it, is the name of no slot |
| `ResponseFile.GetLineOfImage` | dap/BESDapFunctionResponseCache.cc:416-430 | the id reader returns the id line when it has at most 4095 characters, and otherwise its first 4095 and a failed stream |
| `ResponseFile.LoadWritten` | dap/BESDapFunctionResponseCache.cc:383-444 | a complete file is a hit for its own id and gives exactly the dataset written |
| `ResponseFile.HitOnPrefix` | dap/BESDapFunctionResponseCache.cc:383-498 | whatever prefix of a file has reached the disk, a hit means the file was written for that very id and returns the dataset being written |
| `ResponseFile.NoHitOnIdLine` | dap/BESDapFunctionResponseCache.cc:515-585 | a file that never got beyond its id line is a hit for nobody |
| `ResponseFile.LongIdNeverMatches` | dap/BESDapFunctionResponseCache.cc:416-430 | an id of 4096 or more characters matches no file |
| `LockingCache.ReadLockKeeps` | dispatch/BESFileLockingCache.cc:537-573 | a granted read lock changes no file and no lock of another process |
| `LockingCache.CreateKeeps` | dispatch/BESFileLockingCache.cc:592-605 | creation uses a fresh file and leaves every other file and lock alone |
| `LockingCache.ToSharedKeeps` | dispatch/BESFileLockingCache.cc:622-636 | the downgrade affects only the caller's own lock |
| `LockingCache.ReleaseKeeps` | dispatch/BESFileLockingCache.cc:705-717 | unlocking drops only the caller's locks |
| `LockingCache.PurgeKeeps` | dispatch/BESFileLockingCache.cc:927-1108 | a purge removes no file that any process has locked |
| `FunctionCacheProtocol.RunKeepsInv` | dap/BESDapFunctionResponseCache.cc:319-585 | every reachable state of any number of processes and purges satisfies the protocol's invariant |
| `FunctionCacheProtocol.CachedDatasetWasEvaluated` | dap/BESDapFunctionResponseCache.cc:319-585 | in every run, a dataset returned from the cache for an id is one that was evaluated for exactly that id, in spite of collisions and of streams unflushed when their lock is downgraded |
| `FunctionCacheProtocol.FilesAreSlots` | dap/BESDapFunctionResponseCache.cc:390-414 | in every run each cache file is named by a hash and a suffix of at most 50 |
| `FunctionCacheProtocol.RetryReturnsNull` | dap/BESDapFunctionResponseCache.cc:355-360 | in every run the second `load_from_cache` is never blocked, never hits and returns null at once |
| `FunctionCacheProtocol.NullMeansLostRace` | dap/BESDapFunctionResponseCache.cc:348-360 | a request returns null only if another process created the chosen slot between the request's own probe that found it free and its refused attempt to create it; the three actions of the run are exhibited, in this order |
| `FunctionCacheProtocol.FilesInUseStay` | dap/BESDapFunctionResponseCache.cc:562-573 | no purge removes or replaces a file while a process reads it or has not yet released it |
| `FunctionCacheProtocol.LogIsHistory` | dap/BESDapFunctionResponseCache.cc:515-585 | what the model logs as evaluated was evaluated by an action of the run |
| `FunctionCache.VerdictIsLoad` | dap/BESDapFunctionResponseCache.cc:383-444 | what `load_from_cache` makes of the bytes of a written file is decided by the id and the entry alone |
| `FunctionCache.SlotsOnlyGrow` | dap/BESDapFunctionResponseCache.cc:383-444 | without purges no later request moves, overwrites or removes a slot |
| `FunctionCache.RepeatedRequestHits` | dap/BESDapFunctionResponseCache.cc:319-365 | a readable id, once written, is served from the cache after any further requests |
| `FunctionCache.FoundAgainExactly` | dap/BESDapFunctionResponseCache.cc:265-276 | an admitted request just written is found again if and only if constraint and file name have at most 4094 characters together |
| `FunctionCache.LongIdFillsTheSlots` | dap/BESDapFunctionResponseCache.cc:383-444 | repeating a request whose id is too long to be read fills the slots of its hash and ends in the collision error |
| `FunctionCache.RunsKeepDistinct` | dap/BESDapFunctionResponseCache.cc:383-444 | in every run the slots of one hash hold pairwise distinct readable ids, at most 51 entries |
| `FunctionCache.CollidesExactly` | dap/BESDapFunctionResponseCache.cc:383-444 | with distinct readable ids in the slots, a request ends in the collision error if and only if its id is new and 51 others hold the slots of its hash; it never ends in a read error |
| `FunctionCache.CollidingIdsAreServed` | dap/BESDapFunctionResponseCache.cc:383-444 | in every run with any datasets, as long as the readable ids of a hash in the slots and in the requests number at most 51, no request of that hash ends in the collision error |
| `FunctionCache.NextIdCollides` | dap/BESDapFunctionResponseCache.cc:383-444 | once 51 ids of a hash have been asked for and evaluated, a request with one more ends in it |
| `FunctionCache.ReadCachedData` | dap/BESDapFunctionResponseCache.cc:450-498 | the reader splits the file at the mark line, parses and decodes, against the pure description of the format |
| `FunctionCache.FunctionResponseCache.SlotPresent` | dap/BESDapFunctionResponseCache.cc:390-414 | the slots of a hash are contiguous from 0 |
| `FunctionCache.FunctionResponseCache.LoadFromCache` | dap/BESDapFunctionResponseCache.cc:383-444 | at most 51 probes end in the first verdict that is no mismatch, in the first free slot, or in the collision error |
| `FunctionCache.FunctionResponseCache.WriteDatasetToCache` | dap/BESDapFunctionResponseCache.cc:515-585 | a dataset is appended as the next slot of its hash, and nothing is kept when evaluation fails |
| `FunctionCache.FunctionResponseCache.GetOrCacheDataset` | dap/BESDapFunctionResponseCache.cc:319-365 | the bytes on disk refine the list of entries per hash and the request is answered as that list says |
| `StoredResults.RunKeepsInv` | dap/BESStoredDapResultCache.cc:746-828 | every reachable state satisfies the protocol's invariant |
| `StoredResults.ReaderSeesWholeResult` | dap/BESStoredDapResultCache.cc:746-828 | in every run a process with a read lock on a stored result sees all of its bytes if and only if no action of the run threw while writing it with bytes still missing |
| `StoredResults.LockIsKeptExactly` | dap/BESStoredDapResultCache.cc:746-828 | in every run a process whose call has ended holds a lock on a file if and only if one of its calls threw over that file after it had been purged and it has not unlocked that name since |
| `StoredResults.LeakedLockIsKept` | dap/BESStoredDapResultCache.cc:810-828 | such a run: the process then stores another result, returns normally and still holds the lock |
| `StoredResults.AbortedResultIsServed` | dap/BESStoredDapResultCache.cc:810-828 | when the serializer throws, a truncated file stays behind and another process is given it |
| `StoredResults.LocalIdShared` | dap/BESStoredDapResultCache.cc:699-740 | two results share a file if and only if the hashes of their joined names collide |
| `StoredResults.LocalIdUnique` | dap/BESStoredDapResultCache.cc:699-740 | without collisions and without a `#` in dataset names, each pair of dataset and constraint has its own file |
| `MetadataStore.ItemsShared` | dap/GlobalMetadataStore.cc:485-492 | without collisions two responses share an item if and only if they are of one kind and their names agree up to a missing leading slash |
| `MetadataStore.PlansAreSound` | dap/BESDDSResponseHandler.cc:95-159 | a DDS or DMR request with a function call neither uses nor fills the store, and a stored DDS or DMR answers only unconstrained requests, from current items; a DAS request never fills the store and gets a current item whatever its constraint |
| `MetadataStore.RunKeepsInv` | dap/GlobalMetadataStore.cc:563-721 | every reachable state of requests, stores, purges and dataset modifications satisfies the invariant |
| `MetadataStore.SentIsCurrent` | dap/GlobalMetadataStore.cc:974-1045 | in every run, a response sent from the store comes from the item of an unconstrained request, and that item, when it was opened for sending, was not older than the dataset at the request's check; both actions are exhibited |
| `MetadataStore.SentForSameGranule` | dap/GlobalMetadataStore.cc:1025-1045 | without collisions the item was stored for the same kind of response and the same granule |
| `MetadataStore.FunctionCallsBypassStore` | dap/BESDMRResponseHandler.cc:78-168 | in every run a request with a function call is in no state that touches the store |
| `MetadataStore.ItemStaysUntilPurged` | dap/GlobalMetadataStore.cc:563-622 | requests never replace an item: it stays until something is purged or a failed store cleans up |
| `MetadataStore.SentIsWholeExactly` | dap/GlobalMetadataStore.cc:1025-1045 | in every run, what was sent from the store is the whole stored text if and only if, at the end of the transfer, no writer of the item has bytes in its buffer or was cut off; so an item whose writer had closed its stream is sent whole |
| `MetadataStore.TruncatedItemIsSent` | dap/GlobalMetadataStore.cc:563-622 | a run in which the condition fails: an item is sent before its writer's stream reached the disk |
| `ReadLock.Store.UnlockAndClose` | dispatch/BESFileLockingCache.cc:705-717 | every recorded descriptor of the item is closed, and no other |
| `ReadLock.MDSReadLock.ClearLock` | dap/GlobalMetadataStore.h:199-210 | the lock is given up once and the flag cleared |
| `ReadLock.AssignAvailability` | dap/BESDDSResponseHandler.cc:99-104 | after the assignment the handler's lock says whether the item was there and current, while the store holds no lock for it |
| `XmlBase.TransferBytes` | dap/GlobalMetadataStore.cc:121-143 | all that is left of the file is appended to the output |
| `XmlBase.InsertXmlBase` | dap/GlobalMetadataStore.cc:157-229 | the buffer loops and the final copy produce the rewritten document, or run past the bytes of the first read |
| `XmlBase.ScanTag` | dap/GlobalMetadataStore.cc:194-221 | the matching loop stops where the scan of the tag says |
| `XmlBase.FoundExactly` | dap/GlobalMetadataStore.cc:194-221 | the matcher, which never retests a character, finds the first occurrence of the attribute name in the tag if and only if its state folded over the text before it is zero; otherwise it passes that occurrence by |
| `XmlBase.ScanIsSound` | dap/GlobalMetadataStore.cc:194-221 | what the matcher takes for the attribute is an occurrence of its name |
| `XmlBase.StopsExactly` | dap/GlobalMetadataStore.cc:194-221 | the condition of each way the scan of the tag can stop, for any text |
| `XmlBase.SecondBaseExactly` | dap/GlobalMetadataStore.cc:188-228 | a tag with one occurrence of the text xml:base gets a second one if and only if the matcher's state before it is not zero |
| `XmlBase.AttributeIsNotDoubled` | dap/GlobalMetadataStore.cc:188-228 | an attribute proper, behind white space, is found if the scan comes to it: it gets the new value or the search overruns, and no second one is inserted |
| `XmlBase.SpaceIsNeeded` | dap/GlobalMetadataStore.cc:188-228 | it does whenever a blank and an `x` stand before the text, as at the end of another attribute's name |
| `XmlBase.MissedDocument` | dap/GlobalMetadataStore.cc:188-228 | one such document and what becomes of it |
| `XmlBase.InsertsMissingBase` | dap/GlobalMetadataStore.cc:188-228 | an absent attribute is inserted just before the `>` of the Dataset tag and every other byte is kept |
| `XmlBase.ReplacesBase` | dap/GlobalMetadataStore.cc:188-228 | an attribute that the matcher comes to with nothing matched, as it does behind a blank, gets the new value and every byte before and behind it is kept |
| `XmlBase.ReplacesOnlyTheValue` | dap/GlobalMetadataStore.cc:188-228 | written without blanks around `=`, only the text between the quotes changes |
| `XmlBase.LosesExactly` | dap/GlobalMetadataStore.cc:188-228 | all that was read of the tag is lost if and only if, within the first read, the tag does not end and the matcher comes to nothing behind the whole attribute name |
| `XmlBase.LosesLongTag` | dap/GlobalMetadataStore.cc:188-228 | so a tag that neither ends nor names xml:base within the first read is lost |
| `XmlBase.LostDocument` | dap/GlobalMetadataStore.cc:188-228 | one such document and what becomes of it |
| `XmlBase.OverrunsExactly` | dap/GlobalMetadataStore.cc:188-213 | the search runs past the bytes of the first read if and only if these hold no `>`, or the matcher comes behind the name and no quoted value ends within them |
| `XmlBase.RewriteTwicePresent` | dap/GlobalMetadataStore.cc:188-228 | rewriting twice equals rewriting once with the second value, for a document that has the attribute |
| `XmlBase.RewriteTwiceAbsent` | dap/GlobalMetadataStore.cc:188-228 | the same for a document without it |
| `ObjMemCache.Cache.constructor` | dap/ObjMemCache.h:132-135 | a new cache is consistent and empty |
| `ObjMemCache.Cache.Size` | dap/ObjMemCache.h:149-152 | the age map, the index and the recency list have one size |
| `ObjMemCache.Cache.Add` | dap/ObjMemCache.cc:63-79 | above the threshold the oldest share goes first; then the entry is the newest, and the maps stay inverse if and only if its key is absent by then |
| `ObjMemCache.Cache.Remove` | dap/ObjMemCache.cc:85-98 | exactly the entry of that key leaves the recency list |
| `ObjMemCache.Cache.Get` | dap/ObjMemCache.cc:105-139 | a hit returns the object of the key and makes it the newest; a miss changes nothing |
| `ObjMemCache.Cache.Purge` | dap/ObjMemCache.cc:145-161 | exactly the floor(n*f) least recently used entries are dropped, or all when that is more |
| `ObjMemCache.DuplicateBreaks` | dap/ObjMemCache.cc:63-79 | adding a key that is present leaves two ages with one name: the maps are no longer inverse |
| `ObjMemCache.Drive` | dap/ObjMemCache.cc:63-161 | an object driven through any run that adds only absent keys holds the recency list of the run, so that the results on runs are about the class |
| `ObjMemCache.EntriesAreLastAdded` | dap/ObjMemCache.cc:63-161 | in every run that adds only absent keys, keys stay distinct and each entry holds the last object added under its key |
| `ObjMemCache.PurgeRemoves` | dap/ObjMemCache.cc:145-161 | a purge removes something if and only if there are at least ceil(1/f) entries |
| `ObjMemCache.SizeStaysBounded` | dap/ObjMemCache.cc:63-79 | every run keeps the size at most max(T+1, ceil(1/f)) |
| `ObjMemCache.BoundIsReached` | dap/ObjMemCache.cc:63-79 | adding that many distinct keys reaches the bound |
| `SplitCe.FindClosingParen` | dap/BESDapResponseBuilder.cc:281-303 | the least place where the nesting level returns to zero; an error if and only if there is none |
| `SplitCe.CutAll` | dap/BESDapResponseBuilder.cc:319-351 | the loop with its moving position and erasures yields the kept pieces and the extracted pieces joined by commas |
| `SplitCe.ResponseBuilder.SplitCe` | dap/BESDapResponseBuilder.cc:311-359 | both fields are set from the pieces; the call fails and changes nothing if and only if the first parenthesis is never closed |
| `SplitCe.PiecesRebuild` | dap/BESDapResponseBuilder.cc:331-351 | the pieces are consecutive and make up the expression; only single commas behind extracted pieces are lost |
| `SplitCe.SplitsCalls` | dap/BESDapResponseBuilder.cc:311-359 | for calls of which only the first nests, and a parenthesis-free tail, the function part is exactly the registered calls in order and the residue's clauses are exactly the others in order |
| `SplitCe.CutIsFunctions` | dap/BESDapResponseBuilder.cc:331-351 | behind the first call the function part is the cuts of the text at every closing parenthesis that a registered name opens |
| `SplitCe.SeparatesExactly` | dap/BESDapResponseBuilder.cc:311-359 | for registered and other calls in any mixture, the function part is right if and only if every later registered call is free of inner parentheses and no later other call has a registered name opening directly behind one of its closing parentheses and at most one comma; the residue is right under the same condition |
| `SplitCe.HiddenCallIsCut` | dap/BESDapResponseBuilder.cc:331-351 | `f(1),b(g(2),k(3))` with `f` and `k` registered: `k(3)` is taken out of the arguments of `b` |
| `SplitCe.NestingAloneIsHarmless` | dap/BESDapResponseBuilder.cc:331-351 | `f(1),b(g(2)),k(3)` is separated although a later call nests |
| `SplitCe.SplitsExactly` | dap/BESDapResponseBuilder.cc:347-350 | when all calls are registered, whatever the registered names are, the function part is right if and only if no later call nests parentheses |
| `SplitCe.NestedIsCut` | dap/BESDapResponseBuilder.cc:350-350 | what is extracted for a later call that nests is its text up to and with its first closing parenthesis, not all of it |
| `ConstraintFuncs.PreToPostConstraint` | dispatch/BESConstraintFuncs.cc:38-59 | the insertion loop puts the name and a dot before every comma-separated clause; an empty constraint stays empty |
| `ConstraintFuncs.PrefixesClauses` | dispatch/BESConstraintFuncs.cc:38-59 | the clauses of the result are the prefixed clauses, and stripping the prefix recovers the constraint |
| `ConstraintFuncs.TerminatesExactly` | dispatch/BESConstraintFuncs.cc:48-55 | on a non-empty constraint the loop ends if and only if the name has no comma |
| `ConstraintFuncs.DataHandlerInterface.PostAppend` | dispatch/BESConstraintFuncs.cc:61-83 | only the post constraint changes, by the container's clause behind a comma; nothing without a container |
| `ConstraintFuncs.DataHandlerInterface.AppendAll` | dispatch/BESConstraintFuncs.cc:61-83 | calling it for each container collects their clauses |
| `ConstraintFuncs.CollectsExactly` | dispatch/BESConstraintFuncs.cc:61-83 | the result is the clauses joined by commas in container order, if and only if the first of several clauses is not empty |
| `ConstraintFuncs.PostClauses` | dispatch/BESConstraintFuncs.cc:61-83 | every clause of the post constraint belongs to one container, in container order |
| `CachedSequence.Sequence.LoadPrototypes` | dap/CachedSequence.cc:59-110 | the scalars before the first value that does not fit are loaded; success if and only if all fit |
| `CachedSequence.Sequence.ReadRow` | dap/CachedSequence.cc:142-185 | the next accepted row is loaded and counted, or no row is left to accept, or a row that does not fit is an error |
| `CachedSequence.Sequence.ReadAll` | dap/CachedSequence.cc:199-221 | from a reset index, rows 0, 1, 2, ... give one snapshot per accepted row, in order, then false; the row number is their count minus one |
| `CachedSequence.AcceptedExactly` | dap/CachedSequence.cc:172-180 | a row is among the accepted ones if and only if the selection takes the prototypes after it |
| `CachedSequence.AcceptedInOrder` | dap/CachedSequence.cc:142-185 | the accepted rows are listed once and in order |
| `CachedSequence.RowIsLoaded` | dap/CachedSequence.cc:59-110 | after a row that fits, the prototypes hold its scalars and everything else is as before |
| `PathInfo.AssembleAdds` | dispatch/BESUtil.cc:751-828 | joining two paths puts one slash between them, and none when the second is only slashes |
| `PathInfo.StripDots` | dap/ShowPathInfoResponseHandler.cc:408-447 | the last component is cut before the last dot for which the rest exists, or stays when there is none |
| `PathInfo.CheckNext` | dap/ShowPathInfoResponseHandler.cc:347-453 | one round either advances by a component that exists, or stops at a missing one, or is refused |
| `PathInfo.EvalResourcePath` | dap/ShowPathInfoResponseHandler.cc:280-515 | on a normal return every prefix of the valid path exists and is no link, the next component and its dot-stripped forms are missing, the remainder is the end of the request, and the report is about that path; a refusal means `..`, an error other than absence, or a link on the way |
| `PathInfo.ResolvedIsNotRefused` | dap/ShowPathInfoResponseHandler.cc:385-475 | a request that is resolved meets none of the conditions for refusal, so they are exact |
| `PathInfo.Rebuilds` | dap/ShowPathInfoResponseHandler.cc:347-453 | valid path and remainder rebuild the request up to repeated slashes, joined directly where a component was cut at a dot |
| `PathInfo.NoLongerPrefix` | dap/ShowPathInfoResponseHandler.cc:347-453 | no longer prefix of the request exists |
| `XmlEvents.ReadsAll` | cmdln/CmdTranslation.cc:87-190 | reading the events of a list of elements gives back exactly those trees |
| `Commands.Decodes` | cmdln/CmdTranslation.cc:231-1041 | the element of any command decodes to that command, up to the case of the first letter of a show word and a handler without aggregation command |
| `Commands.DecodesExactly` | cmdln/CmdTranslation.cc:231-1041 | it decodes to the very command if and only if no show word starts with a capital and no handler stands alone |
| `CommandParser.NeverDone` | cmdln/CmdTranslation.cc:581-586 | the default `constraint` form consumes tokens until it fails, because the current token is never advanced |
| `CommandParser.DefaultFormFails` | cmdln/CmdTranslation.cc:574-608 | behind any number of ordinary properties, the default form makes the properties an error whatever follows, while `aggregate` and `;` end them |
| `CommandParser.ParsedAreOrdinary` | cmdln/CmdTranslation.cc:574-608 | properties that parse are ordinary ones up to their end, and no default form stands at the place of a property |
| `CommandParser.DefineWithDefaultFails` | cmdln/CmdTranslation.cc:538-639 | a define command with the default form is an error |
| `CommandParser.DefaultIsRefused` | cmdln/CmdTranslation.cc:192-229 | so is every request that holds one behind any number of commands |
| `CommandPrinter.KeyParses` | dispatch/BESTokenizer.cc:255-277 | a property key gives back its container and kind; for attributes, when the name does not contain the constraint key |
| `CommandPrinter.ParsesShow` | cmdln/CmdTranslation.cc:231-368 | the tokens of a show command, with the forms for catalog, info and error, are parsed back to it |
| `CommandPrinter.Parses` | cmdln/CmdTranslation.cc:231-1041 | the tokens of every printable command are parsed back to it, up to its semicolon |
| `CommandPrinter.ParsedIsPrintable` | cmdln/CmdTranslation.cc:231-1041 | every command that the parser produces, from any tokens, is printable |
| `CommandPrinter.ParsesExactly` | cmdln/CmdTranslation.cc:231-1041 | so the tokens of a command are parsed back to it if and only if it is printable; a container may be listed again with the same properties |
| `CommandPrinter.ParsesAll` | cmdln/CmdTranslation.cc:192-229 | the same for any number of commands |
| `CommandPrinter.DocumentReads` | cmdln/CmdTranslation.cc:87-190 | the events of a request are one balanced tree with one child per command, in order |
| `CommandPrinter.RoundTrip` | cmdln/CmdTranslation.cc:192-229 | printing, parsing, writing, reading and decoding gives back the commands |
| `CommandPrinter.PrintsBack` | cmdln/CmdTranslation.cc:192-229 | every request that parses has a printed form that parses to the same commands |
| `CmdTranslation.Tokenizer.GetNextToken` | dispatch/BESTokenizer.cc:122-134 | the cursor advances by one, or stays and fails on the last token |
| `CmdTranslation.ReadContext` | cmdln/CmdTranslation.cc:387-406 | the cursor program accepts what the grammar of set context says and stops on its semicolon |
| `CmdTranslation.ReadContainer` | cmdln/CmdTranslation.cc:440-484 | the same for set container with its optional parts |
| `CmdTranslation.ReadNames` | cmdln/CmdTranslation.cc:561-572 | the loop collects the container list and remembers each name |
| `CmdTranslation.ReadProps` | cmdln/CmdTranslation.cc:574-608 | the loop over the properties fills both maps; through the default form it can only end in an error |
| `CmdTranslation.ReadDefine` | cmdln/CmdTranslation.cc:538-639 | the whole define command, with containers matched to their properties |
| `CmdTranslation.ReadDelete` | cmdln/CmdTranslation.cc:809-858 | the four delete commands with their optional storage |
| `CmdTranslation.ReadGet` | cmdln/CmdTranslation.cc:896-942 | the options in any order, the last one of a kind winning |
| `CmdTranslation.WriteShow` | cmdln/CmdTranslation.cc:231-368 | the writer calls make the element of a show command; the type of an error is written even when it is empty |
| `CmdTranslation.WriteContext` | cmdln/CmdTranslation.cc:408-438 | the writer calls make the element of the command |
| `CmdTranslation.WriteContainer` | cmdln/CmdTranslation.cc:486-536 | the same, with the attributes that are not empty |
| `CmdTranslation.WriteDefine` | cmdln/CmdTranslation.cc:641-807 | the same for a definition, its containers in list order and its aggregation |
| `CmdTranslation.WriteGet` | cmdln/CmdTranslation.cc:944-1041 | the same for get |
| `CmdTranslation.TranslateCommand` | cmdln/CmdTranslation.cc:192-211 | the registered translator either writes exactly the element of the parsed command or fails and writes nothing |
| `CmdTranslation.DoTranslate` | cmdln/CmdTranslation.cc:192-229 | it terminates for every token stream, succeeds if and only if the stream is a sequence of commands, and then has written one element per command in order |
| `CmdTranslation.Translate` | cmdln/CmdTranslation.cc:87-190 | for any tokens, the document is the request element around those elements, from which the parsed commands are decoded, or nothing |
| `CmdTranslation.TranslatePrinted` | cmdln/CmdTranslation.cc:87-190 | translating printed commands gives events from which exactly these commands are decoded |

## Left out

- `BESFileLockingCache` beyond its locks: the table of open descriptors, except for the name under which a leaked lock is recorded, so that unlocking the name gives it up; waiting and deadlock, the size bookkeeping and the choice of files to purge; a purge may take any unlocked file.
- libdap: DDX parsing, constraint evaluation, `Sequence::serialize` around `read_row`; they are parameters or drivers.
- The rest of the response builder, MIME headers, timeouts and transmission: plumbing around libdap.
- `get_dds_object`, the ledger, configuration, time formatting, singletons and dump functions.
- Read errors of the operating system in `transfer_bytes` and `insert_xml_base`.
- The text tokenizer, the writer's own error codes, and translators registered at run time.
- Catalogs, container storage, contexts and error tables: only easy map facts.
- FunctionCacheProtocol.CachedDatasetWasEvaluated: about ids without line break or NUL and datasets whose DDX does not contain the mark line, parses to the types of the data, and whose vectors have byte counts below 2^32; those are what the file format can represent.
- FunctionCache.FunctionResponseCache.GetOrCacheDataset: non-overlapping requests without purges; interleavings are in FunctionCacheProtocol.
- XmlBase.InsertXmlBase: what C++ does after reading past the bytes of the first read is not modelled, only that it happens.
- ObjMemCache.Cache.Add: fewer than 2^32 operations, as long as the stored 32-bit age does not repeat.
- ObjMemCache.Drive: fewer than 2^32 operations, for the same reason.
- ObjMemCache.Cache.Get: fewer than 2^32 operations, for the same reason.
- SplitCe.SeparatesExactly: registered names hold no parenthesis, calls have names without separators, and the tail is empty or starts with `,` or `&`.
- SplitCe.SplitsCalls: calls have names without separators, and the tail is empty or starts with `,` or `&`.
- ConstraintFuncs.PreToPostConstraint: strings shorter than 2^31, where `int` positions do not wrap.
- CachedSequence.Sequence.LoadPrototypes: in a build without assertions the types are not checked, so the caller vouches for the row.
- PathInfo.EvalResourcePath: the catalog root exists and the file system does not change during the call; for a file that is neither regular nor a directory the flags `isFile` and `isDir` keep the values of the round before and are not specified.
- PathInfo.NoLongerPrefix: in a file system where every entry lies in an existing entry.
- CommandPrinter.RoundTrip: options are printed in one order.
