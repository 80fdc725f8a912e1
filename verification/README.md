# Verified models of CurlFtpFS

CurlFtpFS mounts an FTP server as a file system. This project models the parts of it where a
mistake loses or invents data, and proves what those parts keep, over every input, every run and
every schedule of the threads.

* **Upload** (`Upload*.dfy`). A file opened for writing is streamed to the server by a second
  thread. The file system thread and the uploader share the fields of the file handle and hand
  the stream buffer to each other with four semaphores; there is no mutex. The model is a
  transition system: one program counter for each thread, one step for each access to shared
  state, libcurl as a nondeterministic environment that asks for any number of bytes and may fail
  whenever it is not inside the callback, and an outsider who may rewrite the remote file. STOR
  replaces and APPE appends (section 4.1.3 of RFC 959). `UploadInvariant` holds the invariant and
  one preservation lemma for each program point, `UploadTheorems` what follows for every reachable
  state, `UploadCalls` what whole calls and whole histories of calls do, and `EmptyWrites` why writes
  of no bytes are set apart.
* **Reading** (`Buffer.dfy`, `ReadWindow.dfy`). Any number of open handles share one connection and
  keep a sliding window each. The classes update buffers and connection in place; the class
  invariant says that every window is a part of the handle's source and that a running stream
  continues the window of the current handle. Every operation keeps it, in any order. The source is
  the handle's own file, except in a block that was reused while a stream ran for it.
* **The cache** (`Cache*.dfy`). `Cache` specifies the table, `CacheProxy` is the table updated in
  place and proved against it. On the specification: what is remembered (`CacheMemory`), transparency (`CacheTransparency`), whether
  sweeping can be observed (`CacheCleaning` for operations on the table, `CacheSweeping` for
  requests), and bounded staleness (`CacheStaleness`).
* **Listings, paths and keys** (`Listing.dfy`, `Prefetch*.dfy`, `ListingTruth.dfy`, `Paths.dfy`,
  `Keys.dfy`, `FlushedSize.dfy`). The loop of `parse_dir` with its cache updates, when these updates
  are true, percent-encoding and URLs, whether the keys built by different parts of the program are
  the same string, and what a flush leaves in the cache.
* **Option parsing** (`FuseOpt*.dfy`). `FuseOpt` specifies `fuse_opt_parse` without a callback,
  `FuseOptParser` runs it in place, `FuseOptValues` says which value an option sets, and
  `FuseOptTheorems` proves what a parse returns and sets and that parsing its result again changes
  nothing.

`Byte`, `Option` and `Min` are in `Wrappers.dfy`. `dafny verify dfyconfig.toml` checks everything.

## Where the program does less than one would expect

* A write at an offset other than `pos` with no session open answers its size and stores nothing;
  that is the only way to lose one (`DroppedExactlyWhen`, and `WriteIsDropped` for an instance).
* An empty write on a live connection ends the upload, and the next write can then wait for ever;
  no other write has this effect (`EndsEarlyExactlyWhenEmpty`, `HangsExactlyAfterEmpty`). All other
  upload results are for writes of at least one byte.
* `cache_add_dir` and `cache_add_link` make a live negative entry positive without refreshing its
  attributes (`AddingKeepsAttrExactlyWhen`). Through this, sweeping the table can be observed
  (`CleaningShows`; `CleaningIsUnobservableExactlyWhen` says in which runs), and served attributes can
  be arbitrarily old (`OldAttrIsServed`; `AttrsRecentExactlyWhen` says in which runs they are not).
* A directory filler that refuses names leaves a shortened listing in the cache
  (`ListingKeptExactlyWhen`), and a link read with a small buffer stays short for larger ones
  (`LinkKeptExactlyWhen`).
* Renaming a directory leaves the entries below its old name (`RenamedDirectoryIsStillServed`);
  `RenamedDirectoryAgreesExactlyWhen` says for which tables that does no harm.
* `parse_dir` overwrites the link buffer with every link it meets, so reading a link answers with
  the last link of the directory (`ReadlinkIsRightExactlyWhen`, `ReadlinkGivesSibling`). A listing
  with two different links therefore contradicts the program's own answers
  (`OwnListingIsTrueExactlyWhen`).
* Cache keys agree only if neither the host nor the directory needs percent-encoding (`KeysAgree`),
  and the URL of the directory of `//name` loses a slash (`DirAndNameMakeFullExactlyWhen`).
* A failed open frees the handle while its transfer may still run and `current_fh` still points at it.
  When the next open gets the same block, the running stream feeds the new handle, which then reads
  the other file (`ReusedBlockReadsOtherFile`); `FtpFs.Reuse` says exactly when it does not.

## Model

| member | source | states |
|---|---|---|
| UploadTheorems.StepKeepsInv | ftpfs.c:341-496 | the upload invariant (baton, posts still to come, buffer contents, bytes, remote file) survives every step of either thread, every call and every outside write |
| UploadTheorems.ReachableInv | ftpfs.c:596-709 | the invariant holds in every state reachable from a handle opened for writing, started at once or deferred |
| UploadTheorems.OneBaton | ftpfs.c:350-378 | while a transfer runs, `data_need`, `data_avail` and the two owners together make at most one baton, so the two threads never own the buffer together |
| UploadTheorems.OnlyTheHolderTouches | ftpfs.c:1028-1048 | every step that changes the stream buffer is taken by the thread that holds the baton while the other does not |
| UploadTheorems.NoSpuriousWakeup | ftpfs.c:350-352 | the one read of the buffer length outside the baton posts `data_written` only when the client waits for it and everything was handed over |
| UploadTheorems.HandedIsPrefix | ftpfs.c:341-381 | in every interleaving the bytes given to libcurl are a prefix of the accepted bytes, the rest is in the stream buffer, and `pos` counts them |
| UploadTheorems.WriteReturnsAfterHandOver | ftpfs.c:1039-1061 | a write on a live connection that answers its size has handed over every byte; start offset plus session bytes is `pos` |
| UploadTheorems.NoDeadlock | ftpfs.c:385-496 | whenever a call is in progress one of the two threads can move |
| UploadTheorems.RunsAreShort | ftpfs.c:341-496 | every step of either thread lowers a measure, whatever libcurl does, so runs are bounded by it |
| UploadTheorems.EveryCallReturns | ftpfs.c:974-1098 | a run of the threads from any reachable state is bounded, and where it cannot go on the client has its answer |
| UploadTheorems.FailureSticksForever | ftpfs.c:422-428 | a failure of libcurl stays on record over all later steps and calls |
| UploadTheorems.NoFailureLost | ftpfs.c:419-495 | from the moment a transfer fails, every write that returns and every flush that closes a session answers EIO, although `ready` is posted before the cause is set |
| UploadCalls.WriteCall | ftpfs.c:974-1063 | the complete outcomes of one write under every schedule: appended and handed over, dropped, or EIO with nothing accepted and the session closed unless the transfer failed |
| UploadCalls.WriteSucceeds | ftpfs.c:1003-1063 | a write at `pos` with a session open, after earlier writes, or where the upload may start, answers its size and appends its bytes under every schedule in which libcurl does not fail |
| UploadCalls.MayStartExactlyWhen | ftpfs.c:672-697 | over every run the upload of a handle may start if and only if it was opened with O_CREAT or O_TRUNC or was truncated before anything was written |
| UploadCalls.TruncatedWriteSucceeds | ftpfs.c:873-887 | after a truncation to 0 of a handle at the start, created or not, a write at 0 succeeds in the same sense |
| UploadCalls.DeferredWriteRefusedExactlyWhen | ftpfs.c:988-1002 | on a handle without permission to start, the write at 0 answers EIO and changes nothing if and only if the size check fails or finds a non-empty file; otherwise it succeeds unless libcurl fails |
| UploadCalls.RejectedWriteCloses | ftpfs.c:1031-1037 | with a session open a write at another offset answers EIO and, without failure, closes the session with the accepted bytes on the server |
| UploadCalls.DroppedExactlyWhen | ftpfs.c:1009-1061 | a write that answers its size loses its bytes if and only if no session is open and the offset is not `pos` |
| UploadCalls.WriteIsDropped | ftpfs.c:1009-1061 | on a handle whose upload has not started every write beyond the start answers its size and stores nothing |
| UploadCalls.FlushCall | ftpfs.c:1065-1098 | a flush that closes a session and succeeds leaves exactly the accepted bytes on the server (length `pos`); after a failure it answers EIO |
| UploadCalls.FlushSucceedsExactlyWhen | ftpfs.c:1071-1091 | a flush that closes a session answers success if and only if no failure is on record once the uploader has gone, the attributes can be read and the size is `pos`, which holds when nobody else wrote the file; it answers that there is no such file if and only if nothing failed but the attributes cannot be read; a wrong size is on record as a failure from then on |
| UploadCalls.TruncateThenFlush | ftpfs.c:873-887 | with no session open a flush answers success, and a truncation before it has emptied the file if and only if nothing was written yet and the file could be created |
| UploadCalls.ServeKeeps | ftpfs.c:974-1098 | one whole call of a history keeps reachability and adds exactly the bytes it answered for |
| UploadCalls.History | ftpfs.c:974-1098 | over any history of writes, rejected writes and flushes without failure, the accepted bytes are the concatenation of what was stored |
| UploadCalls.ResumeAcrossFlushes | ftpfs.c:1009-1037 | for such a history from a new handle without outside writer, `pos` is the length of the stored bytes and, with no session open, the server holds exactly these bytes; if nothing was stored this is for handles whose session had started and for files that were empty before |
| UploadCalls.AppendsExactlyWhenResuming | ftpfs.c:402-413 | a session appends if and only if it starts beyond 0, and then onto exactly the bytes accepted before it |
| EmptyWrites.EndsEarlyExactlyWhenEmpty | ftpfs.c:362-380 | while the transfer runs a write can end the upload without the client closing it if and only if it is empty |
| EmptyWrites.HangsExactlyAfterEmpty | ftpfs.c:1046-1049 | while the transfer runs a later write can wait for ever if and only if the write before was empty |
| Buffers.Capacity | buffer.c:34-36 | the rounded capacity is a multiple of 32 between 32 and 63 bytes above the need |
| Buffers.Buffer.Resize | buffer.c:34-44 | the contents move unchanged to a block of the rounded capacity |
| Buffers.Buffer.AddMem | buffer.c:46-54 | the data is appended to the contents, and the block changes exactly when the data does not fit |
| Buffers.Buffer.Copy | ftpfs.c:316-318 | a reader gets exactly the asked part of the contents |
| Buffers.Buffer.DropFront | ftpfs.c:324-333 | shrinking drops the first bytes and keeps the rest and the end offset |
| ReadWindow.FtpFs.CancelPreviousMulti | ftpfs.c:79-97 | no transfer is attached or running afterwards and no old message is left |
| ReadWindow.FtpFs.MultiPerform | ftpfs.c:124-134 | a batch appends the next bytes of the streamed file to the target buffer; success is reported only after its last byte |
| ReadWindow.FtpFs.EnsureStream | ftpfs.c:232-263 | afterwards a running stream of this handle continues its window, whether extended or restarted, and the offset lies in it; a restart makes the source the own file |
| ReadWindow.BringsExactlyWhen | ftpfs.c:265-298 | on a network where no `select` fails and no batch ends badly, the awaited batch and the polls answer a request if and only if all batches together bring the wanted bytes or one of them ends the transfer well at the end of the file |
| ReadWindow.ReachesExactlyWhen | ftpfs.c:270-298 | the same for the polls alone |
| ReadWindow.FtpFs.PollUntil | ftpfs.c:271-298 | polling ends without failure if and only if the polls reach the wanted end or end the transfer well; the window overshoots by at most two batches |
| ReadWindow.FtpFs.Await | ftpfs.c:265-312 | there is no error if and only if batch and polls bring what is wanted; then the window reaches the wanted end or the end of the source |
| ReadWindow.FtpFs.Fetch | ftpfs.c:228-312 | the same for the whole refill, asked of the running stream if it goes on and of a new one from the offset otherwise; the source changes only to the own file |
| ReadWindow.FtpFs.CopyOut | ftpfs.c:314-318 | the unsigned `to_copy` is exactly what the window has from the offset on (it never underflows), and the bytes are a prefix of the answer, the whole of it if the window reaches far enough |
| ReadWindow.FtpFs.Shrink | ftpfs.c:324-333 | shrinking keeps the window a part of the source and the stream position |
| ReadWindow.FtpFs.OneHandleChanged | ftpfs.c:212-339 | an operation on one window and the connection keeps the windows of all other handles and their memory apart |
| ReadWindow.FtpFs.ReadChunk | ftpfs.c:212-339 | for any number of handles, reused blocks included: it succeeds if and only if the window has the bytes or the network brings them; then exactly the asked slice of the handle's source, with error a prefix of it; windows stay within max(300 KiB, two batches); a faithful handle stays faithful, and another source lasts only while its stream goes on or the window answers |
| ReadWindow.FtpFs.Reuse | ftpfs.c:596-648 | a handle in a block that was freed reads its own file if and only if no stream runs for the block or what that stream has yet to deliver is that file |
| ReadWindow.FtpFs.FaithfulExactlyWhen | ftpfs.c:314-318 | a handle is faithful if and only if its source answers every request as its own file would |
| ReadWindow.FtpFs.OpenReadOnly | ftpfs.c:633-648 | an open in new memory or in a freed block adds a handle if and only if the network answers the one-byte probe, and keeps the invariant; a failed one leaves its freed block recorded as the current handle, with its stream where the batch left it |
| ReadWindow.ReusedBlockReadsOtherFile | ftpfs.c:703-705 | `select` fails while one file is opened, the next open gets the same block, and a read of the second file gives a byte of the first |
| ReadWindow.FtpFs.Read | ftpfs.c:722-748 | the answer is EIO or the asked slice of the handle's source, and a slice if and only if the window has it or the network brings it; for a faithful handle exactly min(size, fileLength - offset) bytes of its own file, so short reads happen only at its end |
| ReadWindow.FtpFs.Release | ftpfs.c:1107-1124 | the handle is gone and not current, all others are intact |
| ReadWindow.FtpFs.UseConnection | ftpfs.c:769-804 | an operation that steals the connection leaves every window and every bound intact |
| CacheCleaning.SweepKeepsAnswers | cache.c:56-75 | a sweep takes out only keys without any live part, leaves the other nodes as they are, and changes no answer now or later |
| CacheProxy.Proxy.AddAttr | cache.c:137-156 | the table afterwards is the specified one: attribute or negative mark, expiry, `valid` no earlier than before |
| CacheProxy.Proxy.AddDir | cache.c:158-174 | the same for listings |
| CacheProxy.Proxy.AddLink | cache.c:183-199 | the same for links, cut to the buffer size |
| CacheProxy.Proxy.PurgeParent | cache.c:87-99 | exactly the key before the last slash goes, `/` for a path in the root |
| CacheProxy.Proxy.Mutate | cache.c:324-421 | a change that succeeded purges every path it touches: what is made, removed, renamed or modified, and the directories that list what is made, removed or renamed; it purges nothing else unless a path begins with two slashes, and nothing if it failed |
| Cache.TouchedIsPurged | cache.c:101-124 | whatever a change touches is among the purged keys |
| Cache.PurgedIsTouched | cache.c:87-124 | for paths with one slash in front nothing else is |
| CacheProxy.Proxy.ReceiveOne | cache.c:259-271 | a filled name is remembered under directory, slash and name exactly when the filler accepts it |
| CacheCleaning.AttrIsAnsweredUntilTimeout | cache.c:137-220 | an attribute or a negative mark that was added is answered up to its timeout and not after it |
| CacheMemory.StoringKeepsListingsAndLinks | cache.c:137-199 | an addition shows what it stored for its timeout and leaves every other listing and link of every path as it was |
| CacheMemory.StoringKeepsAttrs | cache.c:137-199 | the same for attributes, except that a listing or a link unmarks a path that was known not to exist |
| CacheMemory.SweptExactlyWhen | cache.c:63-75 | a sweep happens more than 60 seconds after the last one, or more than 5 if there are more than 10000 nodes, and keeps exactly the nodes that are still valid |
| CacheMemory.AnsweredFromMemory | cache.c:201-306 | what is live in the table is answered without the server and leaves the table as it is, anything else is answered by the server |
| CacheMemory.AskedOnceAnsweredAgain | cache.c:222-306 | an answer of the server is given again to the same question within its timeout, whatever the server has become |
| CacheProxy.Proxy.Getattr | cache.c:222-233 | answer and new table are those of the specified cached proxy |
| CacheProxy.Proxy.Readlink | cache.c:235-257 | the same for links |
| CacheProxy.Proxy.Getdir | cache.c:273-306 | the same for listings |
| CacheTransparency.CacheIsTransparent | cache.c:201-421 | in every sequential run with a clock above zero that does not go back, a coherent server changed only through the proxy, fillers that succeed, one readlink size, and attributes and links reported on the way that are what the server answers for their paths, all answers equal those without the cache |
| CacheTransparency.TransparentRun | cache.c:308-322 | the same, under the same conditions on the run, from any table whose live parts agree with the server |
| CacheTransparency.ChangeTransparent | cache.c:101-124 | if the server changes only at the paths a change touches, purging paths and parents is enough: the remaining live parts agree with the changed server |
| CacheTransparency.GetdirTransparent | cache.c:259-306 | a directory request answers as the server does and what it adds agrees with the server |
| CacheTransparency.ListingKeptExactlyWhen | cache.c:259-306 | after a directory request that asked the server, the next one within the timeout answers as the server does if and only if the first filler accepted every name |
| CacheTransparency.LinkKeptExactlyWhen | cache.c:183-257 | after a link was read from the server with one size, a read with another size within the timeout answers as the server does if and only if that size is no larger or the text fitted |
| CacheTransparency.RenamedDirectoryAgreesExactlyWhen | cache.c:116-124 | after a directory was renamed to a free name, the table agrees with the server if and only if nothing but negative marks was live below the old name and no name that the directory brings was live below the new one |
| CacheTransparency.RenamedDirectoryIsTransparent | cache.c:364-370 | where that holds, the proxy answers as the server does from the rename on |
| CacheTransparency.RenamedDirectoryIsStillServed | cache.c:116-124 | a live attribute below the old name is still served after the rename, although the server has nothing there |
| CacheCleaning.AlwaysAlikeExactlyWhen | cache.c:56-199 | from similar tables, a run with sweeping and the same run without answer alike for every path after every step if and only if every step meets the same hidden attributes |
| CacheCleaning.CleaningIsUnobservableExactlyWhen | cache.c:56-75 | from the empty table, cleaning is unobservable in a run if and only if every listing and every link that is stored at a live negative entry finds there the attribute last stored for the path since its last purge |
| CacheCleaning.UnsweptKeepsLast | cache.c:137-199 | without sweeping a node keeps, visible or hidden, the attribute last stored for the path since its last purge |
| CacheCleaning.CleaningIsUnobservable | cache.c:56-75 | in particular in every run that stores no listing and no link at a live negative entry |
| CacheSweeping.ServingSweeps | cache.c:222-306 | serving a request changes the table by exactly the additions and purges it is said to make |
| CacheSweeping.ProxiesAlike | cache.c:56-75 | the sweeping proxy and one that never sweeps give the same answers to the same requests as long as they hide the same attributes |
| CacheCleaning.StepIsSimilar | cache.c:126-174 | one addition or purge keeps the two tables similar: same live parts with the same expiry |
| CacheCleaning.AddingKeepsAttrExactlyWhen | cache.c:168-193 | storing a listing or a link keeps the cached attribute of the path if and only if there is no live negative entry |
| CacheCleaning.HiddenAttrShowsExactlyWhen | cache.c:168-193 | after storing a listing or a link, similar tables show the same attribute if and only if there was no live negative entry or both hide the same attribute |
| CacheCleaning.CleaningShows | cache.c:56-75 | a run in which the sweeping table answers a zeroed attribute and the other one the old attribute |
| CacheStaleness.ServedIsRecent | cache.c:235-306 | with fetches of at most `delay` outside the lock and a server that changes by itself, a served listing or link was the server's answer no longer than timeout + delay ago, or what its reader took of it: the names a filler accepted, the text cut to a buffer |
| CacheStaleness.AttrsRecentExactlyWhen | cache.c:158-220 | for a run that can have happened, served attributes are no older than timeout + delay after every step, whatever the server did, if and only if each attribute that a listing or a link reveals at a live negative entry was asked for in this run not too long before the entry expires |
| CacheStaleness.AttrsRecentIn | cache.c:158-220 | for one history of the server, they are if and only if no listing and no link reveals an attribute that was not the server's answer recently enough |
| CacheStaleness.ServedAttrIsRecent | cache.c:201-220 | in particular in runs that store no listing and no link over a live negative entry |
| CacheStaleness.OldAttrIsServed | cache.c:193-195 | for every age there is an honest run against a server that is coherent at every moment in which a served attribute is that old |
| CacheStaleness.AnswersAreHonest | cache.c:222-306 | what the proxy stores of an answer is honest for readers with large enough buffers and fillers that take what they are said to take |
| Listing.LinesOfUnlines | ftpfs-ls.c:227-238 | cutting a listing into lines undoes joining them, for every mix of LF and CRLF; text behind the last line feed is not a line |
| Listing.CutLine | ftpfs-ls.c:233-238 | the line is cut without its ending and the rest starts behind it |
| Listing.NoteEntry | ftpfs-ls.c:249-290 | one entry updates stat buffer, link buffer, filled names and cache as specified |
| Listing.ParseLines | ftpfs-ls.c:227-293 | the loop ends with results and cache that handling the lines one by one gives |
| Listing.ParseDir | ftpfs-ls.c:203-299 | results and cache are those of all parsed entries in order; the empty name is answered with a directory and changes nothing |
| Prefetch.PrefetchIsExact | ftpfs-ls.c:227-293 | after any listing the cache answers, within the stat timeout, for every listed name what `parse_dir` asked for that name stores, the last duplicate winning |
| Prefetch.LinesSet | ftpfs-ls.c:273-281 | the last attribute stored under the key of a name is that of its last entry |
| Prefetch.LastSetShows | cache.c:137-156 | the last attribute stored under a key is the one shown, whatever else is stored or swept meanwhile |
| Prefetch.ResultIsLookup | ftpfs-ls.c:284-298 | a query finds a name exactly when it is listed, with the attributes of its last entry |
| Prefetch.FoundExactlyWhen | ftpfs-ls.c:284-298 | a query for a name, whatever it wants of it, finds it if and only if an entry has that name |
| Prefetch.AskedOnly | ftpfs-ls.c:265-288 | a query without a name finds nothing, and only what was asked for is stored |
| Prefetch.FilledInOrder | ftpfs-ls.c:273-275 | a directory request hands every name to the filler in the order of the listing |
| Prefetch.PrefixedLinks | ftpfs-ls.c:255-259 | the prefix goes in front of absolute links and of no others |
| Prefetch.FittedIsFront | ftpfs-ls.c:265-268 | the link buffer shows the front of the text, cut to one less than the buffer only if it is longer |
| Prefetch.RootIsDirectory | ftpfs-ls.c:214-220 | the empty name is a directory with mode 0755, one link and size 1024 |
| Prefetch.BufferIsLastLink | ftpfs-ls.c:265-269 | the link buffer ends with the last link of the listing, whatever its name |
| Prefetch.ReadlinkIsRightExactlyWhen | ftpfs-ls.c:252-288 | reading a listed link finds it, and gives its own text if and only if no link follows it in the listing or the last one that does shows the same text |
| Prefetch.ReadlinkGivesSibling | ftpfs.c:1174-1177 | in a directory with two different links, reading the first answers with the second |
| Prefetch.LinksFitExactlyWhen | ftpfs-ls.c:265-268 | the terminator is always written inside the link buffer if and only if no link of the listing is just as long as the buffer |
| PrefetchLinks.LinksArePrefetched | ftpfs-ls.c:252-263 | after any listing the cache answers, within the link timeout, for every listed link with its own text behind the prefix, whatever other links are listed |
| PrefetchLinks.LookupLinkIs | ftpfs-ls.c:249-263 | the text that counts is that of the last link of the name |
| ListingTruth.ListingIsProperExactlyWhen | ftpfs-ls.c:249-282 | a request answered by parsing a listing meets the conditions of cache transparency if and only if the server answers for every entry what the listing says |
| ListingTruth.OwnListingIsTrueExactlyWhen | ftpfs-ls.c:252-287 | the program's own answers agree with what its listing puts into the cache if and only if no two links have different texts and, unless the entries go to a directory filler, no name has two attributes |
| Paths.DecodeEncode | path_utils.c:31-43 | percent-decoding (section 2.1 of RFC 3986) undoes `url_encode` for every byte string |
| Paths.EncodeAppend | path_utils.c:31-43 | encoding distributes over concatenation |
| Paths.EncodeLength | path_utils.c:32-36 | the result fits the allocation, and it equals the input if and only if every character is unreserved, `:` or `/` |
| Paths.EncodedAlphabet | path_utils.c:31-43 | the encoded text consists of unreserved characters, `:`, `/` and `%`, and a character stands for itself if and only if it is unreserved, `:` or `/` |
| Paths.PlainIsUnreserved | path_utils.c:34-35 | the characters left alone are the 66 unreserved ones of section 2.3 of RFC 3986, `:` and `/` |
| Paths.UrlsDecode | path_utils.c:75-142 | the URL of a file decodes to host and path without its first character, that of a directory other than the root to the same with a slash |
| Paths.FileNameDecodes | path_utils.c:45-60 | the encoded file name decodes to what follows the last slash |
| Paths.UrlEncode | path_utils.c:31-43 | the loop fills a buffer of 3 * len + 1 bytes with the encoding and a terminator |
| Paths.DirAndNameMakeFullExactlyWhen | path_utils.c:45-142 | directory URL and file name make the full URL if and only if the only slash after the first is not right behind it |
| Keys.GetdirKeyAgreesExactlyWhen | ftpfs.c:159-160 | `parse_dir` under `ftpfs_getdir` and `cache_dirfill` build the same key if and only if neither the host nor the directory needs encoding |
| Keys.GetattrTextIsGetdirText | ftpfs.c:191-193 | `ftpfs_getattr` of an entry lists the same directory text as `ftpfs_getdir` of its directory |
| Cache.ParentOfChild | cache.c:87-99 | purging the parent of an entry's key purges exactly the directory that lists it |
| Keys.KeysAgree | cache.c:266-267 | the three keys of an entry are one string if and only if neither the host nor the directory needs encoding, and the parent of the entry is the directory |
| Keys.GetattrFillsCache | ftpfs.c:168-199 | when `ftpfs_getattr` finds an entry the cache answers with its attributes under the key of its listing, which is the path of the file if and only if neither the host nor the directory needs encoding |
| FlushedSize.FlushLeavesSizeInCache | ftpfs.c:1071-1091 | a successful flush that closed an upload, under every schedule, leaves the attribute with size `pos` in the cache under that key, and the accepted bytes on the server if nobody else wrote the file |
| FuseOpt.MatchesParameterExactlyWhen | compat/fuse_opt.c:138-157 | a template `name=` with or without a conversion matches exactly the arguments that begin with `name=` |
| FuseOpt.MatchesSpaceExactlyWhen | compat/fuse_opt.c:138-157 | a template `name` and a space matches exactly the arguments that begin with `name` |
| FuseOpt.MatchesItselfExactlyWhen | compat/fuse_opt.c:152-155 | a template without a separator matches exactly itself |
| FuseOpt.FindsTheFirst | compat/fuse_opt.c:159-166 | the template found is the first that matches, and there is none exactly when no template matches |
| FuseOptValues.MatchSets | compat/fuse_opt.c:193-253 | processing a match stores the value that the option sets and changes nothing else, and fails exactly when the conversion refuses |
| FuseOptValues.ParameterIsSet | compat/fuse_opt.c:172-213 | for `name=%s` and the option `name=v` the value is `v`, for another conversion what it scans from `v`, for `name=` the number of the template |
| FuseOptValues.FlagIsSet | compat/fuse_opt.c:209-211 | a template without a separator gives its own number |
| FuseOptValues.SpaceIsSet | compat/fuse_opt.c:215-250 | a template `name %s` gets what is attached to the name, or else the next argument, which it consumes |
| FuseOptValues.KeyIsKept | compat/fuse_opt.c:124-136 | an option whose template has no variable stays, as an argument or behind a comma in the list |
| FuseOptTheorems.JoinSplit | compat/fuse_opt.c:258-274 | the pieces of a group put together with commas are the group |
| FuseOptParser.Context.InsertArg | compat/fuse_opt.c:109-122 | appending and shifting inserts the argument at the position |
| FuseOptParser.Context.DoOpt | compat/fuse_opt.c:193-213 | one match sets its variable or keeps the argument, or fails on a bad parameter, as specified |
| FuseOptParser.Context.DoMatches | compat/fuse_opt.c:239-253 | the loop applies every matching template in order |
| FuseOptParser.Context.DoGroup | compat/fuse_opt.c:258-292 | the pieces of a group are processed in order |
| FuseOptParser.Context.DoOne | compat/fuse_opt.c:294-314 | one argument is processed as specified, with the argument after `-o` consumed |
| FuseOptParser.Context.OptParse | compat/fuse_opt.c:316-363 | the in-place parser succeeds exactly when the specification does, with its vector and variables |
| FuseOptTheorems.ParseNormalises | compat/fuse_opt.c:294-336 | for variable-setting templates, a parse succeeds if and only if the last `-o` has its list and every template accepts the parameter of every option it takes; it returns the program name, the unmatched options in order as one `-o` list, and the other arguments in order |
| FuseOptTheorems.ParseSets | compat/fuse_opt.c:193-326 | a successful parse leaves in every variable the value of the last option with a template for it, all matching templates counting, and the old value where there is none |
| FuseOptTheorems.LastOptionWins | compat/fuse_opt.c:239-253 | the same told by the positions of option and template |
| FuseOptTheorems.RunIsSorting | compat/fuse_opt.c:316-326 | from any context before `--` the run of the loop sorts the remaining arguments |
| FuseOptTheorems.SplitJoined | compat/fuse_opt.c:84-102 | a list joined with commas falls into the same options again |
| FuseOptTheorems.KeptOfNormalised | compat/fuse_opt.c:327-333 | sorting a normalised vector finds every argument in its place |
| FuseOptTheorems.ParseIsIdempotent | compat/fuse_opt.c:338-363 | parsing the result of a parse returns the same vector and sets no variable |

## Left out

- The upload handle is a value and not an object: two threads change it, so each access is one atomic step of a transition system. That a step may be taken as atomic rests on the baton result for the buffer and on single machine words for the flags; weaker memory models are not considered.
- libcurl, sockets, `select`, SSL, proxies and the options of `set_common_curl_stuff`: only the nondeterministic environment described above. A read whose list of polls is used up counts as one whose `select` failed.
- More than one client call at a time on one handle.
- Allocation failure, failure of `pthread_create` and `curl_easy_init`, `exit(1)` paths, raw pointer lifetime other than the reuse of a freed handle, fixed-size string buffers, debug output, password prompting and `main`.
- The `snprintf` into `range[15]`: offsets below 10^13 are assumed, and lengths below 2^62.
- The formats in `parse_dir_unix`, `parse_dir_win` and `parse_dir_netware`: an arbitrary function from a line to an optional name, attributes and link.
- iconv and `convert_charsets`: no codepage is configured.
- The content of the caller's link buffer beyond its terminator.
- Remote files do not change while the read model runs, neither by themselves nor by the operations that steal the connection.
- The attributes in `struct stat` other than mode, link count, size and modification time.
- `parse_dir` with the cache switched off.
- chmod, chown, mkdir, rmdir, unlink and rename in `ftpfs.c`: they steal the connection and appear as abstract changes of the server. Network errors in `ftpfs_getattr` that turn into "not found" are not modelled in the cache, whose server answers reliably.
- Changes of a file by `open` with O_TRUNC and by the end of an upload are changes from outside for cache transparency, since the proxy purges nothing for them.
- A successful `cache_write` answers the size; the cache model records only that it succeeded.
- `ftpfs_ftruncate` to a length other than 0, `ftpfs_truncate`, and the combinations of open flags other than read-only, started write and deferred write; the refusal of `ftpfs_read` on a handle that was written.
- `write_data`, `dirty`, `copied` and `buffer_file`: remnants of buffered writing.
- The `proc` callback of `fuse_opt_parse`, and `sscanf`, which is an arbitrary function. Idempotence and normalisation are for tables whose templates set variables and take their parameter after `=`; the in-place parser is modelled for all tables.
- CacheIsTransparent: its conditions are hypotheses; those on fillers, link sizes, renamed directories and reported entries have exact lemmas of their own, the others (coherence, the clock, no change behind the proxy) have not.
