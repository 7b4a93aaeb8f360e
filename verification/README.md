# V2V history chain: a verified model

V2V keeps one server-wide hash chain of chat messages. The server stores it in RAM and in
three disk generations, pages it out to clients over queues that may drop frames, and the
clients verify it link by link. This project models that chain from the disk bytes to the
client's tamper latch, in the program's own shape: objects whose methods update their
fields, loops over files and lines, and state machines over lock and timer steps. Each
method is tied to a specification function or states its result outright, and the promises
are lemmas about those specifications.

How the files fit together:

- `Basics`, `Lines`, `WireModel`: options, byte lines and torn tails, wires and disk
  records. JSON, hashing, signatures and compression are parameters; a lemma names the law
  it needs (decoding undoes encoding, encoded records hold no newline).
- `WindowRing`, `DiskScan`, `GenIndex`, `StoreIndex`, `TornFiles`, `HistoryStore`, `Segment`,
  `StoreLife`, `StoredLines`: the paged disk history. The fast reader (index sample, forward
  search, backward chunks) equals one forward stream; the index survives every append, rotation
  and restart; a merged older segment is an exact piece of what disk and RAM hold together,
  through every life of the server; what is published is what a page and a restart show.
- `ChainEncoding`, `HashChain`, `Resume`, `ChainService`, `BootOrder`, `Broadcast`,
  `ClientNumbers`, `Hub`: the hashed bytes, linking and numbering under one lock, resuming
  after a restart, tamper evidence, concurrent broadcasting as a state machine over lock
  steps, and the broadcasting object whose calls are runs of that machine.
- `Tracker`, `TrackerSafety`, `TrackerTrace`, `TrackerGenuine`, `TrackerLatch`, `Session`,
  `Refill`, `RefillRoundTrip`, `RefillSession`: the client's tip, gap refills, retries and timers.
  `Tracker` is the state machine; `Session` is the object that refines it, where a window is
  a heap object shared with its timers; `TrackerSafety` and `TrackerTrace` hold whoever feeds
  the client, `TrackerGenuine` when a genuine server does; `TrackerLatch` says in wire and tip
  fields what each wire does to the tamper latch, the tip and the refill.
- `Paging`, `LoadLoop`, `ReplayBatch`, `FrameSplit`: seq-cursor pages, the client's initial
  load, batching into frames and splitting them again.
- `VoteTotals`, `AttackSampler`, `PowScreener`, `JsonComments`, `JsonGrammar`: the vote toggle,
  the under-attack sampler, the proof-of-work screener's paired maps, and the comment stripper
  with the grammar of the texts it reads.

Where the code does not keep a promise one might read into it, the model keeps the code and
states the exact condition instead:

- A reload loses an aside that was never archived when an archive exists
  (`StoreIndex.ReloadKeepsHistory`, an if and only if; `StoreIndex.RestartCanLose` reaches it).
- Recording a chained line keeps the index equal to a rebuild exactly when the size the writer
  keeps is where the file's unfinished tail begins and the line glued to that tail keeps its
  height (`TornFiles.AppendMatchesIff`); a final newline alone is not enough
  (`TornFiles.StaleSizeMisses`). Pages stay exact either way (`TornFiles.TornSamplesAreSafe`).
- A page may skip heights still on their way to disk (`StoreLives.CalmPagesGapFree` says
  exactly when it does not, `StoreLives.CalmPagesCanSkip` is a run in which it does).
- A restart leaves RAM, disk and chain in agreement exactly when the RAM cap keeps a link if the
  disk holds any and the trip check rejects no chained record from the oldest link kept on
  (`StoreLives.RestartKeepsIff`; `StoreLives.RestartCanForget` is a run in which it does not).
- The version of the encoding is not hashed: two records of different versions can hash the
  same bytes (`ChainEncoding.CrossVersionOverlap`, `ChainEncoding.OneEncodingTwoVersions`),
  though none of the types the program links (`ChainEncoding.LinkedTypesApart`).
- Line numbers in RAM fall after a boot exactly when a numbered record that is shown falls
  back (`BootOrder.BootLinesRise`; `BootOrder.BootLinesCanFall` is a log of two such records).
- A restart resumes the log exactly when a chained line is still stored
  (`Resume.RestartContinuity`).
- The server's range lookup stops at the end of the range that starts last, so overlapping
  ranges can be cut short (`Refill.AnswerCoversAll`, `Refill.OverlappingRangesAreCut`); the
  client's own requests never are (`Refill.RunsAreCovered`).
- A forced-off attack flag can still rise for one sample, because the forced-off branch
  applies only while the flag is up (`AttackSampler.ForcedOffUpIff` says when the stored flag
  does, `AttackSampler.ForcedOffKeepsIff` when it never does, and
  `AttackSampler.ForcedOffSeenIff` when callers never see it do so).
- The sampler's ring loses an outcome inside the window exactly when one of another second
  follows it in its slot (`AttackSampler.WindowExactIff`).
- Pressing a vote button twice undoes itself, within the memory's span, exactly when the
  opposite vote was not held; past it, exactly when this very vote was
  (`VoteTotals.PressTwice`).
- Live notices are not ordered against chained lines (`Broadcast.NoticesMayBeOvertaken`); a
  client's numbers are certain to rise exactly when fan-outs to it do not overlap
  (`ClientNumbers.NumbersRiseIff`, `ClientNumbers.SafeIffNoOverlap`).
- A reused challenge identifier breaks the screener's maps
  (`PowScreeners.BooksStayStraight`).

Heights, numbers, sizes and offsets are unbounded; a digest is a number of 256 bits and the
hash a function parameter over bytes. Strings stand for the program's texts, UTF-8 encoded
where they are hashed or their bytes counted.

## Model

| member | source | states |
|---|---|---|
| DiskScan.ScanGen | server/history_store.go:661-706 | For every generation file (blank lines, malformed lines, a torn tail), bound, limit and chunk size, the seek, forward search and backward chunked read return the same lines and the same cutoff flag as one forward stream of the whole file into the window; a missing file shows nothing. Needs samples that skip no higher line, legacy text that is not itself a chained wire, and a torn tail the probe can tell from a record |
| DiskScan.StreamGen | server/history_store.go:682-706 | Streaming a generation forward shows the last `limit` rendered lines before the first chained height at or above the bound, and reports whether that height was reached |
| DiskScan.StreamForward | server/history_store.go:759-776 | A forward stream leaves the ring holding what the window over all complete lines would hold; a torn last line is never fed |
| DiskScan.SeekOffset | server/history_store.go:646-652 | The binary search lands on the last sample below the bound: the sample it names is below, and on ascending samples every later one is at or above |
| DiskScan.FindCutoff | server/history_store.go:714-754 | The offset found is the start of the first complete line at or after the seek point whose height reaches the bound; none found means none is there; a probe failure names a sample that is not a line start |
| DiskScan.CompleteEnd | server/history_store.go:854-873 | The end is moved back over exactly the torn tail, or by 65536 bytes when the tail is longer than that |
| DiskScan.LastNewline | server/history_store.go:866-866 | Finds the last newline of a buffer, or reports that there is none |
| DiskScan.CollectFrom | server/history_store.go:798-847 | The backward chunked read with its carried fragment equals splitting the file up to the end offset on newlines and keeping the last `maxLines` renderable lines, for every chunk size |
| DiskScan.CollectBackward | server/history_store.go:786-847 | The same from the settled end of the range, with the empty and non-positive cases |
| DiskScan.TakeParts | server/history_store.go:824-838 | One chunk's pieces are taken newest first until the limit, the first piece excepted |
| DiskScan.SampleAtIsSafe | server/history_store.go:720-735 | A sample at the start of a line of its height, in a file of non-decreasing heights, can be sought to without skipping any higher line |
| DiskScan.TailTexts | server/history_store.go:849-873 | Backward collection from the end of a file sees its complete lines and nothing more if and only if the torn tail is no longer than the probe, or what the probe leaves of it does not render |
| DiskScan.WindowAtCutoff | server/history_store.go:695-705 | The lines before the found cutoff are the window of the whole file |
| Lines.SplitConcat | server/history_store.go:812-822 | Splitting at newlines commutes with concatenation by gluing the two pieces at the seam: why the carried fragment is right at any chunk boundary |
| Lines.SplitAtLineStart | server/history_store.go:727-735 | At a line start the lines of a file are those before it and those after it |
| Lines.SplitMeaning | server/history_store.go:812-822 | The parts of a file hold no newline (byte 10), and put together again with a newline between each two they are the file |
| Lines.SplitIsOnlyWay | server/history_store.go:812-822 | Splitting gives back any parts without newlines that were put together so: there is no other way to split |
| WindowRings.WindowRing.Feed | server/history.go:575-597 | The circular buffer holds the last `limit` lines fed before the cutoff; the cutting line and everything after it is refused |
| WindowRings.WindowRing.Put | server/history.go:590-595 | One overwrite drops exactly the oldest line of a full ring |
| WindowRings.WindowRing.Drain | server/history.go:600-606 | Draining returns the window oldest to newest |
| WindowRings.UptoMeaning | server/history.go:572-574 | The window stops at the first chained height at or above a non-zero cutoff, and never earlier |
| WireModel.Codec.RenderKeepsHeight | server/history.go:628-643 | A record's rendered history line carries the record's chained height |
| WireModel.Codec.StoredWireShows | server/history.go:628-632 | The line of a record that holds a wire is shown as that wire's own text, and counts at its height |
| WireModel.Codec.StoredPlainShows | server/history.go:633-643 | A legacy record without a number is shown as it is, with one as a system notice of that text and number, an empty one not at all |
| StoredLines.WrittenShows | server/history_store.go:249-283 | A wire published, queued and written is the last line the active file shows, in the very text that went into RAM, for every outcome of the calls that leaves the write standing |
| StoredLines.PublishedIsPaged | server/history_store.go:661-706 | After such a write a scan of the active file, for every window and every bound that cuts none of its lines, ends with the text that was published |
| StoredLines.BootLinks | server/history.go:102-227 | The links among the lines RAM is filled with are exactly the links of the accepted records, unchanged and in order |
| StoredLines.BootLeavesIff | server/chain.go:60-134 | Booting from records that hold the links of a log leaves in RAM a suffix of that log's very links if and only if the trip check accepts every link from the oldest one in RAM on |
| StoredLines.WrittenBootIsSound | server/chain.go:60-134 | A boot from what a server wrote is therefore sound for opening a hub, wherever the trip check accepts those links |
| StoreIndex.AlwaysIndexed | server/history_store.go:249-394 | In every store state reachable by appends, rotations with any outcome of close, rename, stat, compress, remove and reopen, and restarts, each index entry describes its file exactly as a rebuild would, entries run old to new, and a file with chained lines has an entry unless it is an aside beside an archive |
| StoreIndex.AlwaysRising | server/history_store.go:249-394 | When written heights rise, the reachable heights rise strictly across generations in every such state |
| StoreIndex.RangesRise | server/history_store.go:49-52 | The height ranges the index states for two generations do not overlap: the older ends below the newer |
| StoreIndex.AppendKeeps | server/history_store.go:249-317 | Appending one record keeps the index equal to a rebuild, sample offsets included |
| StoreIndex.AppendRetains | server/history_store.go:249-289 | Appending adds exactly the record's own height to what paging can reach |
| StoreIndex.RenameKeeps | server/history_store.go:332-347 | Moving the active file aside relabels its entry and drops the clobbered one; the index stays true |
| StoreIndex.ArchiveKeeps | server/history_store.go:360-386 | Archiving the aside moves its entry to the archive without samples, whether or not the raw file could be removed |
| StoreIndex.RotateStepKeeps | server/history_store.go:319-394 | Every outcome of a rotation keeps the index true, and says exactly which generations stay reachable |
| StoreIndex.RotationMoves | server/history_store.go:319-394 | Where the bytes of all three files go in a rotation, for every outcome of close, rename, stat, compress, remove and reopen |
| StoreIndex.WriteStepKeeps | server/history_store.go:249-289 | A write keeps the index true and thins the reachable heights by at most one generation before adding its own |
| StoreIndex.FittingWriteAppends | server/history_store.go:249-283 | A record that fits the cap, or any with no cap, goes behind what the file holds, without a rotation |
| StoreIndex.FullWriteRotates | server/history_store.go:249-283 | One that does not fit starts a new file, and the full one takes the archive's place |
| StoreIndex.LoadKeeps | server/history_store.go:437-527 | The index rebuilt at load is true of the files it was read from |
| StoreIndex.ReloadKeepsHistory | server/history_store.go:463-474 | A reload keeps the reachable history if and only if there is not both an archive and an indexed un-archived aside holding chained lines: that aside is not read back |
| StoreIndex.RestartCanLose | server/history_store.go:349-366 | The losing state is reached, at any file cap that two neighbouring records exceed: three messages, the compression behind the third fails, all three heights are served, and after the next restart the middle one is gone |
| StoreIndex.ReloadThins | server/history_store.go:437-484 | Whatever a reload loses is one run of heights in the middle |
| StoreIndex.WithoutMeaning | server/history_store.go:577-588 | Dropping a generation removes its entry and no other |
| StoreIndex.RelabelMeaning | server/history_store.go:594-605 | Relabelling moves one entry to its new tier and keeps the order |
| StoreIndex.WroteMeaning | server/history_store.go:294-317 | An indexed write grows the active entry, creating it behind all older ones when missing |
| TornFiles.AppendMatchesIff | server/history_store.go:278-288 | On any file, with the size the writer keeps right or stale, recording a chained line keeps the entries equal to a rebuild if and only if that size is where the unfinished tail begins and the line glued to that tail still reads back at its own height |
| TornFiles.WholeFileMatchesIff | server/history_store.go:278-288 | Where the file ends in a newline: if and only if the kept size is the file's |
| TornFiles.UnrecordedMatchesIff | server/history_store.go:278-288 | A line without a height is not recorded, which matches a rebuild if and only if it has none behind the unfinished tail either |
| TornFiles.StaleSizeMisses | server/history_store.go:278-283 | Reached by two writes: a part left by a failed write, then a whole notice. The file ends in a newline and index and rebuild agree, but the next chained line is recorded where no line begins |
| TornFiles.TornSamplesAreSafe | server/history_store.go:273-316 | Through any mix of whole writes, short writes that leave the size stale, and reopenings, every index sample stays safe to seek to, as long as each sampled line stands above every line that reads back before it: pages stay exact where the index no longer equals a rebuild |
| GenIndexes.IndexMeaning | server/history_store.go:294-317 | Bounds are the least and greatest chained height, and samples are the first chained line and every 256th after it, (n + 255) / 256 in all, in whatever order heights come |
| GenIndexes.EntryIsSample | server/history_store.go:70-78 | An index sample is the exact byte offset of a complete line of that height |
| HistoryStores.HistoryStore.Enqueue | server/history_store.go:226-247 | A queue of 256 sheds the record and counts the drop; otherwise it is queued last |
| HistoryStores.HistoryStore.Open | server/history_store.go:114-135 | Opening creates a missing file and takes its size |
| HistoryStores.HistoryStore.IndexWrote | server/history_store.go:294-317 | Updates bounds and samples in place as the specification says |
| HistoryStores.HistoryStore.DropGen | server/history_store.go:577-588 | Filters the index in place |
| HistoryStores.HistoryStore.RelabelGen | server/history_store.go:594-605 | Relabels the first entry of a tier in place and reports whether there was one |
| HistoryStores.HistoryStore.RenameAside | server/history_store.go:332-347 | The rename's effect on files and index together, keeping the index true |
| HistoryStores.HistoryStore.ArchiveAside | server/history_store.go:360-386 | The archiving's effect on files and index together, keeping the index true |
| HistoryStores.HistoryStore.Rotate | server/history_store.go:319-394 | The whole new state and result of a rotation, for each outcome of each call; the index stays true and the size mirrors the open file |
| HistoryStores.HistoryStore.MakeReady | server/history_store.go:255-272 | Reopens a store left without a file and rotates a full one before a write; a failed reopening is counted as a drop, and nothing else is |
| HistoryStores.HistoryStore.Append | server/history_store.go:273-289 | The file grows by one line and the index learns the offset before it |
| HistoryStores.HistoryStore.WriteRecord | server/history_store.go:249-289 | The whole new state, drop counter included, and result of one write, for each outcome of each call |
| HistoryStores.HistoryStore.LoadRecords | server/history_store.go:437-484 | Reads archive, then aside unless archived, then active file, in order, and leaves the index a rebuild would give; the first one that cannot be read aborts with no records and the index of the older ones only |
| HistoryStores.HistoryStore.IndexLoaded | server/history_store.go:492-527 | One loaded generation adds the entry grown from its records in order; an empty one adds none |
| HistoryStores.LoadFile | server/history_store.go:529-560 | Every renderable record of a file with its byte offset, a last line without newline included |
| Segments.CollectSegment | server/history.go:707-734 | A page has at most `limit` lines; where RAM's heights rise, its chained lines are exactly the end, strictly below `before`, of what the files the lookup level opens and RAM hold together: in height order, none repeated, none skipped, and all of it unless the page is full. With level 0, no store, or no `before`, it is RAM's share alone |
| Segments.PageHolds | server/history.go:707-734 | What that says of single heights: they rise, stay below `before`, and from the first of them up none that is held is left out |
| Segments.SegmentIsLogSuffix | server/history.go:703-734 | The same for any stored lines with rising heights on disk and in RAM, whatever either has lost or does not open: no relation between the two is assumed |
| Segments.SeamIsExact | server/history.go:645-665 | Cutting disk at RAM's oldest height and RAM at `before` yields exactly what both hold together below `before`, for any two rising sequences |
| Segments.JointHolds | server/history.go:711-727 | What disk and RAM hold together are all heights of RAM and, of disk's, those below RAM's first |
| Segments.LevelIsTail | server/history_store.go:608-641 | The generations a lookup level opens hold the newest of the reachable heights, in order, and level 3 all of them |
| Segments.LevelHolds | server/history_store.go:608-641 | Level 0 opens no file, level 1 the active file alone, level 2 the indexed aside too, level 3 the archive as well: the chained heights reached are exactly theirs, oldest first |
| StoreLives.PagesMissNothing | server/history.go:703-734 | Through every life of links, notices, shed records, evictions, queue writes with any outcome, rotations, and restarts that read the newest links back: the scan's preconditions hold, and at every lookup level a page is cut from exactly the heights that the opened generations or RAM hold, each once, rising |
| StoreLives.OlderPage | server/history.go:703-742 | An older page served at any point of any such life: its heights rise, lie below `before` and are held in RAM or a file its level opens; from its first one up it leaves out none that is held, and none at all unless it is full |
| StoreLives.EveryLife | server/history_store.go:226-394 | The invariant behind that: RAM holds every height from its own first one on that is on disk or on its way there, through every such step |
| StoreLives.RestartKeepsIff | server/history.go:102-227 | A restart keeps that invariant if and only if it reads the newest links back: the RAM cap keeps a link when the disk holds any, and the trip check rejects no chained record from the oldest link kept on |
| StoreLives.RestartCanForget | server/history.go:136-180 | It can fail: one link, written out, and a restart whose trip check rejects it; the chain begins again at the height the disk still serves |
| StoreLives.CalmPagesGapFree | server/history.go:703-734 | In every life where nothing is shed and no call fails, pages skip no height at all if and only if RAM reaches down to the last height the opened generations hold |
| StoreLives.CalmPagesCanSkip | server/history.go:703-734 | It can fail, from a new store on: two messages, one of them written out, and a third with room for one line in RAM leave a page that goes from height 1 to height 3 |
| StoreLives.LoadsWhatItServes | server/history_store.go:437-484 | A restart reads into RAM exactly the chained heights that paging reaches after it |
| StoreLives.ResumesAtLast | server/chain.go:60-134 | The chain resumes at the height of the last chained line in RAM, 0 without one |
| Segments.WindowBefore | server/history_store.go:612-641 | Merging the capped per-generation windows, oldest first, up to the lookup level gives what one window over all those generations' lines would hold |
| Segments.OldestChained | server/history.go:649-665 | The least chained height among stored lines, 0 exactly when there is none |
| Segments.IndexedScansSafely | server/history_store.go:612-641 | In every indexed store with rising heights the samples of a raw generation are safe to seek to, so the scan's precondition holds |
| HashChain.TamperEvidence | lib/chain/chain.go:118-126 | Two verified runs ending at the same height and tip hashed the same bytes at every link and started at the same digest, or they exhibit two different byte strings with one hash |
| HashChain.BytesTellFields | lib/chain/chain.go:30-104 | Where two runs hashed the same bytes, every hashed field of every record agrees if and only if both records use one version of the encoding; for the types the program links, chat and system, that is always so |
| HashChain.HashedFieldsAre | lib/chain/chain.go:118-126 | Two wires hash the same fields if and only if text, name, type, time, trip signature, temporary number, height, link before, version and, from version 2 on, the reply reference agree |
| HashChain.SameTipSameMessages | lib/chain/chain.go:118-126 | Two verified runs of chat and system messages that end at the same height and tip say the same at every link, from the same start, or they exhibit a collision |
| ChainEncoding.SameVersionTells | lib/chain/chain.go:30-55 | Within one version the length-prefixed encoding is injective |
| ChainEncoding.CrossVersionOverlap | lib/chain/chain.go:83-104 | A version 2 and a version 1 record hash the same bytes if and only if they share start, height and sender id, the reply height is the byte length of the older type text, and the newer fields begin with that text |
| ChainEncoding.OneEncodingTwoVersions | lib/chain/chain.go:30-104 | One such pair for every position and message: a reply to height 5 of type chat, and an older record whose type text begins with the length byte 4 |
| ChainEncoding.LinkedTypesApart | lib/chain/chain.go:30-104 | Records of type chat or system never share their bytes across versions |
| HashChain.UnhashedFieldsAreFree | lib/chain/chain.go:26-55 | Sequence number, send time and tags may be rewritten at will: the run still verifies and ends at the same tip |
| HashChain.LinkExtends | server/chain.go:29-50 | Linking a message after the log's tip keeps the log a chain from its start, genesis or legacy anchor |
| HashChain.LinkFields | server/chain.go:29-50 | Every field of a linked message: what it said is kept; previous hash, height, version 2, number and the hash over the message's own fields are the link's |
| HashChain.RunAt | client/chainmeta.go:798-815 | In a verified run each link stands at its height, names the tip before it and hashes to its own |
| Resume.RestartContinuity | server/chain.go:60-134 | For any written log, begun at genesis or at a legacy anchor, with any front evicted and notices and legacy lines between, resume yields the last link's hash and height if and only if some chained line is still stored |
| Resume.OldAndNewAreOneChain | server/chain.go:29-134 | After such a resume the old links and the next new one form one chain |
| Resume.BreakIffBroken | server/chain.go:65-134 | On any log whose legacy lines stand before its links the scan flags a break if and only if some link does not continue the chain from the last legacy line's anchor, or from genesis; unbroken, it resumes at the chain's own tip and height |
| Resume.FirstLinkStartsChain | server/chain.go:119-134 | Where no link is stored yet, the next message starts a chain at the last legacy line's anchor, or at genesis |
| Resume.BackfillRises | server/history.go:105-117 | After backfilling, the numbers of the records themselves rise strictly if and only if no stored one is at or below what was handed out before it |
| Resume.LegacyThenNumbered | server/history.go:102-117 | Legacy records followed by numbered ones starting above them: the records' numbers rise strictly, and the counter ends at the last one |
| Resume.LastSeqIsMax | server/history.go:102-117 | The counter a restart continues from is the highest number any loaded record carries |
| ChainServices.ChainService.AppendMessage | server/history.go:61-83 | RAM keeps the longest tail of its lines, the new one included, that fits the byte cap |
| ChainServices.ChainService.AssignSeq | server/chain.go:55-58 | Each number is the previous one plus one |
| ChainServices.ChainService.InitChain | server/chain.go:65-134 | The in-place boot scan arrives at the tip, height and counter of the specification scan |
| ChainServices.ChainService.Link | server/chain.go:29-47 | The wire is the next link after the live or resumed tip, numbered next; tip, height and counter move to it |
| ChainServices.ChainService.LinkAndStore | server/chain.go:29-50 | One critical section links, numbers, keeps in RAM within the cap, and queues for disk the same wire: the message's own fields, standing on the live or resumed tip, with the hash of exactly those fields |
| ChainServices.ChainService.StoreSystem | server/history.go:471-483 | A notice is numbered, kept and queued in one critical section without touching the chain |
| ChainServices.ChainService.LoadHistory | server/history.go:102-227 | RAM after boot is the longest tail, within the byte cap, of the rendered, numbered, accepted records in load order; the counter is the highest number |
| BootOrder.BootLinesRise | server/history.go:102-227 | When records and their wires agree on their numbers, the numbers that the loaded RAM lines themselves carry rise if and only if no numbered record that is shown falls back behind one shown before it |
| BootOrder.BootLinesCanFall | server/chain.go:60-134 | It can fail: two numbered records, 5 before 3, load as they are |
| BootOrder.ForwardShows | server/history.go:105-117 | Records that never fall back are enough for that, and with every record shown they are needed |
| BootOrder.LegacyBootRises | server/history.go:102-117 | Legacy records followed by numbered ones starting above them: the lines they become rise |
| BootOrder.ScanCounts | server/chain.go:74-82 | The counter the boot scan arrives at is the highest number any line in RAM carries |
| BootOrder.Boot | server/history.go:102-227 | Load, then resume: RAM is the longest tail of the loaded lines within the cap, the counter stands at or above every number in RAM whatever the disk held, and the numbers in RAM rise whenever those loaded do |
| BootOrder.RemainingHeightsRise | server/chain.go:60-134 | The heights in RAM of what is left of a written log rise, up to the height the chain resumes at |
| ChainServices.NumberRecord | server/history.go:108-117 | A record without a number takes the next one, for itself and its wire; any other may raise the count |
| TrackerGenuine.HonestServerIsTrusted | client/chainmeta.go:1289-1351 | For any finite run of the server's own wires, from a chain begun at genesis or at a legacy anchor, dropped, repeated or reordered, with pages, refills, trailers and timers interleaved, the tamper latch is never set, the tip is always the log's link at the recorded height, and that height never goes down |
| TrackerGenuine.GenuineVerdict | client/chainmeta.go:798-815 | A server wire verifies exactly against the link before it, and against any other digest only reports a previous-hash mismatch |
| TrackerSafety.EveryRun | client/chainmeta.go:888-1061 | In every run, from anyone: pruning never drops anything, missing heights lie below the tip, every known hash is a former tip or hashes back to one through recovered wires, no window sends more than retries + 1 requests, and live heights recovered plus outstanding stay within the session cap |
| TrackerTrace.RecoveredHashBackToTips | client/chainmeta.go:1036-1060 | In every run, from anyone, each wire ever shown as recovered is the end of a verified run of recovered wires that starts at a tip the client stood on, even after its window has closed |
| TrackerTrace.EveryTraceEnds | client/chainmeta.go:1036-1060 | Following previous hashes from a recovered wire reaches a former tip through verified links |
| TrackerTrace.MoveTraced | client/chainmeta.go:984-1061 | Each move keeps every recovered wire traced to a former tip or another recovered wire, and no recovered height is missing again |
| TrackerSafety.RunKeeps | client/chainmeta.go:888-1161 | The invariant behind that holds through every run, and the tip height never goes down |
| TrackerSafety.MoveSound | client/chainmeta.go:984-1061 | Each of the six moves keeps every missing height anchored to a missing or known predecessor and every known hash proven |
| TrackerSafety.MoveBudgeted | client/chainmeta.go:950-978 | Each move keeps a window's attempts equal to the requests it has sent, bounded by retries + 1 |
| TrackerSafety.MoveCapped | client/chainmeta.go:996-1002 | Each move keeps recovered plus outstanding live heights within the cap |
| TrackerSafety.RequestsAreAttempts | client/chainmeta.go:1126-1148 | While a window lives, retries + 1 - attempts falls by exactly the requests sent and changes in no other way |
| TrackerSafety.DeadTimersDoNothing | client/chainmeta.go:968-976 | A timer whose generation or window is over at any point can fire as often as it likes from then on: every run goes exactly as without it |
| TrackerSafety.PruneIsIdle | client/chainmeta.go:927-944 | On an anchored window pruning drops nothing |
| Tracker.StepIsMove | client/chainmeta.go:874-1351 | Every event is one of six moves of tip and window, and only when that move is legal |
| TrackerGenuine.AnswerEmptiesWindow | client/chainmeta.go:1025-1061 | A complete answer in order, undisturbed, empties the missing set, counts every wire and fails none |
| Refill.MissingRuns | client/chainmeta.go:910-925 | The runs are ascending, non-empty, non-adjacent and cover exactly the missing heights |
| Refill.PruneKeepsAll | client/chainmeta.go:931-944 | When every missing height follows a missing or known one, nothing is unrecoverable |
| Refill.CollectRanges | server/history.go:824-868 | The answer is the first `limit` stored lines, by position in history and in its order, whose chained height lies in a valid range and not above the end of the range that starts last, and nothing asked for before the last of them is left out |
| Refill.AnswerCoversAll | server/history.go:838-840 | On every history the lookup finds all stored chained lines at the asked heights if and only if no range ends above the range that starts last |
| Refill.OverlappingRangesAreCut | server/history.go:838-858 | The ranges 1-10 and 2-3 over a stored line of height 7: the line is asked for, and the lookup leaves it out |
| Refill.RunsAreCovered | server/history.go:838-858 | The client's own separated runs are always looked for in full |
| RefillRoundTrip.FoundIsAnswer | server/history.go:841-866 | The lines found are the log's wires at exactly the asked heights that are stored, lowest first |
| RefillRoundTrip.RefillRoundTrips | client/chainmeta.go:888-1061 | Ask for the missing runs with the client's own limit, look them up, process the answer: exactly the missing lines come back, and nothing is missing any more |
| RefillSessions.RefillOnce | client/chainmeta.go:950-1161 | The same through the session object and the server's lookup: request, answer and trailer end with the window closed |
| Sessions.RecoverWindow.PruneMissing | client/chainmeta.go:931-944 | The loop over the runs removes exactly the unrecoverable heights from the missing and live sets |
| Sessions.RecoverWindow.AddGap | client/chainmeta.go:1003-1010 | The gap's heights and its anchor join the window |
| Sessions.Session.SendRecover | client/chainmeta.go:950-978 | The request's ranges cover exactly what is still missing; the new state of window, generation and timers |
| Sessions.Session.MaybeRequestRecovery | client/chainmeta.go:984-1017 | The new state for each filing (refused, over the cap, queued, asked) and whether the heights are now pending |
| Sessions.Session.CheckRecoverWire | client/chainmeta.go:1025-1061 | The new state for each fate of a wire in a refill window |
| TrackerLatch.RefillWireIff | client/chainmeta.go:1025-1061 | An answer wire that is asked for is recovered if and only if it continues what is known of its predecessor, and fails the attempt otherwise; one that is not asked for changes nothing |
| Sessions.Session.CheckChainLink | client/chainmeta.go:1289-1351 | The new state of the session for every wire: skipped, adopted, jumped over with a refill filed, or warned of; what that means in wire and tip fields is `TrackerLatch`'s |
| TrackerLatch.LatchIff | client/chainmeta.go:1289-1351 | A wire above a held tip sets the tamper latch if and only if it was set before, or the wire neither continues the tip (previous hash the tip, hash the one of its fields after the tip) nor is a well-formed jump past the next height with another previous hash |
| TrackerLatch.FirstLatchIff | client/chainmeta.go:1289-1351 | With no tip yet, if and only if it was set before or the wire is not intact on its own |
| TrackerLatch.SkippedStays | client/chainmeta.go:1289-1308 | What is not chained, and what the tip covers, changes neither latch nor tip |
| TrackerLatch.TipMovesIff | client/chainmeta.go:1309-1351 | Any other wire becomes the tip, warned of or not, if and only if its hash is well formed and, for a first tip, its previous hash too |
| TrackerLatch.GapIsAsked | client/chainmeta.go:984-1017 | A jump outside a join replay, with a connection and room under the cap: exactly the heights it skipped are missing beside what was, and one more request is out unless one is in flight or the send fails; its one condition on the window holds in every run |
| TrackerLatch.GapIsDropped | client/chainmeta.go:984-1017 | Without a connection or over the cap nothing is asked for and the gap warning is set |
| TrackerLatch.ReplayGapIsLeft | client/chainmeta.go:1322-1337 | During a join replay a jump moves the tip and asks for nothing |
| Sessions.Session.NoteChainTip | client/chainmeta.go:1235-1240 | The tip moves to the given link |
| Sessions.Session.FinishRecovery | client/chainmeta.go:1114-1149 | An attempt settles as done, to be retried by a new timer, or given up |
| TrackerLatch.FinishIff | client/chainmeta.go:1114-1149 | An attempt ends the refill if and only if nothing is missing and none failed, or the retries are used up; otherwise the window stays and a retry of it is armed |
| Sessions.Session.AbandonRecovery | client/chainmeta.go:1153-1161 | Only the window it was called for is given up |
| Sessions.Session.SettleFires | client/chainmeta.go:970-976 | A settle timer acts only for its own generation and window object |
| Sessions.Session.RetryFires | client/chainmeta.go:1132-1145 | A retry timer sends again or gives the window up, and only for its own generation and window object |
| TrackerLatch.RetryIff | client/chainmeta.go:1132-1145 | A retry of the open window sends one more request with the same heights missing; when it cannot, the window is given up |
| Sessions.Session.OnWire | client/chainmeta.go:874-886 | Older windows are display only; a live wire is checked by the refill or by the tip, and the older flag survives |
| Sessions.Session.OnTrailer | client/pump.go:298-322 | What a trailer outside the initial load settles |
| Paging.CollectAfterSeq | server/history.go:748-766 | One ascending page: by position in history and in its order, the stored wires numbered above the cursor, whatever else they say; all of them unless the page is full, none skipped up to its last, `more` exactly when another follows, and the cursor to go on from |
| Paging.CollectBeforeSeq | server/history.go:771-793 | One descending page: last one first, the stored wires numbered from 1 and below the cursor, 0 meaning from the end; all of them unless the page is full, none skipped down to its last, `more` exactly when another follows, and the cursor to go on from |
| Paging.PagesUpTile | server/history.go:748-766 | Following the cursors upward yields every line above the start exactly once, in order |
| Paging.PagesDownTile | server/history.go:771-793 | Following the cursors downward yields every line below the start exactly once, newest first |
| Paging.AfterMeaning | server/history.go:748-766 | The lines above a cursor are, by position, exactly the stored lines that decode to a wire with a higher number |
| Paging.BeforeMeaning | server/history.go:771-793 | The lines below a cursor are, last one first, exactly the stored lines that decode to a wire with a lower number other than 0 |
| Paging.PagesUpHold | server/history.go:748-766 | What a client gets by following the cursors upward is every stored wire numbered above the start, in history's order |
| Paging.PagesDownHold | server/history.go:771-793 | Downward it is every numbered stored wire below the start, last one first |
| Paging.AfterNext | server/history.go:760-764 | Going on from a page's last number skips and repeats nothing |
| Paging.DownIsUpReversed | server/history.go:748-793 | The two listings from end to end are reverses of each other |
| LoadLoop.PageProgress | client/pump.go:194-216 | Every page that does not end the load lowers (window left, retries left) lexicographically |
| LoadLoop.LoadEnds | client/pump.go:134-216 | Whatever is dropped, retried or refused, no load asks for more pages than its budget |
| LoadLoop.PageTrailerIsHonest | server/history.go:799-818 | A served page's trailer always names a first number above the cursor when it dropped lines, and a next cursor above it when more follow |
| LoadLoop.InitialLoad | client/pump.go:134-216 | The load terminates in every run; without drops, while history only grows, what it read and what it left are by position every stored wire numbered above `announced - target` (0 at least), each once in order; it stops only when everything is read, as many chained lines as the target are counted in what was shown, or the announced end is passed, and the frames show exactly what was read |
| LoadLoop.CountsEachLink | client/chainmeta.go:1289-1306 | Over frames whose checked links rise, as a server's do, the load's counter goes up by exactly their number |
| LoadLoop.CountsAsTracker | client/chainmeta.go:1289-1351 | The load's counter moves, line by line, as the tracker's does |
| LoadLoop.PageKeepsReading | client/pump.go:194-216 | What was read plus what is above the cursor stays everything above the start, page after page |
| LoadLoop.GrowthKeepsReading | client/pump.go:194-216 | Lines stored between two pages do not disturb that |
| LoadLoop.Loader.HandleHistoryInfo | client/pump.go:134-172 | The load asks from `announced - target` on, or from 0, so that `target` lines end at the announced number; a running load ignores a second announcement |
| LoadLoop.Loader.SendLoadPage | client/pump.go:176-189 | A request that cannot be sent ends the load |
| LoadLoop.Loader.OnLoadPage | client/pump.go:194-216 | Retry, go on or finish, with the exact next cursor |
| LoadLoop.Loader.FinishLoad | client/pump.go:223-275 | Held live lines land after history, in arrival order |
| LoadLoop.Loader.OnWire | client/pump.go:366-371 | A live line during a load waits; no live line is lost or reordered |
| ReplayBatch.SendReplayPage | server/history.go:913-1026 | By position in the page: left out are exactly the system wires tagged as joins or leaves, for a session that did not ask for them; what travels is chat as stored and everything else cleaned. The delivered frames hold, in order, exactly the lines the trailer counts as sent; sent plus dropped is their number; every frame obeys both caps or holds one line; the trailer's bounds are those of the lines not left out; a peer that takes everything loses nothing |
| ReplayBatch.UnfilteredMeaning | server/history.go:978-981 | Which lines stay: all but system wires tagged system.join or system.leave, and all of them for a session that wants those |
| ReplayBatch.Sender.FlushBatch | server/history.go:948-963 | A flush settles the whole batch as sent or as dropped |
| ReplayBatch.Sender.AddBatched | server/history.go:964-971 | A line joins the batch, flushing first when a cap would be passed |
| ReplayBatch.Sender.SendAlone | server/history.go:1008-1017 | A legacy line goes alone, after what is already batched |
| ReplayBatch.MaskAddsUp | server/history.go:948-963 | Kept and dropped lines add up, and with nothing dropped everything is kept |
| ReplayBatch.HeightBoundsMeaning | server/history.go:985-993 | The reported heights are the least and greatest chained height, both carried by some line |
| ReplayBatch.FirstSeqMeaning | server/history.go:994-999 | The reported first number is the first numbered line's |
| ReplayBatch.LastSeqMeaning | server/history.go:994-999 | The reported last number is the last numbered line's |
| FrameSplit.DeliveredFramesShowTheirLines | client/pump.go:469-475 | Splitting the delivered frames on newlines and skipping blanks gives back an in-order subsequence of the lines, the whole of them when nothing was dropped (JSON text holds no raw newline, section 7 of RFC 8259) |
| FrameSplit.BatchShows | client/pump.go:469-475 | A batch shows what its lines show, whatever follows it |
| FrameSplit.ReadFrame | client/pump.go:469-475 | The client's loop over a frame keeps its non-blank pieces in order |
| Broadcast.OrdersAgree | server/history.go:471-508 | In every interleaving of broadcasts, notices and registrations RAM is the tail of one log, the disk queue is that log without what was shed, numbers rise along both, and each client's live chained frames arrive in strictly increasing height |
| Broadcast.EveryInterleaving | server/history.go:471-508 | The lock-level invariant behind that holds in every reachable state |
| Broadcast.StepKeepsStoreOrder | server/chain.go:29-58 | Every step under the chain lock keeps log, RAM and disk queue in one order |
| Broadcast.StepKeepsLocks | server/history.go:501-508 | Only the holder of the broadcast lock brings out a chained line, and it is the newest |
| Broadcast.StepKeepsClients | server/history.go:260-278 | Every fan-out step keeps each client's chained frames rising and below a line still owed to it |
| Broadcast.NoticesMayBeOvertaken | server/history.go:471-483 | A concrete interleaving in which a client sees a chained line before a notice with a lower number |
| ClientNumbers.NumbersRiseIff | server/history.go:471-508 | In every reachable state a registered client's numbers rise in every continuation without overlap if and only if what it was sent rises, at most one line is still owed to it, and that line is newer than all it was sent |
| ClientNumbers.SafeIffNoOverlap | server/history.go:471-508 | A run leaves the client so after every step if and only if no line is stored in it while another is still owed to the client |
| ClientNumbers.NoOverlapNumbersRise | server/history.go:471-508 | Every run without overlap keeps the numbers of everything a client receives, chained lines and notices alike, rising |
| ClientNumbers.OverlapCanFall | server/history.go:471-508 | Every overlap can be made to show: after storing a line while another is owed to a registered client, some continuation without any further store delivers them the wrong way round |
| Hubs.HubKeepsOrder | server/history.go:260-278 | Through the program's own calls, one after another: after any broadcasts, notices, joins and leaves, numbers in RAM rise, and every client's queue holds its lines, notices included, in rising number and its chained lines in rising height |
| Hubs.Hub.Fanout | server/history.go:260-278 | Every registered client with room in its queue, but for a sender that wants no echo, ends with the line behind what it had; every other queue is as it was, and nobody comes or goes; the call is a run of the state machine |
| Hubs.SentMeans | server/history.go:260-278 | What a fan-out leaves in each queue, said queue by queue |
| Hubs.Hub.BroadcastWire | server/history.go:501-508 | One call links the message next, its own fields unchanged, stores it and puts it at the end of the queue of every registered client with room, the sender too; every other queue is as it was; it is a run of the state machine |
| Hubs.Hub.StoreSystem | server/history.go:471-483 | One call numbers a notice next, stores it and puts it at the end of the queue of every registered client with room but its sender; every other queue is as it was; it is a run of the state machine |
| Hubs.StoringIsPut | server/chain.go:29-50 | What the chain service does to RAM and counters is one atomic store step, for some number of evicted lines |
| Hubs.BootIsStart | server/chain.go:60-134 | A boot that finds what is left of one chain, with numbers that rise, opens a proper start of the state machine |
| Hubs.OpenHub | server/chain.go:60-134 | Boot and open in one: when records and wires agree, no shown record falls back and RAM is left of one chain, every order the hub promises holds from then on |
| VoteTotals.VotesAreConserved | server/history.go:355-429 | Over any run of votes, expiries and sweeps each height's upvotes are boot total plus remembered up-holders plus forgotten ones, and likewise for downvotes |
| VoteTotals.PressConserves | server/history.go:355-429 | One press keeps that balance, on any memory |
| VoteTotals.FloorIsIdle | server/history.go:371-375 | A held vote is always counted, so taking it back never meets the floor |
| VoteTotals.PressTwice | server/history.go:376-395 | Pressing twice restores the totals: within the memory's span if and only if the opposite vote was not held, past it if and only if this very vote was |
| VoteTotals.VoteBook.ApplyVote | server/history.go:355-429 | The held direction loses a vote, never below zero, and the pressed one gains it, unless it was the one held; a vote older than a day counts as none; the press is remembered with its time, and no other height's totals change |
| VoteTotals.VoteBook.Switch | server/history.go:401-415 | The old direction goes and the new one comes |
| VoteTotals.VoteBook.Sweep | server/history.go:359-365 | A memory of more than 10000 entries loses exactly those older than a day |
| AttackSampler.WindowExactIff | server/underattack.go:129-142 | The eight-slot ring reports exactly the outcomes of the five seconds ending at the sample if and only if none of them was followed by an outcome of another second in its slot; otherwise it reports fewer events than there were |
| AttackSampler.OrderlyIsIntact | server/underattack.go:67-73 | Outcomes less than eight seconds out of order, none more than three seconds past the sample, never are |
| AttackSampler.FarAheadHides | server/underattack.go:67-73 | Four seconds past the sample is too far: a concrete outcome inside the window is hidden |
| AttackSampler.FarBehindHides | server/underattack.go:67-73 | Eight seconds out of order is too far: a concrete outcome inside the window is hidden |
| AttackSampler.RisesAndFalls | server/underattack.go:153-172 | In automatic mode with at least one entry second, the flag rises exactly when it is down and that many hot samples end the sequence, and falls exactly at a cool sample later than the last hot one plus TTL |
| AttackSampler.ForcedOffUpIff | server/underattack.go:144-172 | Forced off, with an entry rule of E seconds, the flag is up exactly at the E-th hot sample in a row and at every further E + 1, one sample each time |
| AttackSampler.ForcedOffAlternates | server/underattack.go:144-172 | Forced off, with an entry rule of no seconds at all, the flag is up at every other sample |
| AttackSampler.ForcedOffKeepsIff | server/underattack.go:144-172 | Forced off keeps the stored flag down over a whole sequence if and only if no run of hot samples in it is as long as the entry rule |
| AttackSampler.ForcedOffSeenIff | server/underattack.go:108-172 | And the flag callers see, which also needs time before its expiry, if and only if that holds or the TTL is zero |
| AttackSampler.AttackState.Record | server/underattack.go:67-73 | A slot left by another second is cleared before counting |
| AttackSampler.AttackState.NoteAttempt | server/underattack.go:76-88 | One attempt, new when its address is unseen or expired; memory grows only while there is room |
| AttackSampler.AttackState.NoteReject | server/underattack.go:94-107 | One rejection of its kind |
| AttackSampler.AttackState.Sample | server/underattack.go:125-172 | The window sum, exact if and only if the window is intact; the flag's next state, hot when the queue is full or rejections exceed the rule over five seconds; forced on it is up until the TTL; and the flag reported with its expiry applied |
| JsonComments.StripJsonComments | cmd/v2vctl/config.go:754-800 | The index loop computes the stripped text and terminates, unterminated comments included |
| JsonComments.StripIsIdentityIff | cmd/v2vctl/config.go:754-800 | Stripping is the identity if and only if no comment starts outside a string |
| JsonComments.StrippedIsCommentFree | cmd/v2vctl/config.go:754-800 | No comment is ever made by closing the gap one left: an emitted slash is followed by the byte that followed it |
| JsonComments.StripIsIdempotent | cmd/v2vctl/config.go:754-800 | Stripping twice is stripping once, on every byte string |
| JsonGrammar.StripKeepsParts | cmd/v2vctl/config.go:754-800 | Said without a scanner: of a text made of plain bytes, literals of escaped pairs and other bytes, line comments and block comments, stripping leaves all but the comments, in order and byte for byte |
| JsonGrammar.EveryTextDivides | cmd/v2vctl/config.go:754-800 | Every byte string is made of such parts, with a literal or block comment left open at the end if need be, so this settles what stripping leaves of any input |
| JsonComments.LiteralsSurvive | cmd/v2vctl/config.go:762-780 | Every string literal survives byte for byte and none is added |
| JsonComments.CommentsVanish | cmd/v2vctl/config.go:781-795 | A line comment vanishes up to its newline and a block comment vanishes whole, the text around them unchanged |
| PowScreeners.BooksStayStraight | server/powscreen.go:60-157 | Every operation keeps the two maps inverse and no muted connection challenged; issuing does so if and only if its identifier is fresh or the connection's own |
| PowScreeners.LeavesExactlyOnce | server/powscreen.go:60-157 | Over every run with fresh identifiers each issued challenge is outstanding or has left the books exactly once |
| PowScreeners.MutedIff | server/powscreen.go:60-157 | After any run a connection is muted if and only if some decline or, outside an attack, overdue deadline of its challenge muted it and no new challenge, unmute or disconnect came since |
| PowScreeners.PowScreener.Issue | server/powscreen.go:60-69 | Replaces the connection's challenge and lifts its mute |
| PowScreeners.PowScreener.Resolve | server/powscreen.go:74-96 | Any result consumes the challenge; it counts only when right and in time |
| PowScreeners.PowScreener.Decline | server/powscreen.go:100-111 | Drops the challenge and mutes the connection: afterwards it is muted, has no challenge, and the identifier is off the books |
| PowScreeners.PowScreener.CheckDeadline | server/powscreen.go:129-146 | Exactly the overdue connections are kicked under attack, muted otherwise, and leave the books either way |
| PowScreeners.PowScreener.DropConn | server/powscreen.go:149-157 | Forgets everything about a connection |

## Left out

- Integer widths: heights, sequence numbers and counters are 64-bit in the program and unbounded here; only the cursor that stands for "from the end" uses the 64-bit limit.
- HistoryStores.HistoryStore.Append: the line is written whole; parts that a failed write leaves in the file are steps of `TornFiles`, on values.
- HistoryStores.HistoryStore.WriteRecord: a write that fails leaves nothing behind here; the parts it may leave are steps of `TornFiles`, on values.
- StoreIndex.AlwaysIndexed: starts from files that end in a newline; where a write left a part of a line behind, `TornFiles.AppendMatchesIff` says exactly when the next append keeps it, and pages stay exact in any case (`TornFiles.TornSamplesAreSafe`).
- StoreIndex.AlwaysRising: starts from files that end in a newline, since a line glued to a torn tail reads back as another record.
- StoreIndex.LoadKeeps: of files that end in a newline; a rebuild also takes a last line that has none, which the index then lists and a page scan does not show.
- Files changed from outside: the active file exists whenever the store has it open, so the rotation branch for a missing active file is unreachable here.
- Corrupt archives: an archive is its decompressed bytes, and a file that fails while it is read counts as unreadable.
- Disk scans beside a running writer: a scan sees one file content; the torn tail stands for the append in flight.
- fsync, directory sync and the dirty flag: they change no value read back.
- Older segments: unchained lines may repeat where disk and RAM meet, as the program says; only chained lines are proved exact.
- StoreLives.PagesMissNothing: restarts are those that read the newest links back; any other restart breaks the invariant it rests on (`StoreLives.RestartKeepsIff`).
- StoreLives.EveryLife: the same restarts, for the same reason.
- StoreLives.LoadsWhatItServes: of files that end in a newline; a restart also reads a last line that has none, which a page scan does not show.
- Refill.CollectRanges: equal range starts may sort in any order, so the scan limit is described rather than computed.
- RefillRoundTrip.RefillRoundTrips: holds within the server's own caps on ranges and lines per request, and while RAM still has every missing line; the caps themselves are not modelled.
- LoadLoop.InitialLoad: completeness is stated for history that only grows while the load runs; front eviction between two pages loses the evicted lines.
- LoadLoop.Loader: which lines are replay markers or vote totals, and so never reach the tracker, is a predicate on wires; the hold timer is one more way for the load to finish.
- The announced history window: the number it carries is any number; how the server computes it is not modelled.
- Wires of a page above the announced end are held like live lines and shown after it; the display does not merge them.
- Broadcast.EveryInterleaving: threads, the two mutexes and the read lock are steps of a state machine; writer preference of the read lock and the writer goroutine that drains the disk queue are not.
- Trip signatures, exposure flags and reveal notices at boot are one predicate on records; the trip chains themselves are not modelled.
- Persisted tips, the fork warning, echo and placeholder matching, in-place rendering of recovered lines: display and best-effort persistence.
- The identity of a refill window is a reference in `Session` and a number in `Tracker`; the number is a ghost.
- VoteTotals: the addresses behind votes are plain keys; rebuilding totals from stored vote lines and the race between totals and their broadcast are not modelled.
- AttackSampler: the scale, its floating-point baselines and the behaviour scores.
- PowScreeners: presets, salts and the proof check are one verdict; re-check timers per address are not modelled.
- Network, HTTP, goroutines, terminal and web front ends, authentication, pairing and gates: outside the chain, and mostly single-branch checks around cryptography.
