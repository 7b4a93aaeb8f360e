/** RAM history, the disk queue and the disk generations through one whole life: messages
    linked, notices stored, the queue drained, the server restarted. What a page joins
    from disk and RAM is then everything either of them holds. */
module StoreLives {
  import opened Basics
  import opened Lines
  import opened WireModel
  import opened DiskScan
  import opened GenIndexes
  import opened StoreIndex
  import opened HistoryStores
  import opened WindowRings
  import opened Segments
  import opened HashChain
  import opened Resume
  import opened ChainServices

  datatype Life = Life(store: Store, queue: seq<Record>, ram: seq<string>, top: nat)

  /** `keep` is how many lines the byte cap leaves in RAM, `queued` whether the disk queue
      had room. */
  datatype Step =
    | Linked(wire: Wire, ts: string, keep: nat, queued: bool)
    | Noted(wire: Wire, ts: string, keep: nat, queued: bool)
    | Drained(reopenOk: bool, io: RotateIO, writeOk: bool)
    | Restarted(openOk: bool, keep: nat, accepts: Record -> bool)

  function RecordOf(wire: Wire, ts: string): Record {
    Record(wire.seqno, ts, "", Some(wire))
  }

  /** One line into RAM and, with room, into the queue. */
  function Put(c: Codec, l: Life, wire: Wire, ts: string, keep: nat, queued: bool): Life {
    l.(ram := LastN(l.ram + [c.marshal(wire)], keep),
       queue := if queued then l.queue + [RecordOf(wire, ts)] else l.queue)
  }

  /** The lines a restart loads into RAM. */
  function Booted(c: Codec, d: Disk, keep: nat, accepts: Record -> bool): seq<string> {
    LastN(BootTexts(c, Backfilled(LoadedRecords(c, d)), accepts), keep)
  }

  /** Where the chain resumes: the last chained height in RAM, 0 without one. */
  function LastHeight(hs: seq<nat>): nat {
    if hs == [] then 0 else hs[|hs| - 1]
  }

  function Next(c: Codec, l: Life, maxSize: nat, s: Step): Life {
    match s
    case Linked(wire, ts, keep, queued) => Put(c, l, wire, ts, keep, queued).(top := wire.height)
    case Noted(wire, ts, keep, queued) => Put(c, l, wire, ts, keep, queued)
    case Drained(reopenOk, io, writeOk) =>
      if l.queue == [] then l
      else l.(store := Apply(c, l.store, maxSize, Write(l.queue[0], reopenOk, io, writeOk)), queue := l.queue[1..])
    case Restarted(openOk, keep, accepts) =>
      var ram := Booted(c, l.store.disk, keep, accepts);
      Life(Apply(c, l.store, maxSize, Restart(openOk)), [], ram, LastHeight(HeightsOf(c, ram)))
  }

  /** A link stands at the next height and a notice at none; a restart reads the newest links
      back. */
  ghost predicate Legal(c: Codec, l: Life, s: Step) {
    match s
    case Linked(wire, _, _, _) => wire.height == l.top + 1
    case Noted(wire, _, _, _) => wire.height == 0
    case Drained(_, _, _) => true
    case Restarted(_, keep, accepts) =>
      LoadsNewest(Backfilled(LoadedRecords(c, l.store.disk)), accepts,
                  HeightsOf(c, Booted(c, l.store.disk, keep, accepts)))
  }

  /** RAM's cap keeps a link when the disk holds any, and the trip check accepts every chained
      record from the oldest link kept on. */
  ghost predicate LoadsNewest(records: seq<Record>, accepts: Record -> bool, ram: seq<nat>) {
    if ram == [] then RecHeights(records) == [] else AcceptsFrom(records, accepts, ram[0])
  }

  ghost predicate AcceptsFrom(records: seq<Record>, accepts: Record -> bool, first: nat) {
    forall i :: 0 <= i < |records| && RecHeight(records[i]) != 0 && RecHeight(records[i]) >= first ==>
      accepts(records[i])
  }

  // ---------------------------------------------------------------- what a restart loads

  function OwnHeight(rec: Record): seq<nat> {
    if RecHeight(rec) == 0 then [] else [RecHeight(rec)]
  }

  /** The chained heights of records, in order. */
  function RecHeights(records: seq<Record>): seq<nat> {
    if records == [] then [] else RecHeights(records[..|records| - 1]) + OwnHeight(records[|records| - 1])
  }

  lemma {:induction false} RecHeightsConcat(a: seq<Record>, b: seq<Record>)
    ensures RecHeights(a + b) == RecHeights(a) + RecHeights(b)
  {
    if b == [] {
      assert a + b == a;
    } else {
      assert (a + b)[..|a + b| - 1] == a + b[..|b| - 1];
      RecHeightsConcat(a, b[..|b| - 1]);
    }
  }

  lemma {:induction false} PlainHeights(recs: seq<IndexedRecord>)
    ensures RecHeights(Plain(recs)) == Heights(RecEntries(recs))
  {
    if recs != [] {
      var n := |recs| - 1;
      PlainHeights(recs[..n]);
      assert Plain(recs)[..n] == Plain(recs[..n]);
    }
  }

  lemma FileLoads(c: Codec, file: Option<Bytes>)
    requires file.Some? ==> Terminated(file.value)
    ensures RecHeights(Plain(FileRecs(c, file))) == FileHeights(c, file)
  {
    PlainHeights(FileRecs(c, file));
    if file.Some? {
      var parts := Split(file.value);
      LoadedEntries(c, parts);
      assert parts[..|parts| - 1] == CompleteLines(file.value);
    }
  }

  /** A restart reads exactly the heights paging reaches after it. */
  lemma {:induction false} LoadsWhatItServes(c: Codec, d: Disk)
    requires Settled(d)
    ensures RecHeights(LoadedRecords(c, d)) == Retained(c, d, LoadedIndex(c, d))
  {
    LoadKeeps(c, d);
    FileLoads(c, d.archive);
    FileLoads(c, d.raw);
    FileLoads(c, d.active);
    var a, n := Plain(FileRecs(c, d.archive)), Plain(FileRecs(c, d.active));
    var r := if d.archive.Some? then [] else Plain(FileRecs(c, d.raw));
    RecHeightsConcat(a + r, n);
    RecHeightsConcat(a, r);
    if d.archive.None? {
      RawShare(c, d, LoadedIndex(c, d));
    }
  }

  /** The height one numbered record brings into RAM, if the trip check lets it. */
  function ShownHeight(rec: Record, accepts: Record -> bool): seq<nat> {
    if accepts(rec) then OwnHeight(rec) else []
  }

  function ShownHeights(records: seq<Record>, accepts: Record -> bool): seq<nat> {
    if records == [] then []
    else ShownHeights(records[..|records| - 1], accepts) + ShownHeight(records[|records| - 1], accepts)
  }

  /** The line one numbered record becomes keeps its height. */
  lemma BootHeight(c: Codec, rec: Record, accepts: Record -> bool)
    requires c.Laws() && rec.seqno != 0
    ensures HeightsOf(c, BootText(c, rec, accepts)) == ShownHeight(rec, accepts)
  {
    assert HeightsOf(c, []) == [];
    match c.RecordLine(rec)
    case Some(t) =>
      OneHeight(c, t);
      if rec.wire.None? {
        assert c.unmarshal(t) == Some(SystemWire(rec.message, rec.seqno));
      } else {
        assert c.unmarshal(t) == rec.wire;
      }
    case None =>
  }

  lemma {:induction false} BootHeights(c: Codec, records: seq<Record>, accepts: Record -> bool)
    requires c.Laws() && forall i :: 0 <= i < |records| ==> records[i].seqno != 0
    ensures HeightsOf(c, BootTexts(c, records, accepts)) == ShownHeights(records, accepts)
  {
    if records != [] {
      var front, last := records[..|records| - 1], records[|records| - 1];
      BootHeights(c, front, accepts);
      BootHeight(c, last, accepts);
      HeightsConcat(c, BootTexts(c, front, accepts), BootText(c, last, accepts));
    }
  }

  lemma {:induction false} BackfillKeepsHeights(records: seq<Record>)
    ensures RecHeights(Backfilled(records)) == RecHeights(records)
  {
    if records != [] {
      var out := Backfilled(records);
      BackfillKeepsHeights(records[..|records| - 1]);
      assert out[..|out| - 1] == Backfilled(records[..|records| - 1]);
    }
  }

  /** The heights of a tail of lines are a tail of their heights. */
  lemma TailHeights(c: Codec, texts: seq<string>, keep: nat)
    ensures HeightsOf(c, LastN(texts, keep)) == LastN(HeightsOf(c, texts), |HeightsOf(c, LastN(texts, keep))|)
  {
    ChainedLastN(c, texts, keep);
    TailHeightsIn(c, Chained(c, texts), |Chained(c, LastN(texts, keep))|);
  }

  // ---------------------------------------------------------------- what the trip check lets through

  /** A chained record's height is listed; it is another only if the heights do not rise. */
  lemma {:induction false} HeightListed(records: seq<Record>, i: nat)
    requires i < |records| && RecHeight(records[i]) != 0
    ensures RecHeight(records[i]) in RecHeights(records)
  {
    if i < |records| - 1 {
      HeightListed(records[..|records| - 1], i);
    }
  }

  lemma {:induction false} ShownListed(records: seq<Record>, accepts: Record -> bool, h: nat)
    requires h in ShownHeights(records, accepts)
    ensures h in RecHeights(records) && h != 0
  {
    var front, last := records[..|records| - 1], records[|records| - 1];
    if h in ShownHeights(front, accepts) {
      ShownListed(front, accepts, h);
    }
  }

  lemma LastIsHighest(hs: seq<nat>, own: seq<nat>)
    requires StrictlyUp(hs + own) && |own| <= 1
    ensures StrictlyUp(hs) && (own != [] ==> forall h :: h in hs ==> h < own[0])
  {
    var all := hs + own;
    assert forall i :: 0 <= i < |hs| ==> all[i] == hs[i];
    assert own != [] ==> all[|hs|] == own[0];
  }

  /** Where heights rise, a height that is shown is shown by its own record. */
  lemma {:induction false} ShownByItself(records: seq<Record>, accepts: Record -> bool, i: nat)
    requires StrictlyUp(RecHeights(records)) && i < |records|
    requires RecHeight(records[i]) in ShownHeights(records, accepts)
    ensures accepts(records[i])
  {
    var front, last := records[..|records| - 1], records[|records| - 1];
    var h := RecHeight(records[i]);
    ShownListed(records, accepts, h);
    LastIsHighest(RecHeights(front), OwnHeight(last));
    if i == |front| {
      if h in ShownHeights(front, accepts) {
        ShownListed(front, accepts, h);
      }
    } else {
      HeightListed(front, i);
      ShownByItself(front, accepts, i);
    }
  }

  lemma TailPushed(all: seq<nat>, h: nat, n: nat)
    requires 0 < n <= |all| + 1
    ensures LastN(all + [h], n) == LastN(all, n - 1) + [h]
  {
  }

  /** Where every record from the oldest of the n newest shown heights on is accepted, these
      are the n newest heights of all. */
  lemma {:induction false} NewestShown(records: seq<Record>, accepts: Record -> bool, n: nat)
    requires StrictlyUp(RecHeights(records)) && n <= |ShownHeights(records, accepts)|
    requires n > 0 ==> AcceptsFrom(records, accepts, LastN(ShownHeights(records, accepts), n)[0])
    ensures n <= |RecHeights(records)| && LastN(ShownHeights(records, accepts), n) == LastN(RecHeights(records), n)
  {
    if n > 0 {
      var front, last := records[..|records| - 1], records[|records| - 1];
      var shown, all := ShownHeights(front, accepts), RecHeights(front);
      LastIsHighest(all, OwnHeight(last));
      if RecHeight(last) == 0 {
        assert shown + [] == shown && all + [] == all;
        NewestShown(front, accepts, n);
      } else if accepts(last) {
        TailPushed(shown, RecHeight(last), n);
        if n > 1 {
          assert LastN(shown, n - 1)[0] == LastN(shown + [RecHeight(last)], n)[0];
        }
        NewestShown(front, accepts, n - 1);
        TailPushed(all, RecHeight(last), n);
      } else {
        assert shown + [] == shown;
        ShownListed(front, accepts, LastN(shown, n)[0]);
        assert false;
      }
    }
  }

  /** RAM after a restart holds the newest heights of those the trip check let through. */
  lemma BootedShown(c: Codec, d: Disk, keep: nat, accepts: Record -> bool)
    requires c.Laws() && Settled(d)
    ensures var ram, records := HeightsOf(c, Booted(c, d, keep, accepts)), Backfilled(LoadedRecords(c, d));
            && |ram| <= |ShownHeights(records, accepts)| && ram == LastN(ShownHeights(records, accepts), |ram|)
            && RecHeights(records) == Retained(c, d, LoadedIndex(c, d))
  {
    var records := LoadedRecords(c, d);
    LastSeqIsMax(records);
    BootHeights(c, Backfilled(records), accepts);
    BackfillKeepsHeights(records);
    LoadsWhatItServes(c, d);
    TailHeights(c, BootTexts(c, Backfilled(records), accepts), keep);
  }

  /** Those are the newest heights on disk, where the newest links are read back. */
  lemma {:induction false} BootedHeights(c: Codec, d: Disk, keep: nat, accepts: Record -> bool)
    requires c.Laws() && Settled(d) && StrictlyUp(Retained(c, d, LoadedIndex(c, d)))
    requires LoadsNewest(Backfilled(LoadedRecords(c, d)), accepts, HeightsOf(c, Booted(c, d, keep, accepts)))
    ensures var ram := HeightsOf(c, Booted(c, d, keep, accepts));
            ram == LastN(Retained(c, d, LoadedIndex(c, d)), |ram|)
  {
    BootedShown(c, d, keep, accepts);
    NewestShown(Backfilled(LoadedRecords(c, d)), accepts, |HeightsOf(c, Booted(c, d, keep, accepts))|);
  }

  // ---------------------------------------------------------------- the invariant

  /** The heights still to be written. */
  function QueueHeights(c: Codec, queue: seq<Record>): seq<nat> {
    if queue == [] then [] else QueuedHeight(c, queue[0]) + QueueHeights(c, queue[1..])
  }

  function QueuedHeight(c: Codec, rec: Record): seq<nat> {
    if c.LineHeight(c.encode(rec)) == 0 then [] else [c.LineHeight(c.encode(rec))]
  }

  lemma {:induction false} QueueMore(c: Codec, queue: seq<Record>, rec: Record)
    ensures QueueHeights(c, queue + [rec]) == QueueHeights(c, queue) + QueuedHeight(c, rec)
  {
    if queue == [] {
      assert queue + [rec] == [rec] && [rec][1..] == [];
    } else {
      assert (queue + [rec])[1..] == queue[1..] + [rec];
      QueueMore(c, queue[1..], rec);
    }
  }

  /** The heights on disk or on their way there. */
  function Written(c: Codec, s: Store, queue: seq<Record>): seq<nat> {
    Retained(c, s.disk, s.idx) + QueueHeights(c, queue)
  }

  /** RAM holds every written height from its own first one on. */
  predicate Shared(written: seq<nat>, ram: seq<nat>) {
    ram != [] ==> forall h :: h in written && h >= ram[0] ==> h in ram
  }

  predicate Held(written: seq<nat>, ram: seq<nat>, top: nat) {
    RisesTo(written, top) && RisesTo(ram, top) && Shared(written, ram)
  }

  predicate AllWires(queue: seq<Record>) {
    forall i :: 0 <= i < |queue| ==> queue[i].wire.Some?
  }

  ghost predicate Sound(c: Codec, l: Life) {
    && Consistent(c, l.store) && PlainDisk(c, l.store.disk) && AllWires(l.queue)
    && Held(Written(c, l.store, l.queue), HeightsOf(c, l.ram), l.top)
  }

  lemma EvictHeld(written: seq<nat>, ram: seq<nat>, top: nat, n: nat)
    requires Held(written, ram, top)
    ensures Held(written, LastN(ram, n), top)
  {
    var kept := LastN(ram, n);
    if kept != [] {
      forall h | h in written && h >= kept[0] ensures h in kept {
        var i :| 0 <= i < |ram| && ram[i] == h;
        assert kept == ram[|ram| - |kept|..];
        assert kept[i - (|ram| - |kept|)] == h;
      }
    }
  }

  lemma LinkHeld(written: seq<nat>, ram: seq<nat>, top: nat, more: seq<nat>)
    requires Held(written, ram, top) && (more == [] || more == [top + 1])
    ensures Held(written + more, ram + [top + 1], top + 1)
  {
    assert forall h :: h in ram ==> h in ram + [top + 1];
    assert (ram + [top + 1])[|ram|] == top + 1;
  }

  /** Dropping written heights, or changing their place, disturbs nothing while they rise. */
  lemma FewerHeld(written: seq<nat>, fewer: seq<nat>, ram: seq<nat>, top: nat)
    requires Held(written, ram, top) && RisesTo(fewer, top) && forall h :: h in fewer ==> h in written
    ensures Held(fewer, ram, top)
  {
  }

  lemma RestartHeld(disk: seq<nat>, ram: seq<nat>, top: nat)
    requires RisesTo(disk, top) && ram == LastN(disk, |ram|) && (ram == [] ==> disk == [])
    ensures Held(disk, ram, LastHeight(ram))
  {
    if ram != [] {
      assert ram == disk[|disk| - |ram|..];
      forall h | h in disk && h >= ram[0] ensures h in ram {
        var i :| 0 <= i < |disk| && disk[i] == h;
        assert ram[i - (|disk| - |ram|)] == h;
      }
    }
  }

  /** Leaving out neighbours keeps heights rising, and adds none. */
  lemma ThinnedIsFewer(kept: seq<nat>, all: seq<nat>, top: nat)
    requires Thinned(kept, all) && RisesTo(all, top)
    ensures RisesTo(kept, top) && forall h :: h in kept ==> h in all
  {
    ThinnedRises(kept, all, top);
  }

  lemma ThinFront(kept: seq<nat>, disk: seq<nat>, rest: seq<nat>)
    requires Thinned(kept, disk)
    ensures Thinned(kept + rest, disk + rest)
  {
    var i, j :| 0 <= i <= j <= |disk| && kept == disk[..i] + disk[j..];
    assert kept + rest == (disk + rest)[..i] + (disk + rest)[j..];
  }

  /** The written heights after the front of the queue went to disk. */
  lemma DrainFewer(disk: seq<nat>, kept: seq<nat>, own: seq<nat>, rest: seq<nat>, top: nat, wrote: bool)
    requires RisesTo(disk + (own + rest), top) && Thinned(kept, disk)
    ensures var after := kept + (if wrote then own else []) + rest;
            RisesTo(after, top) && forall h :: h in after ==> h in disk + (own + rest)
  {
    if wrote {
      DrainWrote(disk, kept, own, rest, top);
    } else {
      DrainLost(disk, kept, own, rest, top);
      assert kept + [] + rest == kept + rest;
    }
  }

  lemma DrainWrote(disk: seq<nat>, kept: seq<nat>, own: seq<nat>, rest: seq<nat>, top: nat)
    requires RisesTo(disk + (own + rest), top) && Thinned(kept, disk)
    ensures RisesTo(kept + own + rest, top) && forall h :: h in kept + own + rest ==> h in disk + (own + rest)
  {
    ThinFront(kept, disk, own + rest);
    ThinnedIsFewer(kept + (own + rest), disk + (own + rest), top);
    assert kept + own + rest == kept + (own + rest);
  }

  lemma DrainLost(disk: seq<nat>, kept: seq<nat>, own: seq<nat>, rest: seq<nat>, top: nat)
    requires RisesTo(disk + (own + rest), top) && Thinned(kept, disk)
    ensures RisesTo(kept + rest, top) && forall h :: h in kept + rest ==> h in disk + (own + rest)
  {
    ThinMiddle(disk, own, rest);
    ThinnedIsFewer(disk + rest, disk + (own + rest), top);
    ThinFront(kept, disk, rest);
    ThinnedIsFewer(kept + rest, disk + rest, top);
  }

  lemma ThinMiddle(disk: seq<nat>, own: seq<nat>, rest: seq<nat>)
    ensures Thinned(disk + rest, disk + (own + rest))
  {
    var all := disk + (own + rest);
    assert disk + rest == all[..|disk|] + all[|disk| + |own|..];
  }

  // ---------------------------------------------------------------- each step keeps it

  lemma OpenPlain(c: Codec, s: Store, openOk: bool)
    requires PlainDisk(c, s.disk)
    ensures PlainDisk(c, OpenStep(s, openOk).disk)
  {
    assert CompleteLines([]) == [];
  }

  lemma RotatePlain(c: Codec, s: Store, io: RotateIO)
    requires PlainDisk(c, s.disk)
    ensures PlainDisk(c, RotateStep(s, io).0.disk)
  {
    assert CompleteLines([]) == [];
  }

  lemma AppendPlain(c: Codec, d: Disk, line: Bytes)
    requires PlainDisk(c, d) && d.active.Some? && Terminated(d.active.value) && NEWLINE !in line && c.PlainLegacy(line)
    ensures PlainDisk(c, Appended(d, line))
  {
    AppendLine(d.active.value, line);
    var lines, lines' := CompleteLines(d.active.value), CompleteLines(d.active.value + line + [NEWLINE]);
    assert lines' == lines + [line];
    assert forall i :: 0 <= i < |lines| ==> lines'[i] == lines[i];
  }

  lemma WritePlain(c: Codec, s: Store, maxSize: nat, rec: Record, reopenOk: bool, io: RotateIO, writeOk: bool)
    requires c.Laws() && Consistent(c, s) && PlainDisk(c, s.disk) && rec.wire.Some?
    ensures PlainDisk(c, WriteStep(c, s, maxSize, rec, reopenOk, io, writeOk).0.disk)
  {
    OpenPlain(c, s, reopenOk);
    var live := Reopened(s, reopenOk);
    RotatePlain(c, live, io);
    var (ready, ok) := ReadyStep(c, s, maxSize, rec, reopenOk, io);
    ReadyStepKeeps(c, s, maxSize, rec, reopenOk, io);
    assert PlainDisk(c, ready.disk);
    if ok && writeOk {
      AppendPlain(c, ready.disk, c.encode(rec));
    }
  }

  lemma PutRam(c: Codec, ram: seq<string>, wire: Wire, keep: nat, own: seq<nat>, ram': seq<string>)
    requires c.Laws() && own == (if wire.height == 0 then [] else [wire.height])
    requires ram' == LastN(ram + [c.marshal(wire)], keep)
    ensures HeightsOf(c, ram') == LastN(HeightsOf(c, ram) + own, |HeightsOf(c, ram')|)
  {
    var t := c.marshal(wire);
    assert c.TextHeight(t) == wire.height;
    OneHeight(c, t);
    HeightsConcat(c, ram, [t]);
    TailHeights(c, ram + [t], keep);
  }

  lemma PutQueue(c: Codec, s: Store, queue: seq<Record>, rec: Record)
    ensures Written(c, s, queue + [rec]) == Written(c, s, queue) + QueuedHeight(c, rec)
  {
    QueueMore(c, queue, rec);
    ConcatAssoc(Retained(c, s.disk, s.idx), QueueHeights(c, queue), QueuedHeight(c, rec));
  }

  lemma OwnHeightQueued(c: Codec, wire: Wire, ts: string)
    requires c.Laws()
    ensures QueuedHeight(c, RecordOf(wire, ts)) == []
            || QueuedHeight(c, RecordOf(wire, ts)) == if wire.height == 0 then [] else [wire.height]
    ensures c.encode(RecordOf(wire, ts)) != [] ==>
              QueuedHeight(c, RecordOf(wire, ts)) == if wire.height == 0 then [] else [wire.height]
  {
  }

  /** What one stored line does to RAM's heights and to the written ones. */
  lemma PutHeights(c: Codec, l: Life, wire: Wire, ts: string, keep: nat, queued: bool, own: seq<nat>)
    requires c.Laws() && own == if wire.height == 0 then [] else [wire.height]
    ensures var l', ram := Put(c, l, wire, ts, keep, queued), HeightsOf(c, l.ram);
            var written, written' := Written(c, l.store, l.queue), Written(c, l.store, l'.queue);
            && HeightsOf(c, l'.ram) == LastN(ram + own, |HeightsOf(c, l'.ram)|)
            && (written' == written || written' == written + own)
  {
    PutRam(c, l.ram, wire, keep, own, Put(c, l, wire, ts, keep, queued).ram);
    PutQueue(c, l.store, l.queue, RecordOf(wire, ts));
    OwnHeightQueued(c, wire, ts);
    var written := Written(c, l.store, l.queue);
    assert written + [] == written;
  }

  /** A notice may evict; a link joins both ends. */
  lemma PutHeld(written: seq<nat>, ram: seq<nat>, top: nat, own: seq<nat>, written': seq<nat>, ram': seq<nat>,
                top': nat)
    requires Held(written, ram, top) && (own == [] || own == [top + 1])
    requires written' == written || written' == written + own
    requires ram' == LastN(ram + own, |ram'|) && top' == if own == [] then top else top + 1
    ensures Held(written', ram', top')
  {
    if own == [] {
      assert ram + own == ram && written + own == written;
      EvictHeld(written, ram, top, |ram'|);
    } else {
      LinkHeld(written, ram, top, []);
      LinkHeld(written, ram, top, own);
      assert written + [] == written;
      EvictHeld(written', ram + own, top + 1, |ram'|);
    }
  }

  lemma PutBalances(c: Codec, l: Life, queue: seq<Record>, ram: seq<string>, wire: Wire, ts: string, keep: nat,
                    queued: bool, top: nat)
    requires c.Laws() && Held(Written(c, l.store, l.queue), HeightsOf(c, l.ram), l.top)
    requires wire.height == 0 || wire.height == l.top + 1
    requires top == if wire.height == 0 then l.top else wire.height
    requires queue == Put(c, l, wire, ts, keep, queued).queue && ram == Put(c, l, wire, ts, keep, queued).ram
    ensures Held(Written(c, l.store, queue), HeightsOf(c, ram), top)
  {
    var own := if wire.height == 0 then [] else [wire.height];
    PutHeights(c, l, wire, ts, keep, queued, own);
    PutHeld(Written(c, l.store, l.queue), HeightsOf(c, l.ram), l.top, own,
            Written(c, l.store, queue), HeightsOf(c, ram), top);
  }

  lemma PutKeeps(c: Codec, l: Life, wire: Wire, ts: string, keep: nat, queued: bool, top: nat)
    requires c.Laws() && Sound(c, l) && (wire.height == 0 || wire.height == l.top + 1)
    requires top == if wire.height == 0 then l.top else wire.height
    ensures Sound(c, Put(c, l, wire, ts, keep, queued).(top := top))
  {
    var l' := Put(c, l, wire, ts, keep, queued);
    PutBalances(c, l, l'.queue, l'.ram, wire, ts, keep, queued, top);
  }

  lemma DrainBalances(c: Codec, l: Life, s': Store, rest: seq<Record>, maxSize: nat, reopenOk: bool, io: RotateIO,
                      writeOk: bool)
    requires c.Laws() && Sound(c, l) && l.queue != [] && rest == l.queue[1..]
    requires s' == WriteStep(c, l.store, maxSize, l.queue[0], reopenOk, io, writeOk).0
    ensures Held(Written(c, s', rest), HeightsOf(c, l.ram), l.top)
  {
    var rec := l.queue[0];
    WriteStepKeeps(c, l.store, maxSize, rec, reopenOk, io, writeOk);
    var ok := WriteStep(c, l.store, maxSize, rec, reopenOk, io, writeOk).1;
    var own := QueuedHeight(c, rec);
    var disk := Retained(c, l.store.disk, l.store.idx);
    var kept :| Thinned(kept, disk) && Retained(c, s'.disk, s'.idx) == kept + if ok then own else [];
    DrainFewer(disk, kept, own, QueueHeights(c, rest), l.top, ok);
    FewerHeld(Written(c, l.store, l.queue), Written(c, s', rest), HeightsOf(c, l.ram), l.top);
  }

  lemma DrainKeeps(c: Codec, l: Life, maxSize: nat, op: Op, s': Store)
    requires c.Laws() && Sound(c, l) && l.queue != []
    requires op.Write? && op.rec == l.queue[0] && s' == Apply(c, l.store, maxSize, op)
    ensures Sound(c, Life(s', l.queue[1..], l.ram, l.top))
  {
    WritePlain(c, l.store, maxSize, op.rec, op.reopenOk, op.io, op.writeOk);
    ApplyKeeps(c, l.store, maxSize, op);
    DrainBalances(c, l, s', l.queue[1..], maxSize, op.reopenOk, op.io, op.writeOk);
  }

  function Rebooted(c: Codec, s: Store, openOk: bool): Store {
    OpenStep(Store(s.disk, LoadedIndex(c, s.disk), false), openOk)
  }

  /** RAM after a restart is a tail of what the restarted disk serves, which is what was read. */
  predicate ReadBack(c: Codec, s: Store, records: seq<Record>, hs: seq<nat>) {
    && hs == LastN(Retained(c, s.disk, s.idx), |hs|)
    && Retained(c, s.disk, s.idx) == RecHeights(records) && (hs == [] ==> RecHeights(records) == [])
  }

  lemma RestartReads(c: Codec, s: Store, openOk: bool, keep: nat, accepts: Record -> bool)
    requires c.Laws() && Consistent(c, s) && StrictlyUp(Retained(c, s.disk, LoadedIndex(c, s.disk)))
    requires LoadsNewest(Backfilled(LoadedRecords(c, s.disk)), accepts, HeightsOf(c, Booted(c, s.disk, keep, accepts)))
    ensures ReadBack(c, Rebooted(c, s, openOk), LoadedRecords(c, s.disk),
                     HeightsOf(c, Booted(c, s.disk, keep, accepts)))
  {
    LoadKeeps(c, s.disk);
    OpenStepKeeps(c, Store(s.disk, LoadedIndex(c, s.disk), false), openOk);
    BootedHeights(c, s.disk, keep, accepts);
    LoadsWhatItServes(c, s.disk);
    BackfillKeepsHeights(LoadedRecords(c, s.disk));
  }

  lemma RestartServesRising(c: Codec, l: Life, openOk: bool)
    requires Sound(c, l)
    ensures var s' := Rebooted(c, l.store, openOk); RisesTo(Retained(c, s'.disk, s'.idx), l.top)
    ensures StrictlyUp(Retained(c, l.store.disk, LoadedIndex(c, l.store.disk)))
  {
    LoadKeeps(c, l.store.disk);
    OpenStepKeeps(c, Store(l.store.disk, LoadedIndex(c, l.store.disk), false), openOk);
    RisesWithin(Retained(c, l.store.disk, l.store.idx), QueueHeights(c, l.queue), l.top);
    RestartRises(c, l.store, openOk, l.top);
  }

  lemma RestartRead(c: Codec, l: Life, openOk: bool, keep: nat, accepts: Record -> bool, hs: seq<nat>)
    requires c.Laws() && Sound(c, l) && Legal(c, l, Restarted(openOk, keep, accepts))
    requires hs == HeightsOf(c, Booted(c, l.store.disk, keep, accepts))
    ensures Held(Written(c, Rebooted(c, l.store, openOk), []), hs, LastHeight(hs))
  {
    var s' := Rebooted(c, l.store, openOk);
    var disk' := Retained(c, s'.disk, s'.idx);
    RestartServesRising(c, l, openOk);
    RestartReads(c, l.store, openOk, keep, accepts);
    RestartHeld(disk', hs, l.top);
    assert disk' + [] == disk';
  }

  lemma RisesWithin(a: seq<nat>, b: seq<nat>, top: nat)
    requires RisesTo(a + b, top)
    ensures RisesTo(a, top)
  {
    assert forall i :: 0 <= i < |a| ==> (a + b)[i] == a[i];
  }

  lemma RestartKeeps(c: Codec, l: Life, maxSize: nat, openOk: bool, keep: nat, accepts: Record -> bool)
    requires c.Laws() && Sound(c, l) && Legal(c, l, Restarted(openOk, keep, accepts))
    ensures Sound(c, Next(c, l, maxSize, Restarted(openOk, keep, accepts)))
  {
    ApplyKeeps(c, l.store, maxSize, Restart(openOk));
    OpenPlain(c, Store(l.store.disk, LoadedIndex(c, l.store.disk), false), openOk);
    RestartRead(c, l, openOk, keep, accepts, HeightsOf(c, Booted(c, l.store.disk, keep, accepts)));
    assert Apply(c, l.store, maxSize, Restart(openOk)) == Rebooted(c, l.store, openOk);
  }

  /** RAM that holds every height from its own first one on was read back whole from there. */
  lemma HeldIsNewest(records: seq<Record>, accepts: Record -> bool, disk: seq<nat>, ram: seq<nat>)
    requires disk == RecHeights(records) && |ram| <= |ShownHeights(records, accepts)|
    requires ram == LastN(ShownHeights(records, accepts), |ram|) && Held(disk, ram, LastHeight(ram))
    ensures LoadsNewest(records, accepts, ram)
  {
    if ram == [] {
      NoneIsZero(records);
    } else {
      forall i | 0 <= i < |records| && RecHeight(records[i]) != 0 && RecHeight(records[i]) >= ram[0]
        ensures accepts(records[i])
      {
        HeightListed(records, i);
        ShownByItself(records, accepts, i);
      }
    }
  }

  lemma {:induction false} NoneIsZero(records: seq<Record>)
    ensures RecHeights(records) != [] ==> RecHeights(records)[0] > 0
  {
    if records != [] {
      NoneIsZero(records[..|records| - 1]);
    }
  }

  /** A restart keeps the invariant if and only if it reads the newest links back: RAM's cap
      keeps one when the disk holds any, and the trip check rejects no chained record from the
      oldest link kept on. */
  lemma {:induction false} RestartKeepsIff(c: Codec, l: Life, maxSize: nat, openOk: bool, keep: nat,
                                           accepts: Record -> bool)
    requires c.Laws() && Sound(c, l)
    ensures Sound(c, Next(c, l, maxSize, Restarted(openOk, keep, accepts))) <==>
              LoadsNewest(Backfilled(LoadedRecords(c, l.store.disk)), accepts,
                          HeightsOf(c, Booted(c, l.store.disk, keep, accepts)))
  {
    var s', ram := Rebooted(c, l.store, openOk), HeightsOf(c, Booted(c, l.store.disk, keep, accepts));
    var records := Backfilled(LoadedRecords(c, l.store.disk));
    if LoadsNewest(records, accepts, ram) {
      RestartKeeps(c, l, maxSize, openOk, keep, accepts);
    }
    if Held(Written(c, s', []), ram, LastHeight(ram)) {
      RestartedDisk(c, l, openOk);
      BootedShown(c, l.store.disk, keep, accepts);
      HeldIsNewest(records, accepts, Retained(c, s'.disk, s'.idx), ram);
    }
    assert Apply(c, l.store, maxSize, Restart(openOk)) == s';
  }

  lemma RestartedDisk(c: Codec, l: Life, openOk: bool)
    requires Sound(c, l)
    ensures var s' := Rebooted(c, l.store, openOk);
            && Written(c, s', []) == Retained(c, s'.disk, s'.idx)
            && Retained(c, s'.disk, s'.idx) == Retained(c, l.store.disk, LoadedIndex(c, l.store.disk))
  {
    LoadKeeps(c, l.store.disk);
    OpenStepKeeps(c, Store(l.store.disk, LoadedIndex(c, l.store.disk), false), openOk);
    var s' := Rebooted(c, l.store, openOk);
    assert Retained(c, s'.disk, s'.idx) + [] == Retained(c, s'.disk, s'.idx);
  }

  lemma {:induction false} NextKeeps(c: Codec, l: Life, maxSize: nat, s: Step)
    requires c.Laws() && Sound(c, l) && Legal(c, l, s)
    ensures Sound(c, Next(c, l, maxSize, s))
  {
    match s
    case Linked(wire, ts, keep, queued) => PutKeeps(c, l, wire, ts, keep, queued, wire.height);
    case Noted(wire, ts, keep, queued) => PutKeeps(c, l, wire, ts, keep, queued, l.top);
    case Drained(reopenOk, io, writeOk) =>
      if l.queue != [] {
        var op := Write(l.queue[0], reopenOk, io, writeOk);
        DrainKeeps(c, l, maxSize, op, Apply(c, l.store, maxSize, op));
      }
    case Restarted(openOk, keep, accepts) => RestartKeeps(c, l, maxSize, openOk, keep, accepts);
  }

  // ---------------------------------------------------------------- every life

  function After(c: Codec, l: Life, maxSize: nat, steps: seq<Step>): Life
    decreases |steps|
  {
    if steps == [] then l else After(c, Next(c, l, maxSize, steps[0]), maxSize, steps[1..])
  }

  ghost predicate LegalRun(c: Codec, l: Life, maxSize: nat, steps: seq<Step>)
    decreases |steps|
  {
    steps == [] || (Legal(c, l, steps[0]) && LegalRun(c, Next(c, l, maxSize, steps[0]), maxSize, steps[1..]))
  }

  /** A stopped server on any store with rising heights: its life starts with a restart. */
  lemma StoppedIsSound(c: Codec, s: Store, top: nat)
    requires Consistent(c, s) && PlainDisk(c, s.disk) && RisesTo(Retained(c, s.disk, s.idx), top)
    ensures Sound(c, Life(s, [], [], top))
  {
    var disk := Retained(c, s.disk, s.idx);
    assert disk + [] == disk && HeightsOf(c, []) == [];
  }

  lemma {:induction false} EveryLife(c: Codec, l: Life, maxSize: nat, steps: seq<Step>)
    requires c.Laws() && Sound(c, l) && LegalRun(c, l, maxSize, steps)
    ensures Sound(c, After(c, l, maxSize, steps))
    decreases |steps|
  {
    if steps != [] {
      NextKeeps(c, l, maxSize, steps[0]);
      EveryLife(c, Next(c, l, maxSize, steps[0]), maxSize, steps[1..]);
    }
  }

  /** What a page is cut from: disk at a lookup level below RAM, then RAM. */
  function PageLog(c: Codec, l: Life, level: nat): seq<string> {
    Joint(c, Chained(c, DiskTexts(c, l.store.disk, l.store.idx, level)), Chained(c, l.ram))
  }

  lemma LevelIsShared(c: Codec, l: Life, level: nat)
    requires c.Laws() && Sound(c, l)
    ensures var disk, ram := HeightsOf(c, DiskTexts(c, l.store.disk, l.store.idx, level)), HeightsOf(c, l.ram);
            StrictlyUp(disk) && StrictlyUp(ram) && Shared(disk, ram)
  {
    var disk, all := HeightsOf(c, DiskTexts(c, l.store.disk, l.store.idx, level)),
        Retained(c, l.store.disk, l.store.idx);
    LevelIsTail(c, l.store.disk, l.store.idx, level);
    RisesWithin(all, QueueHeights(c, l.queue), l.top);
    assert forall h :: h in disk ==> h in all;
  }

  /** Through every life, whatever is shed, lost, rotated away or evicted: the scan of older
      pages stands on safe ground, and at every lookup level a page is cut from exactly the
      heights that the opened generations and RAM hold, each once, rising. */
  lemma {:induction false} PagesMissNothing(c: Codec, l: Life, maxSize: nat, steps: seq<Step>, level: nat, h: nat)
    requires c.Laws() && Sound(c, l) && LegalRun(c, l, maxSize, steps)
    ensures var t := After(c, l, maxSize, steps);
            && Consistent(c, t.store) && PlainDisk(c, t.store.disk)
            && StrictlyUp(Retained(c, t.store.disk, t.store.idx))
            && StrictHeights(c, Chained(c, t.ram)) && StrictHeights(c, PageLog(c, t, level))
            && (h in HeightsIn(c, PageLog(c, t, level)) <==>
                  h in HeightsOf(c, DiskTexts(c, t.store.disk, t.store.idx, level)) || h in HeightsOf(c, t.ram))
  {
    EveryLife(c, l, maxSize, steps);
    var t := After(c, l, maxSize, steps);
    RisesWithin(Retained(c, t.store.disk, t.store.idx), QueueHeights(c, t.queue), t.top);
    PageHeights(c, t, level, h);
  }

  lemma PageHeights(c: Codec, l: Life, level: nat, h: nat)
    requires c.Laws() && Sound(c, l)
    ensures StrictHeights(c, Chained(c, l.ram)) && StrictHeights(c, PageLog(c, l, level))
    ensures h in HeightsIn(c, PageLog(c, l, level)) <==>
              h in HeightsOf(c, DiskTexts(c, l.store.disk, l.store.idx, level)) || h in HeightsOf(c, l.ram)
  {
    var disk := DiskTexts(c, l.store.disk, l.store.idx, level);
    LevelIsShared(c, l, level);
    RisingIsStrict(c, disk);
    RisingIsStrict(c, l.ram);
    JointRises(c, Chained(c, disk), Chained(c, l.ram));
    JointHolds(c, Chained(c, disk), Chained(c, l.ram), h);
  }

  /** A chained height the server still holds: in RAM, or in a file the lookup level opens. */
  predicate Holds(c: Codec, l: Life, level: nat, h: nat) {
    || h in HeightsOf(c, l.ram)
    || (level >= 1 && h in FileHeights(c, l.store.disk.active))
    || (level >= 2 && h in RawHeights(c, l.store.disk, l.store.idx))
    || (level >= 3 && h in FileHeights(c, l.store.disk.archive))
  }

  lemma LevelOpens(c: Codec, l: Life, level: nat, h: nat)
    requires c.Laws() && Sound(c, l) && level >= 1
    ensures h in HeightsIn(c, PageLog(c, l, level)) <==> Holds(c, l, level, h)
  {
    PageHeights(c, l, level, h);
    LevelHolds(c, l.store.disk, l.store.idx, level);
  }

  /** The page's share of one height: it holds the height only if the height is below `before` and
      held, and it holds every such height from its own first one up, and all of them unless full. */
  predicate PageAt(c: Codec, l: Life, level: nat, before: nat, count: nat, limit: int, hs: seq<nat>, h: nat) {
    && (h in hs ==> h < before && Holds(c, l, level, h))
    && (h < before && Holds(c, l, level, h) && (count < limit || (hs != [] && hs[0] <= h)) ==> h in hs)
  }

  lemma OlderPageAt(c: Codec, l: Life, level: nat, before: nat, limit: nat, lines: seq<string>, h: nat)
    requires c.Laws() && Sound(c, l) && level >= 1 && before != 0
    requires EndsLog(c, lines, PageLog(c, l, level), before, limit)
    ensures StrictlyUp(HeightsOf(c, lines)) && PageAt(c, l, level, before, |lines|, limit, HeightsOf(c, lines), h)
  {
    PageHolds(c, lines, PageLog(c, l, level), before, limit, h);
    LevelOpens(c, l, level, h);
  }

  /** An older page, served at any point of any life: its chained heights rise, lie below `before`
      and are held; from its first one up it leaves out none that is held, and none at all unless
      it is full. */
  method OlderPage(c: Codec, store: HistoryStore, ram: seq<string>, before: nat, limit: int, level: nat, chunk: nat,
                   ghost l: Life)
    returns (lines: seq<string>)
    requires c.Laws() && Sound(c, l) && store.Valid(c) && chunk >= 1
    requires store.disk == l.store.disk && store.idx == l.store.idx && ram == l.ram
    requires before != 0 && level >= 1 && limit > 0
    ensures |lines| <= limit && StrictlyUp(HeightsOf(c, lines))
    ensures forall h: nat :: PageAt(c, l, level, before, |lines|, limit, HeightsOf(c, lines), h)
  {
    ghost var bound;
    PageHeights(c, l, level, 0);
    RisesWithin(Retained(c, l.store.disk, l.store.idx), QueueHeights(c, l.queue), l.top);
    lines, bound := CollectSegment(c, store, ram, before, limit, level, chunk);
    assert EndsLog(c, lines, PageLog(c, l, level), before, limit);
    OlderPageAt(c, l, level, before, limit, lines, 0);
    forall h: nat ensures PageAt(c, l, level, before, |lines|, limit, HeightsOf(c, lines), h) {
      OlderPageAt(c, l, level, before, limit, lines, h);
    }
  }

  // ---------------------------------------------------------------- where a restart resumes

  function WireHeights(ws: seq<Wire>): seq<nat> {
    seq(|ws|, i requires 0 <= i < |ws| => ws[i].height)
  }

  lemma {:induction false} LinksAreChained(c: Codec, lines: seq<string>)
    requires Tidy(c, lines)
    ensures WellFormed(Links(c, lines)) && WireHeights(Links(c, lines)) == HeightsOf(c, lines)
  {
    if lines != [] {
      var front, last := lines[..|lines| - 1], lines[|lines| - 1];
      assert forall i :: 0 <= i < |front| ==> front[i] == lines[i];
      LinksAreChained(c, front);
      assert lines == front + [last];
      HeightsConcat(c, front, [last]);
      OneHeight(c, last);
    }
  }

  /** The chain resumes at the height a life goes on from. */
  lemma {:induction false} ResumesAtLast(c: Codec, hs: Hasher, lines: seq<string>)
    requires Tidy(c, lines)
    ensures Resumed(c, hs, lines).1 == LastHeight(HeightsOf(c, lines))
  {
    LinksAreChained(c, lines);
    ScanTip(c, hs, lines);
    var ws := Links(c, lines);
    assert ws != [] ==> WireHeights(ws)[|ws| - 1] == ws[|ws| - 1].height;
  }

  // ---------------------------------------------------------------- calm lives

  /** Nothing is shed and no call fails; a restart comes after the queue is drained. */
  ghost predicate Calm(c: Codec, l: Life, s: Step) {
    match s
    case Linked(wire, ts, _, queued) => queued && c.encode(RecordOf(wire, ts)) != []
    case Noted(_, _, _, _) => true
    case Drained(reopenOk, io, writeOk) => reopenOk && writeOk && io == CALLS_OK
    case Restarted(_, _, _) => l.queue == []
  }

  /** Without a gap, up to `top`. */
  predicate Consecutive(hs: seq<nat>, top: nat) {
    forall i :: 0 <= i < |hs| ==> hs[i] + (|hs| - 1 - i) == top
  }

  ghost predicate Whole(c: Codec, l: Life) {
    && Consecutive(Written(c, l.store, l.queue), l.top) && Consecutive(HeightsOf(c, l.ram), l.top)
    && NoStaleAside(c, l.store)
  }

  /** No archive stands before a raw aside that still serves chained lines. */
  predicate NoStaleAside(c: Codec, s: Store) {
    s.disk.archive.Some? ==> RawHeights(c, s.disk, s.idx) == []
  }

  predicate TailOf(tail: seq<nat>, all: seq<nat>) {
    |tail| <= |all| && tail == all[|all| - |tail|..]
  }

  lemma TailConsecutive(tail: seq<nat>, all: seq<nat>, top: nat)
    requires Consecutive(all, top) && TailOf(tail, all)
    ensures Consecutive(tail, top)
  {
    assert forall i :: 0 <= i < |tail| ==> tail[i] == all[|all| - |tail| + i];
  }

  lemma MoreConsecutive(hs: seq<nat>, top: nat)
    requires Consecutive(hs, top)
    ensures Consecutive(hs + [top + 1], top + 1)
  {
  }

  lemma RotateCalm(c: Codec, s: Store)
    requires Consistent(c, s) && s.open
    ensures var (s', ok) := RotateStep(s, CALLS_OK);
            && ok && s'.open && NoStaleAside(c, s') && Retained(c, s'.disk, s'.idx) == FileHeights(c, s.disk.active)
  {
    RotateStepKeeps(c, s, CALLS_OK);
    RenameKeeps(c, s.disk, s.idx);
    ArchiveKeeps(c, Renamed(s.disk), RenamedIndex(s.idx), true);
  }

  /** A store ready for a write, whose heights are the newest of these. */
  predicate CalmReady(c: Codec, all: seq<nat>, ready: (Store, bool)) {
    && ready.1 && ready.0.open && NoStaleAside(c, ready.0)
    && TailOf(Retained(c, ready.0.disk, ready.0.idx), all)
  }

  lemma LiveReady(c: Codec, live: Store)
    requires live.open && NoStaleAside(c, live)
    ensures CalmReady(c, Retained(c, live.disk, live.idx), (live, true))
  {
  }

  lemma RotatedReady(c: Codec, live: Store)
    requires Consistent(c, live) && live.open
    ensures CalmReady(c, Retained(c, live.disk, live.idx), RotateStep(live, CALLS_OK))
  {
    RotateCalm(c, live);
    ActiveIsTail(c, live.disk, live.idx);
  }

  /** Without a failing call, a rotation leaves the newest generation, archived. */
  lemma ReadyCalm(c: Codec, s: Store, maxSize: nat, rec: Record)
    requires Consistent(c, s) && NoStaleAside(c, s)
    ensures CalmReady(c, Retained(c, s.disk, s.idx), ReadyStep(c, s, maxSize, rec, true, CALLS_OK))
  {
    ReopenedKeeps(c, s, true);
    ReopenedCalm(c, s);
    LiveReady(c, Reopened(s, true));
    RotatedReady(c, Reopened(s, true));
  }

  lemma ReopenedCalm(c: Codec, s: Store)
    requires NoStaleAside(c, s) && Consistent(c, s)
    ensures NoStaleAside(c, Reopened(s, true)) && Reopened(s, true).open && Reopened(s, true).disk.active.Some?
  {
  }

  lemma ActiveIsTail(c: Codec, d: Disk, idx: seq<GenIndex>)
    ensures TailOf(FileHeights(c, d.active), Retained(c, d, idx))
  {
  }

  /** The line goes behind the newest of these heights. */
  ghost predicate Behind(c: Codec, all: seq<nat>, s: Store, own: seq<nat>) {
    exists kept :: TailOf(kept, all) && Retained(c, s.disk, s.idx) == kept + own
  }

  lemma AppendCalm(c: Codec, s: Store, line: Bytes, all: seq<nat>)
    requires Consistent(c, s) && s.open && NoStaleAside(c, s) && NEWLINE !in line
    requires TailOf(Retained(c, s.disk, s.idx), all)
    ensures var s' := Store(Appended(s.disk, line), AppendedIndex(c, s.disk, s.idx, line), s.open);
            NoStaleAside(c, s') && Behind(c, all, s', if c.LineHeight(line) == 0 then [] else [c.LineHeight(line)])
  {
    AppendRetains(c, s.disk, s.idx, line);
    WroteMeaning(s.idx, HeightSample(c.LineHeight(line), |s.disk.active.value|));
  }

  lemma {:induction false} WriteCalm(c: Codec, s: Store, maxSize: nat, rec: Record)
    requires c.Laws() && Consistent(c, s) && NoStaleAside(c, s)
    ensures var s' := WriteStep(c, s, maxSize, rec, true, CALLS_OK, true).0;
            NoStaleAside(c, s') && Behind(c, Retained(c, s.disk, s.idx), s', QueuedHeight(c, rec))
  {
    ReadyCalm(c, s, maxSize, rec);
    ReadyStepKeeps(c, s, maxSize, rec, true, CALLS_OK);
    AppendCalm(c, ReadyStep(c, s, maxSize, rec, true, CALLS_OK).0, c.encode(rec), Retained(c, s.disk, s.idx));
  }

  lemma TailPlus(kept: seq<nat>, disk: seq<nat>, own: seq<nat>, rest: seq<nat>)
    requires TailOf(kept, disk)
    ensures TailOf((kept + own) + rest, disk + (own + rest))
  {
  }

  lemma DrainCalm(c: Codec, l: Life, maxSize: nat)
    requires c.Laws() && Sound(c, l) && Whole(c, l) && l.queue != []
    ensures Whole(c, Next(c, l, maxSize, Drained(true, CALLS_OK, true)))
  {
    var l' := Next(c, l, maxSize, Drained(true, CALLS_OK, true));
    var rec, disk := l.queue[0], Retained(c, l.store.disk, l.store.idx);
    WriteCalm(c, l.store, maxSize, rec);
    var kept :| TailOf(kept, disk) && Retained(c, l'.store.disk, l'.store.idx) == kept + QueuedHeight(c, rec);
    TailPlus(kept, disk, QueuedHeight(c, rec), QueueHeights(c, l'.queue));
    TailConsecutive(Written(c, l'.store, l'.queue), Written(c, l.store, l.queue), l.top);
  }

  lemma PutCalm(c: Codec, l: Life, queue: seq<Record>, ram: seq<string>, wire: Wire, ts: string, keep: nat,
                queued: bool, top: nat)
    requires c.Laws() && Whole(c, l)
    requires wire.height == 0 || (wire.height == l.top + 1 && queued && c.encode(RecordOf(wire, ts)) != [])
    requires top == if wire.height == 0 then l.top else wire.height
    requires queue == Put(c, l, wire, ts, keep, queued).queue && ram == Put(c, l, wire, ts, keep, queued).ram
    ensures Consecutive(Written(c, l.store, queue), top) && Consecutive(HeightsOf(c, ram), top)
  {
    var own := if wire.height == 0 then [] else [wire.height];
    PutHeights(c, l, wire, ts, keep, queued, own);
    if queued {
      PutQueue(c, l.store, l.queue, RecordOf(wire, ts));
      OwnHeightQueued(c, wire, ts);
      GrowConsecutive(Written(c, l.store, l.queue), l.top, QueuedHeight(c, RecordOf(wire, ts)), top);
    }
    GrowConsecutive(HeightsOf(c, l.ram), l.top, own, top);
    TailConsecutive(HeightsOf(c, ram), HeightsOf(c, l.ram) + own, top);
  }

  lemma GrowConsecutive(hs: seq<nat>, top: nat, own: seq<nat>, top': nat)
    requires Consecutive(hs, top) && ((own == [] && top' == top) || (own == [top + 1] && top' == top + 1))
    ensures Consecutive(hs + own, top')
  {
    if own == [] {
      assert hs + own == hs;
    } else {
      MoreConsecutive(hs, top);
    }
  }

  lemma RestartServes(c: Codec, s: Store, openOk: bool)
    requires Consistent(c, s) && NoStaleAside(c, s)
    ensures var s' := Rebooted(c, s, openOk);
            Retained(c, s'.disk, s'.idx) == Retained(c, s.disk, s.idx) && NoStaleAside(c, s')
  {
    ReloadKeepsHistory(c, s.disk, s.idx);
    LoadKeeps(c, s.disk);
    OpenStepKeeps(c, Store(s.disk, LoadedIndex(c, s.disk), false), openOk);
    if s.disk.archive.Some? && Has(s.idx, Raw) {
      assert CoversTier(c, s.disk, Entry(s.idx, Raw), Raw);
      assert |FileHeights(c, s.disk.raw)| == |FileEntries(c, s.disk.raw.value)|;
    }
  }

  lemma RestartConsecutive(disk: seq<nat>, ram: seq<nat>, top: nat)
    requires Consecutive(disk, top) && ram == LastN(disk, |ram|) && (ram == [] ==> disk == [])
    ensures Consecutive(disk, LastHeight(ram)) && Consecutive(ram, LastHeight(ram))
  {
    TailConsecutive(ram, disk, top);
    assert ram != [] ==> ram[|ram| - 1] == top;
  }

  lemma RestartCalm(c: Codec, l: Life, openOk: bool, keep: nat, accepts: Record -> bool, hs: seq<nat>)
    requires c.Laws() && Sound(c, l) && Whole(c, l) && Legal(c, l, Restarted(openOk, keep, accepts)) && l.queue == []
    requires hs == HeightsOf(c, Booted(c, l.store.disk, keep, accepts))
    ensures var s' := Rebooted(c, l.store, openOk);
            Consecutive(Written(c, s', []), LastHeight(hs)) && Consecutive(hs, LastHeight(hs)) && NoStaleAside(c, s')
  {
    var disk := Retained(c, l.store.disk, l.store.idx);
    assert disk + [] == disk;
    RestartServes(c, l.store, openOk);
    RestartServesRising(c, l, openOk);
    RestartReads(c, l.store, openOk, keep, accepts);
    RestartConsecutive(disk, hs, l.top);
  }

  lemma {:induction false} NextCalm(c: Codec, l: Life, maxSize: nat, s: Step)
    requires c.Laws() && Sound(c, l) && Whole(c, l) && Legal(c, l, s) && Calm(c, l, s)
    ensures Whole(c, Next(c, l, maxSize, s))
  {
    match s
    case Linked(wire, ts, keep, queued) =>
      PutCalm(c, l, Next(c, l, maxSize, s).queue, Next(c, l, maxSize, s).ram, wire, ts, keep, queued, wire.height);
    case Noted(wire, ts, keep, queued) =>
      PutCalm(c, l, Next(c, l, maxSize, s).queue, Next(c, l, maxSize, s).ram, wire, ts, keep, queued, l.top);
    case Drained(reopenOk, io, writeOk) => if l.queue != [] { DrainCalm(c, l, maxSize); }
    case Restarted(openOk, keep, accepts) =>
      RestartCalm(c, l, openOk, keep, accepts, HeightsOf(c, Booted(c, l.store.disk, keep, accepts)));
      assert Apply(c, l.store, maxSize, Restart(openOk)) == Rebooted(c, l.store, openOk);
  }

  ghost predicate CalmRun(c: Codec, l: Life, maxSize: nat, steps: seq<Step>)
    decreases |steps|
  {
    steps == [] || (Legal(c, l, steps[0]) && Calm(c, l, steps[0])
                    && CalmRun(c, Next(c, l, maxSize, steps[0]), maxSize, steps[1..]))
  }

  lemma {:induction false} CalmLife(c: Codec, l: Life, maxSize: nat, steps: seq<Step>)
    requires c.Laws() && Sound(c, l) && Whole(c, l) && CalmRun(c, l, maxSize, steps)
    ensures Sound(c, After(c, l, maxSize, steps)) && Whole(c, After(c, l, maxSize, steps))
    decreases |steps|
  {
    if steps != [] {
      NextKeeps(c, l, maxSize, steps[0]);
      NextCalm(c, l, maxSize, steps[0]);
      CalmLife(c, Next(c, l, maxSize, steps[0]), maxSize, steps[1..]);
    }
  }

  /** Every height between the first and the last is there. */
  predicate GapFree(hs: seq<nat>) {
    forall i, j :: 0 <= i < j < |hs| ==> hs[j] == hs[i] + (j - i)
  }

  lemma JointGapFree(disk: seq<nat>, ram: seq<nat>, kept: nat, top: nat)
    requires StrictlyUp(disk) && GapFree(disk) && Consecutive(ram, top) && kept <= |disk|
    requires if ram == [] then kept == |disk| else forall i :: 0 <= i < |disk| ==> (i < kept <==> disk[i] < ram[0])
    ensures GapFree(disk[..kept] + ram) <==> Meet(disk, ram)
  {
    var hs := disk[..kept] + ram;
    if ram != [] && disk != [] {
      if kept > 0 {
        assert hs[kept - 1] == disk[kept - 1] && hs[kept] == ram[0];
        if ram[0] <= disk[|disk| - 1] + 1 {
          assert kept < |disk| ==> disk[kept] == disk[kept - 1] + 1;
          assert kept == |disk| ==> ram[0] == disk[kept - 1] + 1;
          assert ram[0] == disk[kept - 1] + 1;
        }
      }
    }
  }

  lemma LevelGapFree(c: Codec, l: Life, level: nat)
    requires c.Laws() && Sound(c, l) && Whole(c, l)
    ensures GapFree(HeightsOf(c, DiskTexts(c, l.store.disk, l.store.idx, level)))
  {
    var disk, all := HeightsOf(c, DiskTexts(c, l.store.disk, l.store.idx, level)),
        Retained(c, l.store.disk, l.store.idx);
    LevelIsTail(c, l.store.disk, l.store.idx, level);
    assert forall i :: 0 <= i < |all| ==> Written(c, l.store, l.queue)[i] == all[i];
    assert forall i :: 0 <= i < |disk| ==> disk[i] == all[|all| - |disk| + i];
  }

  /** A server that never ran before starts whole. */
  function NewLife(): Life {
    Life(Store(Disk(None, None, None), [], false), [], [], 0)
  }

  lemma FirstLife(c: Codec)
    ensures Whole(c, NewLife()) && Sound(c, NewLife())
  {
    assert HeightsOf(c, []) == [];
  }

  /** RAM reaches down to the last height disk holds. */
  predicate Meet(disk: seq<nat>, ram: seq<nat>) {
    ram == [] || disk == [] || ram[0] <= disk[|disk| - 1] + 1
  }

  /** In every calm life, at every lookup level, pages skip no height at all if and only if
      RAM reaches down to the last height the opened generations hold. */
  lemma {:induction false} CalmPagesGapFree(c: Codec, l: Life, maxSize: nat, steps: seq<Step>, level: nat)
    requires c.Laws() && Sound(c, l) && Whole(c, l) && CalmRun(c, l, maxSize, steps)
    ensures var t := After(c, l, maxSize, steps);
            GapFree(HeightsIn(c, PageLog(c, t, level))) <==>
            Meet(HeightsOf(c, DiskTexts(c, t.store.disk, t.store.idx, level)), HeightsOf(c, t.ram))
  {
    CalmLife(c, l, maxSize, steps);
    var t := After(c, l, maxSize, steps);
    LevelGapFree(c, t, level);
    LevelIsShared(c, t, level);
    PageGapFree(c, DiskTexts(c, t.store.disk, t.store.idx, level), t.ram, t.top);
  }

  lemma PageGapFree(c: Codec, onDisk: seq<string>, inRam: seq<string>, top: nat)
    requires StrictlyUp(HeightsOf(c, onDisk)) && GapFree(HeightsOf(c, onDisk)) && Consecutive(HeightsOf(c, inRam), top)
    ensures GapFree(HeightsIn(c, Joint(c, Chained(c, onDisk), Chained(c, inRam)))) <==>
              Meet(HeightsOf(c, onDisk), HeightsOf(c, inRam))
  {
    var a, b := Chained(c, onDisk), Chained(c, inRam);
    var disk, ram := HeightsOf(c, onDisk), HeightsOf(c, inRam);
    ChainedAreChained(c, onDisk);
    ChainedAreChained(c, inRam);
    if b == [] {
      assert disk[..|disk|] + ram == disk;
      JointGapFree(disk, ram, |disk|, top);
    } else {
      var n := |Upto(c, a, c.TextHeight(b[0]))|;
      JoinAt(c, a, b, n);
      JointGapFree(disk, ram, n, top);
    }
  }

  lemma JoinAt(c: Codec, a: seq<string>, b: seq<string>, n: nat)
    requires b != [] && n == |Upto(c, a, c.TextHeight(b[0]))| && StrictlyUp(HeightsIn(c, a))
    requires (forall i :: 0 <= i < |a| ==> c.TextHeight(a[i]) != 0) && c.TextHeight(b[0]) != 0
    ensures HeightsIn(c, Joint(c, a, b)) == HeightsIn(c, a)[..n] + HeightsIn(c, b)
    ensures forall i :: 0 <= i < |a| ==> (i < n <==> HeightsIn(c, a)[i] < HeightsIn(c, b)[0])
  {
    UptoMeaning(c, a, c.TextHeight(b[0]));
    HeightsJoin(c, a[..n], b);
    assert HeightsIn(c, a[..n]) == HeightsIn(c, a)[..n];
    CutBelow(c, a, c.TextHeight(b[0]), n);
  }

  lemma HeightsJoin(c: Codec, a: seq<string>, b: seq<string>)
    ensures HeightsIn(c, a + b) == HeightsIn(c, a) + HeightsIn(c, b)
  {
  }

  lemma CutBelow(c: Codec, a: seq<string>, bound: nat, n: nat)
    requires n == |Upto(c, a, bound)| && StrictlyUp(HeightsIn(c, a)) && bound != 0
    requires forall i :: 0 <= i < |a| ==> c.TextHeight(a[i]) != 0
    ensures forall i :: 0 <= i < |a| ==> (i < n <==> HeightsIn(c, a)[i] < bound)
  {
    UptoMeaning(c, a, bound);
    var hs := HeightsIn(c, a);
    forall i | 0 <= i < |a| ensures i < n <==> hs[i] < bound {
      assert hs[i] == c.TextHeight(a[i]);
      assert n < i ==> hs[n] < hs[i];
    }
  }

  // ---------------------------------------------------------------- a page with a gap

  /** Three links with room for one line in RAM; only the first has reached the disk yet. */
  function GapRun(w1: Wire, w2: Wire, w3: Wire, ts: string): seq<Step> {
    [Linked(w1, ts, 1, true), Linked(w2, ts, 1, true), Drained(true, CALLS_OK, true), Linked(w3, ts, 1, true)]
  }

  predicate GapLinks(c: Codec, w1: Wire, w2: Wire, w3: Wire, ts: string) {
    && w1.height == 1 && w2.height == 2 && w3.height == 3
    && c.encode(RecordOf(w1, ts)) != [] && c.encode(RecordOf(w2, ts)) != [] && c.encode(RecordOf(w3, ts)) != []
  }

  lemma OneLineKept(c: Codec, ram: seq<string>, w: Wire)
    requires c.Laws() && w.height != 0
    ensures LastN(ram + [c.marshal(w)], 1) == [c.marshal(w)]
    ensures Chained(c, [c.marshal(w)]) == [c.marshal(w)] && c.TextHeight(c.marshal(w)) == w.height
  {
    assert [c.marshal(w)][1..] == [] && Chained(c, []) == [];
  }

  /** The first link on disk, the last in RAM, the second still in the queue. */
  lemma GapReached(c: Codec, maxSize: nat, w1: Wire, w2: Wire, w3: Wire, ts: string)
    requires c.Laws() && GapLinks(c, w1, w2, w3, ts)
    ensures CalmRun(c, NewLife(), maxSize, GapRun(w1, w2, w3, ts))
    ensures var t := After(c, NewLife(), maxSize, GapRun(w1, w2, w3, ts));
            t.ram == [c.marshal(w3)] && Retained(c, t.store.disk, t.store.idx) == [1]
  {
    var l0, steps := NewLife(), GapRun(w1, w2, w3, ts);
    var l1 := Next(c, l0, maxSize, steps[0]);
    var l2 := Next(c, l1, maxSize, steps[1]);
    var l3 := Next(c, l2, maxSize, steps[2]);
    OneLineKept(c, l3.ram, w3);
    assert l2.queue == [RecordOf(w1, ts), RecordOf(w2, ts)];
    FirstOnDisk(c, maxSize, w1, ts);
    RunFour(c, l0, maxSize, steps);
  }

  lemma FirstOnDisk(c: Codec, maxSize: nat, w: Wire, ts: string)
    requires c.Laws() && w.height == 1 && c.encode(RecordOf(w, ts)) != []
    ensures var s := Apply(c, NewLife().store, maxSize, Write(RecordOf(w, ts), true, CALLS_OK, true));
            Retained(c, s.disk, s.idx) == [1]
  {
    FirstLife(c);
    WriteCalm(c, NewLife().store, maxSize, RecordOf(w, ts));
    OwnHeightQueued(c, w, ts);
  }

  lemma RunFour(c: Codec, l: Life, maxSize: nat, steps: seq<Step>)
    requires |steps| == 4
    ensures var l1 := Next(c, l, maxSize, steps[0]);
            var l2 := Next(c, l1, maxSize, steps[1]);
            var l3 := Next(c, l2, maxSize, steps[2]);
            && After(c, l, maxSize, steps) == Next(c, l3, maxSize, steps[3])
            && (CalmRun(c, l, maxSize, steps) <==>
                  && Legal(c, l, steps[0]) && Calm(c, l, steps[0])
                  && Legal(c, l1, steps[1]) && Calm(c, l1, steps[1])
                  && Legal(c, l2, steps[2]) && Calm(c, l2, steps[2])
                  && Legal(c, l3, steps[3]) && Calm(c, l3, steps[3]))
  {
    var l1 := Next(c, l, maxSize, steps[0]);
    var l2 := Next(c, l1, maxSize, steps[1]);
    var l3 := Next(c, l2, maxSize, steps[2]);
    var l4 := Next(c, l3, maxSize, steps[3]);
    var s1, s2, s3 := steps[1..], steps[2..], steps[3..];
    assert s1[1..] == s2 && s2[1..] == s3 && s3[1..] == [];
    assert After(c, l3, maxSize, s3) == After(c, l4, maxSize, []) == l4;
    assert After(c, l2, maxSize, s2) == After(c, l3, maxSize, s3);
    assert After(c, l1, maxSize, s1) == After(c, l2, maxSize, s2);
    assert CalmRun(c, l3, maxSize, s3) <==>
             Legal(c, l3, steps[3]) && Calm(c, l3, steps[3]) && CalmRun(c, l4, maxSize, []);
    assert CalmRun(c, l2, maxSize, s2) <==>
             Legal(c, l2, steps[2]) && Calm(c, l2, steps[2]) && CalmRun(c, l3, maxSize, s3);
    assert CalmRun(c, l1, maxSize, s1) <==>
             Legal(c, l1, steps[1]) && Calm(c, l1, steps[1]) && CalmRun(c, l2, maxSize, s2);
  }

  /** A gap is reached even in a calm life, at the level that opens everything: the page log
      goes from height 1 to height 3. */
  lemma {:induction false} CalmPagesCanSkip(c: Codec, maxSize: nat, w1: Wire, w2: Wire, w3: Wire, ts: string)
    requires c.Laws() && GapLinks(c, w1, w2, w3, ts)
    ensures CalmRun(c, NewLife(), maxSize, GapRun(w1, w2, w3, ts))
    ensures var t := After(c, NewLife(), maxSize, GapRun(w1, w2, w3, ts));
            HeightsIn(c, PageLog(c, t, 3)) == [1, 3]
  {
    var t := After(c, NewLife(), maxSize, GapRun(w1, w2, w3, ts));
    GapReached(c, maxSize, w1, w2, w3, ts);
    FirstLife(c);
    CalmLife(c, NewLife(), maxSize, GapRun(w1, w2, w3, ts));
    LevelIsTail(c, t.store.disk, t.store.idx, 3);
    OneLineKept(c, [], w3);
    GapLog(c, Chained(c, DiskTexts(c, t.store.disk, t.store.idx, 3)), c.marshal(w3));
  }

  lemma GapLog(c: Codec, a: seq<string>, t: string)
    requires HeightsIn(c, a) == [1] && c.TextHeight(t) == 3
    ensures HeightsIn(c, Joint(c, a, [t])) == [1, 3]
  {
    assert |HeightsIn(c, a)| == |a| && c.TextHeight(a[0]) == HeightsIn(c, a)[0];
    assert a == [a[0]];
    UptoOne(c, a[0], 3);
    assert Joint(c, a, [t]) == [a[0]] + [t];
  }

  // ---------------------------------------------------------------- a restart that forgets

  predicate RejectEverything(rec: Record) {
    false
  }

  lemma {:induction false} NothingShown(c: Codec, records: seq<Record>)
    ensures BootTexts(c, records, RejectEverything) == []
  {
    if records != [] {
      NothingShown(c, records[..|records| - 1]);
    }
  }

  /** One link, written out, and a restart whose trip check rejects it. */
  function ForgetRun(w: Wire, ts: string, keep: nat): seq<Step> {
    [Linked(w, ts, keep, true), Drained(true, CALLS_OK, true), Restarted(true, keep, RejectEverything)]
  }

  lemma RunThree(c: Codec, l: Life, maxSize: nat, steps: seq<Step>)
    requires |steps| == 3
    ensures After(c, l, maxSize, steps)
         == Next(c, Next(c, Next(c, l, maxSize, steps[0]), maxSize, steps[1]), maxSize, steps[2])
  {
    var l1 := Next(c, l, maxSize, steps[0]);
    var l2 := Next(c, l1, maxSize, steps[1]);
    var s1, s2 := steps[1..], steps[2..];
    assert s1[1..] == s2 && s2[1..] == [];
    assert After(c, l1, maxSize, s1) == After(c, l2, maxSize, s2);
    assert After(c, l2, maxSize, s2) == After(c, Next(c, l2, maxSize, steps[2]), maxSize, []);
  }

  lemma OneWritten(c: Codec, maxSize: nat, w: Wire, ts: string)
    requires c.Laws() && w.height == 1 && c.encode(RecordOf(w, ts)) != []
    ensures var s := Apply(c, NewLife().store, maxSize, Write(RecordOf(w, ts), true, CALLS_OK, true));
            Consistent(c, s) && NoStaleAside(c, s) && Retained(c, s.disk, s.idx) == [1]
  {
    FirstLife(c);
    FirstOnDisk(c, maxSize, w, ts);
    WriteCalm(c, NewLife().store, maxSize, RecordOf(w, ts));
    ApplyKeeps(c, NewLife().store, maxSize, Write(RecordOf(w, ts), true, CALLS_OK, true));
  }

  lemma LinkThenDrain(c: Codec, maxSize: nat, w: Wire, ts: string, keep: nat)
    ensures Next(c, Next(c, NewLife(), maxSize, Linked(w, ts, keep, true)), maxSize,
                 Drained(true, CALLS_OK, true)).store
         == Apply(c, NewLife().store, maxSize, Write(RecordOf(w, ts), true, CALLS_OK, true))
  {
    var l := Next(c, NewLife(), maxSize, Linked(w, ts, keep, true));
    assert l.queue == [RecordOf(w, ts)] && l.store == NewLife().store;
  }

  lemma RejectedBoot(c: Codec, d: Disk, keep: nat)
    ensures HeightsOf(c, Booted(c, d, keep, RejectEverything)) == []
  {
    NothingShown(c, Backfilled(LoadedRecords(c, d)));
    assert HeightsOf(c, []) == [];
  }

  lemma NotSound(c: Codec, l: Life)
    requires l.top == 0 && Retained(c, l.store.disk, l.store.idx) == [1]
    ensures !Sound(c, l)
  {
    assert Written(c, l.store, l.queue)[0] == 1;
  }

  lemma StartsOver(c: Codec, l: Life, maxSize: nat, keep: nat)
    ensures var t := Next(c, l, maxSize, Restarted(true, keep, RejectEverything));
            t.top == 0 && t.store == Apply(c, l.store, maxSize, Restart(true))
  {
    RejectedBoot(c, l.store.disk, keep);
  }

  lemma StillServes(c: Codec, s: Store, maxSize: nat)
    requires Consistent(c, s) && NoStaleAside(c, s) && Retained(c, s.disk, s.idx) == [1]
    ensures var s' := Apply(c, s, maxSize, Restart(true)); Retained(c, s'.disk, s'.idx) == [1]
  {
    RestartServes(c, s, true);
    assert Apply(c, s, maxSize, Restart(true)) == Rebooted(c, s, true);
  }

  /** A restart that does not read the newest links back is reached: the stored link is
      rejected, and the chain begins again at the height the disk still serves. */
  lemma {:induction false} RestartCanForget(c: Codec, maxSize: nat, w: Wire, ts: string, keep: nat)
    requires c.Laws() && w.height == 1 && c.encode(RecordOf(w, ts)) != []
    ensures var t := After(c, NewLife(), maxSize, ForgetRun(w, ts, keep));
            t.top == 0 && Retained(c, t.store.disk, t.store.idx) == [1] && !Sound(c, t)
  {
    var steps := ForgetRun(w, ts, keep);
    RunThree(c, NewLife(), maxSize, steps);
    OneWritten(c, maxSize, w, ts);
    LinkThenDrain(c, maxSize, w, ts, keep);
    var l := Next(c, Next(c, NewLife(), maxSize, steps[0]), maxSize, steps[1]);
    StartsOver(c, l, maxSize, keep);
    StillServes(c, l.store, maxSize);
    NotSound(c, After(c, NewLife(), maxSize, steps));
  }
}
