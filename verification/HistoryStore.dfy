/** The disk log as the object that owns it: queue, file handle, size and index are
    fields updated in place. The files are fields too, standing for the directory. */
module HistoryStores {
  import opened Basics
  import opened Lines
  import opened WireModel
  import opened DiskScan
  import opened GenIndexes
  import opened StoreIndex

  const QUEUE_SIZE := 256

  class HistoryStore {
    const maxSize: nat
    var disk: Disk
    var open: bool
    var size: nat
    var idx: seq<GenIndex>
    var queue: seq<Record>
    var closed: bool
    var drops: nat

    ghost function State(): Store
      reads this
    {
      Store(disk, idx, open)
    }

    /** The index is true, and the size mirrors the open file. */
    ghost predicate Valid(c: Codec)
      reads this
    {
      && Consistent(c, State())
      && (open ==> size == |disk.active.value|)
      && (disk.active.None? ==> size == 0)
    }

    /** Boot: rebuild the index from whatever whole-line files are there. */
    constructor (c: Codec, disk: Disk, maxSize: nat)
      requires Settled(disk)
      ensures Valid(c) && fresh(this) && this.disk == disk && this.maxSize == maxSize
      ensures idx == LoadedIndex(c, disk) && !open && queue == [] && !closed && drops == 0
    {
      this.disk, this.maxSize := disk, maxSize;
      open, size, queue, closed, drops := false, 0, [], false, 0;
      idx := LoadedIndex(c, disk);
      LoadKeeps(c, disk);
    }

    /** Queues a record for the writer, shedding it when the queue is full. */
    method Enqueue(rec: Record)
      modifies this`queue, this`drops
      ensures queue == if !closed && |old(queue)| < 256 then old(queue) + [rec] else old(queue)
      ensures drops == if !closed && |old(queue)| >= 256 then old(drops) + 1 else old(drops)
    {
      if closed {
        return;
      }
      if |queue| < QUEUE_SIZE {
        queue := queue + [rec];
      } else {
        drops := drops + 1;
      }
    }

    method Open(c: Codec, openOk: bool) returns (ok: bool)
      requires Valid(c) && !open
      modifies this`disk, this`open, this`size
      ensures Valid(c) && ok == openOk == open
      ensures State() == OpenStep(old(State()), openOk)
    {
      OpenStepKeeps(c, State(), openOk);
      if disk.active.Some? {
        size := |disk.active.value|;
      }
      if !openOk {
        return false;
      }
      if disk.active.None? {
        disk := disk.(active := Some([]));
      }
      open := true;
      return true;
    }

    method IndexWrote(height: nat, offset: nat)
      modifies this`idx
      ensures idx == Wrote(old(idx), HeightSample(height, offset))
    {
      var g := EmptyGen(Active);
      var rest := idx;
      if |idx| > 0 && idx[|idx| - 1].tier == Active {
        g, rest := idx[|idx| - 1], idx[..|idx| - 1];
      }
      if !g.chained {
        g := g.(chained := true, minH := height, maxH := height);
      } else {
        if height < g.minH {
          g := g.(minH := height);
        }
        if height > g.maxH {
          g := g.(maxH := height);
        }
      }
      if g.sinceSample % SAMPLE_STRIDE == 0 {
        g := g.(samples := g.samples + [HeightSample(height, offset)]);
      }
      g := g.(sinceSample := g.sinceSample + 1);
      idx := rest + [g];
    }

    method DropGen(t: Tier)
      modifies this`idx
      ensures idx == Without(old(idx), t)
    {
      var kept := [];
      var was := idx;
      assert was[0..] == was;
      for i := 0 to |was|
        invariant kept + Without(was[i..], t) == Without(was, t)
      {
        assert was[i..] == [was[i]] + was[i + 1..];
        if was[i].tier != t {
          kept := kept + [was[i]];
        }
      }
      idx := kept;
    }

    method RelabelGen(from: Tier, to: Tier) returns (moved: bool)
      modifies this`idx
      ensures idx == Relabel(old(idx), from, to)
      ensures moved == Has(old(idx), from)
    {
      for i := 0 to |idx|
        invariant idx == old(idx) && forall k :: 0 <= k < i ==> idx[k].tier != from
      {
        if idx[i].tier == from {
          RelabelAt(idx, i, from, to);
          idx := idx[i := Relabeled(idx[i], to)];
          return true;
        }
      }
      RelabelAt(idx, |idx|, from, to);
      return false;
    }

    /** The rename clobbers any raw aside and moves the active file there intact. */
    method RenameAside(c: Codec)
      requires Indexed(c, disk, idx) && disk.active.Some?
      modifies this`disk, this`idx
      ensures disk == Renamed(old(disk)) && idx == RenamedIndex(old(idx))
      ensures Indexed(c, disk, idx) && Has(idx, Raw)
    {
      RenameKeeps(c, disk, idx);
      disk := Disk(None, disk.active, disk.archive);
      DropGen(Raw);
      var moved := RelabelGen(Active, Raw);
      if !moved {
        NotThere(Without(old(idx), Raw), Active);
        RelabelAt(Without(old(idx), Raw), |Without(old(idx), Raw)|, Active, Raw);
        idx := idx + [EmptyGen(Raw)];
      }
    }

    /** The compressed aside clobbers the archive; removing the aside may still fail. */
    method ArchiveAside(c: Codec, removeOk: bool)
      requires Indexed(c, disk, idx) && Has(idx, Raw) && disk.active.None?
      modifies this`disk, this`idx
      ensures disk == Archived(old(disk), removeOk) && idx == ArchivedIndex(old(idx))
      ensures Indexed(c, disk, idx)
    {
      ArchiveKeeps(c, disk, idx, removeOk);
      disk := disk.(archive := disk.raw);
      if removeOk {
        disk := disk.(raw := None);
      }
      DropGen(Archive);
      var moved := RelabelGen(Raw, Archive);
    }

    /** Rotates the active file out; every call may fail on its own. */
    method Rotate(c: Codec, io: RotateIO) returns (ok: bool)
      requires Valid(c) && open
      modifies this`disk, this`open, this`size, this`idx
      ensures Valid(c) && (ok ==> open)
      ensures (State(), ok) == RotateStep(old(State()), io)
    {
      open, size := false, 0;
      if !io.closeOk {
        return false;
      }
      if !io.renameOk {
        return false;
      }
      RenameAside(c);
      if io.statOk && io.compressOk {
        ArchiveAside(c, io.removeOk);
        if !io.removeOk {
          return false;
        }
      }
      ok := Open(c, io.openOk);
    }

    /** Reopens a store left fileless by an earlier failure, and rotates a full file. */
    method MakeReady(c: Codec, rec: Record, reopenOk: bool, io: RotateIO) returns (ok: bool)
      requires Valid(c)
      modifies this`disk, this`open, this`size, this`idx, this`drops
      ensures Valid(c) && (ok ==> open)
      ensures (State(), ok) == ReadyStep(c, old(State()), maxSize, rec, reopenOk, io)
      ensures drops == old(drops) + if !old(open) && !reopenOk then 1 else 0
    {
      if !open {
        var up := Open(c, reopenOk);
        if !up {
          drops := drops + 1;
          return false;
        }
      }
      if maxSize > 0 && size + |c.encode(rec)| + 1 > maxSize {
        ok := Rotate(c, io);
        return;
      }
      return true;
    }

    /** Appends one record, reopening and rotating as needed, and indexes it. */
    method WriteRecord(c: Codec, rec: Record, reopenOk: bool, io: RotateIO, writeOk: bool) returns (ok: bool)
      requires c.Laws() && Valid(c)
      modifies this`disk, this`open, this`size, this`idx, this`drops
      ensures Valid(c)
      ensures (State(), ok) == WriteStep(c, old(State()), maxSize, rec, reopenOk, io, writeOk)
      ensures drops == old(drops) + if !old(open) && !reopenOk then 1 else 0
    {
      ok := MakeReady(c, rec, reopenOk, io);
      if !ok || !writeOk {
        return false;
      }
      Append(c, c.encode(rec));
      return true;
    }

    /** The write itself: the index learns the file size before it as the line's offset. */
    method Append(c: Codec, line: Bytes)
      requires Valid(c) && open && NEWLINE !in line
      modifies this`disk, this`size, this`idx
      ensures Valid(c)
      ensures State() == Store(Appended(old(disk), line), AppendedIndex(c, old(disk), old(idx), line), true)
    {
      AppendKeeps(c, disk, idx, line);
      var offset := size;
      disk := disk.(active := Some(disk.active.value + line + [NEWLINE]));
      size := size + |line| + 1;
      var h := c.LineHeight(line);
      if h != 0 {
        IndexWrote(h, offset);
      }
    }

    /** Reads the generations back and rebuilds the index from nothing. The first generation
        that cannot be read aborts it: no records, and an index of the older ones only. */
    method LoadRecords(c: Codec, readOk: Tier -> bool) returns (records: seq<Record>, ok: bool)
      requires Valid(c)
      modifies this`idx
      ensures ok == Readable(disk, readOk)
      ensures ok ==> Valid(c) && idx == LoadedIndex(c, disk) && records == LoadedRecords(c, disk)
      ensures !ok ==> records == [] && idx == ReadIndex(c, disk, readOk)
    {
      idx, records, ok := [], [], false;
      var zstOk := false;
      if disk.archive.Some? {
        if !readOk(Archive) {
          return [], false;
        }
        var recs := LoadOne(c, Archive, disk.archive.value);
        records := recs;
        zstOk := true;
      }
      if !zstOk && disk.raw.Some? {
        if !readOk(Raw) {
          return [], false;
        }
        var recs := LoadOne(c, Raw, disk.raw.value);
        records := records + recs;
      }
      assert idx == LoadedGen(c, Archive, disk.archive) + (if zstOk then [] else LoadedGen(c, Raw, disk.raw));
      assert records == Plain(FileRecs(c, disk.archive)) + if zstOk then [] else Plain(FileRecs(c, disk.raw));
      if disk.active.Some? {
        if !readOk(Active) {
          return [], false;
        }
        var recs := LoadOne(c, Active, disk.active.value);
        records := records + recs;
      }
      assert idx == LoadedIndex(c, disk);
      LoadKeeps(c, disk);
      ok := true;
    }

    /** One generation read and indexed. */
    method LoadOne(c: Codec, tier: Tier, file: Bytes) returns (records: seq<Record>)
      modifies this`idx
      ensures records == Plain(FileRecs(c, Some(file))) && idx == old(idx) + LoadedGen(c, tier, Some(file))
    {
      var recs := LoadFile(c, file);
      records := Plain(recs);
      IndexLoaded(c, tier, recs);
    }

    method IndexLoaded(c: Codec, tier: Tier, recs: seq<IndexedRecord>)
      modifies this`idx
      ensures idx == old(idx) + if recs == [] then [] else [Grown(EmptyGen(tier), RecEntries(recs))]
    {
      if |recs| == 0 {
        return;
      }
      var g := EmptyGen(tier);
      for i := 0 to |recs|
        invariant g == Grown(EmptyGen(tier), RecEntries(recs[..i]))
      {
        assert recs[..i + 1][..i] == recs[..i];
        var height := RecHeight(recs[i].rec);
        if height != 0 {
          var e := HeightSample(height, recs[i].offset);
          assert RecEntries(recs[..i + 1]) == RecEntries(recs[..i]) + [e];
          assert (RecEntries(recs[..i]) + [e])[..|RecEntries(recs[..i])|] == RecEntries(recs[..i]);
          g := Grow(g, e);
        } else {
          assert RecEntries(recs[..i]) + [] == RecEntries(recs[..i]);
        }
      }
      assert recs[..|recs|] == recs;
      idx := idx + [g];
    }
  }

  /** Every generation the loader opens can be read to its end. */
  predicate Readable(d: Disk, readOk: Tier -> bool) {
    && (d.archive.Some? ==> readOk(Archive))
    && (d.archive.None? && d.raw.Some? ==> readOk(Raw))
    && (d.active.Some? ==> readOk(Active))
  }

  /** The index left by a load that was aborted: the generations before the unreadable one. */
  function ReadIndex(c: Codec, d: Disk, readOk: Tier -> bool): seq<GenIndex> {
    if d.archive.Some? then if readOk(Archive) then LoadedGen(c, Archive, d.archive) else []
    else if d.raw.Some? && readOk(Raw) then LoadedGen(c, Raw, d.raw)
    else []
  }

  /** The loader has read the file up to `pos`. */
  ghost predicate Loading(c: Codec, file: Bytes, pos: nat, recs: seq<IndexedRecord>) {
    && pos <= |file| && LineStart(file, pos)
    && recs == LoadedRecs(c, CompleteLines(file[..pos]))
    && Extent(CompleteLines(file[..pos])) == pos
  }

  /** What reading one part adds: its record, when it renders. */
  function WithPart(c: Codec, recs: seq<IndexedRecord>, raw: Bytes, pos: nat): seq<IndexedRecord> {
    if raw != [] && Renderable(c.parse(raw)) then recs + [IndexedRecord(c.parse(raw), pos)] else recs
  }

  lemma PartLoaded(c: Codec, read: seq<Bytes>, raw: Bytes)
    ensures LoadedRecs(c, read + [raw]) == WithPart(c, LoadedRecs(c, read), raw, Extent(read))
    ensures Extent(read + [raw]) == Extent(read) + |raw| + 1
  {
    assert (read + [raw])[..|read|] == read;
  }

  lemma LineLoaded(c: Codec, file: Bytes, pos: nat, recs: seq<IndexedRecord>)
    requires Loading(c, file, pos, recs) && pos < |file| && file[LineEnd(file, pos) - 1] == NEWLINE
    ensures var e := LineEnd(file, pos);
            Loading(c, file, e, WithPart(c, recs, file[pos..e - 1], pos))
  {
    var e, read := LineEnd(file, pos), CompleteLines(file[..pos]);
    assert file[0..] == file && file[0..pos] == file[..pos] && file[0..e] == file[..e];
    ReadLine(file, 0, pos);
    PartLoaded(c, read, file[pos..e - 1]);
  }

  lemma TailLoaded(c: Codec, file: Bytes, pos: nat, recs: seq<IndexedRecord>)
    requires Loading(c, file, pos, recs) && pos < |file| && file[LineEnd(file, pos) - 1] != NEWLINE
    ensures WithPart(c, recs, file[pos..], pos) == LoadedRecs(c, Split(file))
  {
    NewlineFree(file[pos..]);
    SplitAtLineStart(file, pos);
    PartLoaded(c, CompleteLines(file[..pos]), file[pos..]);
  }

  lemma LoadEnd(c: Codec, file: Bytes, recs: seq<IndexedRecord>)
    requires Loading(c, file, |file|, recs)
    ensures recs == LoadedRecs(c, Split(file))
  {
    assert file[..|file|] == file;
    SplitAtLineStart(file, |file|);
    var parts := Split(file);
    assert parts[..|parts| - 1] == CompleteLines(file);
  }

  /** Reads a file line by line, keeping every renderable record with its offset; unlike
      a page scan it also takes a last line that has no newline yet. */
  method LoadFile(c: Codec, file: Bytes) returns (recs: seq<IndexedRecord>)
    ensures recs == LoadedRecs(c, Split(file))
  {
    recs := [];
    var pos := 0;
    assert file[..0] == [];
    while pos < |file|
      invariant Loading(c, file, pos, recs)
    {
      var e := LineEnd(file, pos);
      var whole := file[e - 1] == NEWLINE;
      var raw := if whole then file[pos..e - 1] else file[pos..];
      if whole {
        LineLoaded(c, file, pos, recs);
      } else {
        TailLoaded(c, file, pos, recs);
      }
      if raw != [] && Renderable(c.parse(raw)) {
        recs := recs + [IndexedRecord(c.parse(raw), pos)];
      }
      if !whole {
        return;
      }
      pos := e;
    }
    LoadEnd(c, file, recs);
  }
}
