/** The generations on disk and the index over them: what the index must say, and why
    each move of the files keeps it true. */
module StoreIndex {
  import opened Basics
  import opened Lines
  import opened WireModel
  import opened DiskScan
  import opened GenIndexes

  /** The three generation files; the archive is held as its decompressed bytes. */
  datatype Disk = Disk(active: Option<Bytes>, raw: Option<Bytes>, archive: Option<Bytes>) {
    function File(t: Tier): Option<Bytes> {
      match t
      case Active => active
      case Raw => raw
      case Archive => archive
    }
  }

  /** Which calls of one rotation succeed. */
  datatype RotateIO = RotateIO(closeOk: bool, renameOk: bool, statOk: bool,
                               compressOk: bool, removeOk: bool, openOk: bool)

  /** The index entry of one tier. */
  function Entry(idx: seq<GenIndex>, t: Tier): (e: Option<GenIndex>)
    ensures e.Some? ==> e.value.tier == t && e.value in idx
  {
    if idx == [] then None
    else if idx[0].tier == t then Some(idx[0])
    else Entry(idx[1..], t)
  }

  predicate Has(idx: seq<GenIndex>, t: Tier) {
    Entry(idx, t).Some?
  }

  /** Every entry is of an older tier than all entries behind it. */
  predicate OldToNew(idx: seq<GenIndex>) {
    idx == [] || (Below(idx[1..], idx[0].tier) && OldToNew(idx[1..]))
  }

  predicate Below(idx: seq<GenIndex>, t: Tier) {
    forall g :: g in idx ==> Age(g.tier) < Age(t)
  }

  /** The entry says exactly what a rebuild from the file would say. */
  predicate Describes(c: Codec, g: GenIndex, file: Bytes) {
    && g == IndexOf(c, g.tier, file).(sinceSample := g.sinceSample)
    && (g.tier != Archive ==> g.sinceSample == |FileEntries(c, file)|)
  }

  predicate Settled(d: Disk) {
    && (d.active.Some? ==> Terminated(d.active.value))
    && (d.raw.Some? ==> Terminated(d.raw.value))
    && (d.archive.Some? ==> Terminated(d.archive.value))
  }

  /** Each entry describes its file, and a file without an entry holds no chained
      line, save a raw aside that stands beside an archive. */
  predicate Covers(c: Codec, d: Disk, idx: seq<GenIndex>) {
    forall t: Tier :: CoversTier(c, d, Entry(idx, t), t)
  }

  predicate CoversTier(c: Codec, d: Disk, entry: Option<GenIndex>, t: Tier) {
    match entry
    case Some(g) => g.tier == t && d.File(t).Some? && Describes(c, g, d.File(t).value)
    case None => d.File(t).Some? && FileEntries(c, d.File(t).value) != [] ==> t == Raw && d.archive.Some?
  }

  /** The index invariant. */
  predicate Indexed(c: Codec, d: Disk, idx: seq<GenIndex>) {
    Settled(d) && OldToNew(idx) && Covers(c, d, idx)
  }

  // ---------------------------------------------------------------- heights on disk

  function Heights(es: seq<HeightSample>): seq<nat> {
    seq(|es|, i requires 0 <= i < |es| => es[i].height)
  }

  function FileHeights(c: Codec, f: Option<Bytes>): seq<nat> {
    if f.None? then [] else Heights(FileEntries(c, f.value))
  }

  /** The chained heights paging can reach, oldest generation first. */
  function Retained(c: Codec, d: Disk, idx: seq<GenIndex>): seq<nat> {
    FileHeights(c, d.archive) + RawHeights(c, d, idx) + FileHeights(c, d.active)
  }

  /** A raw aside without an entry is out of reach. */
  function RawHeights(c: Codec, d: Disk, idx: seq<GenIndex>): seq<nat> {
    if Has(idx, Raw) then FileHeights(c, d.raw) else []
  }

  predicate StrictlyUp(hs: seq<nat>) {
    forall i, j :: 0 <= i < j < |hs| ==> hs[i] < hs[j]
  }

  // ---------------------------------------------------------------- index moves

  function Without(idx: seq<GenIndex>, t: Tier): seq<GenIndex> {
    if idx == [] then []
    else if idx[0].tier == t then Without(idx[1..], t)
    else [idx[0]] + Without(idx[1..], t)
  }

  function Relabeled(g: GenIndex, to: Tier): GenIndex {
    if to == Archive then g.(tier := to, samples := []) else g.(tier := to)
  }

  function Relabel(idx: seq<GenIndex>, from: Tier, to: Tier): seq<GenIndex> {
    if idx == [] then []
    else if idx[0].tier == from then [Relabeled(idx[0], to)] + idx[1..]
    else [idx[0]] + Relabel(idx[1..], from, to)
  }

  lemma {:induction false} WithoutMeaning(idx: seq<GenIndex>, t: Tier)
    ensures forall u: Tier :: Entry(Without(idx, t), u) == if u == t then None else Entry(idx, u)
    ensures forall g :: g in Without(idx, t) ==> g in idx
    ensures OldToNew(idx) ==> OldToNew(Without(idx, t))
  {
    if idx != [] {
      WithoutMeaning(idx[1..], t);
    }
  }

  /** An ordered tail has no entry of a tier that is older than all of it. */
  lemma NoOlder(idx: seq<GenIndex>, t: Tier)
    requires Below(idx, t)
    ensures Entry(idx, t) == None
  {
  }

  lemma {:induction false} RelabelMeaning(idx: seq<GenIndex>, from: Tier, to: Tier)
    requires OldToNew(idx) && Age(to) == Age(from) + 1 && Entry(idx, to) == None
    ensures OldToNew(Relabel(idx, from, to))
    ensures forall g :: g in Relabel(idx, from, to) ==> g in idx || (g.tier == to && Has(idx, from))
    ensures forall u: Tier :: Entry(Relabel(idx, from, to), u) ==
              if u == from then None
              else if u == to then (match Entry(idx, from) case Some(g) => Some(Relabeled(g, to)) case None => None)
              else Entry(idx, u)
  {
    if idx != [] {
      var r := Relabel(idx, from, to);
      if idx[0].tier == from {
        NoOlder(idx[1..], from);
        assert r[1..] == idx[1..];
      } else {
        RelabelMeaning(idx[1..], from, to);
        assert r[1..] == Relabel(idx[1..], from, to);
        assert Has(idx[1..], from) ==> Age(idx[0].tier) > Age(from);
      }
    }
  }

  /** The first entry of a tier is the one relabelled. */
  lemma {:induction false} RelabelAt(idx: seq<GenIndex>, i: nat, from: Tier, to: Tier)
    requires i <= |idx| && forall k :: 0 <= k < i ==> idx[k].tier != from
    requires i < |idx| ==> idx[i].tier == from
    ensures Relabel(idx, from, to) == if i < |idx| then idx[i := Relabeled(idx[i], to)] else idx
    ensures Has(idx, from) <==> i < |idx|
  {
    if i > 0 {
      RelabelAt(idx[1..], i - 1, from, to);
    }
  }

  lemma {:induction false} NotThere(idx: seq<GenIndex>, t: Tier)
    requires !Has(idx, t)
    ensures forall k :: 0 <= k < |idx| ==> idx[k].tier != t
  {
    if idx != [] {
      NotThere(idx[1..], t);
    }
  }

  lemma {:induction false} AppendEntry(idx: seq<GenIndex>, g: GenIndex)
    requires OldToNew(idx) && forall h :: h in idx ==> Age(h.tier) > Age(g.tier)
    ensures OldToNew(idx + [g])
    ensures forall u: Tier :: Entry(idx + [g], u) == if u == g.tier then Some(g) else Entry(idx, u)
  {
    if idx != [] {
      assert (idx + [g])[1..] == idx[1..] + [g];
      AppendEntry(idx[1..], g);
    } else {
      assert (idx + [g])[1..] == [];
    }
  }

  // ---------------------------------------------------------------- what each step keeps

  lemma BareFile(c: Codec, t: Tier, file: Bytes)
    requires FileEntries(c, file) == []
    ensures Describes(c, EmptyGen(t), file)
  {
  }

  /** A renamed file keeps a true entry under its new label. */
  lemma RelabelDescribes(c: Codec, g: GenIndex, to: Tier, file: Bytes)
    requires Describes(c, g, file) && g.tier != Archive
    ensures Describes(c, Relabeled(g, to), file)
  {
    var es := FileEntries(c, file);
    IndexMeaning(g.tier, es);
    IndexMeaning(to, es);
    SameBounds(g.tier, to, es);
  }

  lemma {:induction false} SameBounds(t: Tier, u: Tier, es: seq<HeightSample>)
    ensures var g, h := Grown(EmptyGen(t), es), Grown(EmptyGen(u), es);
            g.minH == h.minH && g.maxH == h.maxH && g.chained == h.chained
  {
    if es != [] {
      SameBounds(t, u, es[..|es| - 1]);
    }
  }

  function Renamed(d: Disk): Disk {
    Disk(None, d.active, d.archive)
  }

  /** The index after the active file was renamed over the raw aside. */
  function RenamedIndex(idx: seq<GenIndex>): seq<GenIndex> {
    var kept := Without(idx, Raw);
    if Has(kept, Active) then Relabel(kept, Active, Raw) else kept + [EmptyGen(Raw)]
  }

  /** The active entry moves along with its file. */
  lemma RenameMoves(c: Codec, d: Disk, kept: seq<GenIndex>)
    requires OldToNew(kept) && Entry(kept, Raw) == None && d.active.Some?
    requires Has(kept, Active) && CoversTier(c, d, Entry(kept, Active), Active)
             && CoversTier(c, d, Entry(kept, Archive), Archive)
    ensures var idx := Relabel(kept, Active, Raw);
            && OldToNew(idx) && Has(idx, Raw)
            && CoversTier(c, Renamed(d), Entry(idx, Raw), Raw)
            && CoversTier(c, Renamed(d), Entry(idx, Active), Active)
            && CoversTier(c, Renamed(d), Entry(idx, Archive), Archive)
  {
    RelabelMeaning(kept, Active, Raw);
    RelabelDescribes(c, Entry(kept, Active).value, Raw, d.active.value);
  }

  /** A file without an entry holds nothing chained, and gets an empty one. */
  lemma RenameFresh(c: Codec, d: Disk, kept: seq<GenIndex>)
    requires OldToNew(kept) && Entry(kept, Raw) == None && d.active.Some?
    requires !Has(kept, Active) && CoversTier(c, d, Entry(kept, Active), Active)
             && CoversTier(c, d, Entry(kept, Archive), Archive)
    ensures var idx := kept + [EmptyGen(Raw)];
            && OldToNew(idx) && Has(idx, Raw)
            && CoversTier(c, Renamed(d), Entry(idx, Raw), Raw)
            && CoversTier(c, Renamed(d), Entry(idx, Active), Active)
            && CoversTier(c, Renamed(d), Entry(idx, Archive), Archive)
  {
    forall g | g in kept ensures g.tier == Archive {
      InIndex(kept, g);
    }
    AppendEntry(kept, EmptyGen(Raw));
    BareFile(c, Raw, d.active.value);
  }

  lemma {:induction false} RenameKeeps(c: Codec, d: Disk, idx: seq<GenIndex>)
    requires Indexed(c, d, idx) && d.active.Some?
    ensures Indexed(c, Renamed(d), RenamedIndex(idx))
    ensures Has(RenamedIndex(idx), Raw)
  {
    var kept := Without(idx, Raw);
    WithoutMeaning(idx, Raw);
    assert CoversTier(c, d, Entry(idx, Active), Active) && CoversTier(c, d, Entry(idx, Archive), Archive);
    if Has(kept, Active) {
      RenameMoves(c, d, kept);
    } else {
      RenameFresh(c, d, kept);
    }
    CoversAll(c, Renamed(d), RenamedIndex(idx));
  }

  lemma {:induction false} InIndex(idx: seq<GenIndex>, g: GenIndex)
    requires OldToNew(idx) && g in idx
    ensures Entry(idx, g.tier) == Some(g)
  {
    if idx[0] != g {
      InIndex(idx[1..], g);
    }
  }

  /** The archive now holds the aside; the aside may or may not be gone. */
  function Archived(d: Disk, removed: bool): Disk {
    Disk(d.active, if removed then None else d.raw, d.raw)
  }

  function ArchivedIndex(idx: seq<GenIndex>): seq<GenIndex> {
    Relabel(Without(idx, Archive), Raw, Archive)
  }

  lemma {:induction false} ArchiveKeeps(c: Codec, d: Disk, idx: seq<GenIndex>, removed: bool)
    requires Indexed(c, d, idx) && Has(idx, Raw) && d.active.None?
    ensures Indexed(c, Archived(d, removed), ArchivedIndex(idx))
    ensures !Has(ArchivedIndex(idx), Raw)
  {
    WithoutMeaning(idx, Archive);
    RelabelMeaning(Without(idx, Archive), Raw, Archive);
    RelabelDescribes(c, Entry(idx, Raw).value, Archive, d.raw.value);
  }

  /** Opening creates the active file when it is missing. */
  function Opened(d: Disk): Disk {
    if d.active.Some? then d else d.(active := Some([]))
  }

  lemma OpenKeeps(c: Codec, d: Disk, idx: seq<GenIndex>)
    requires Indexed(c, d, idx)
    ensures Indexed(c, Opened(d), idx) && Retained(c, Opened(d), idx) == Retained(c, d, idx)
  {
    assert FileEntries(c, []) == [];
  }

  /** The index after a chained line of the active file was written at `e`. */
  function Wrote(idx: seq<GenIndex>, e: HeightSample): seq<GenIndex> {
    if idx != [] && idx[|idx| - 1].tier == Active
    then idx[..|idx| - 1] + [Grow(idx[|idx| - 1], e)]
    else idx + [Grow(EmptyGen(Active), e)]
  }

  lemma {:induction false} ActiveIsLast(idx: seq<GenIndex>)
    requires OldToNew(idx) && idx != []
    ensures Entry(idx, Active) == if idx[|idx| - 1].tier == Active then Some(idx[|idx| - 1]) else None
    ensures OldToNew(idx[..|idx| - 1])
    ensures forall g :: g in idx[..|idx| - 1] ==> Age(g.tier) > Age(idx[|idx| - 1].tier)
    ensures forall u: Tier :: u != idx[|idx| - 1].tier ==> Entry(idx[..|idx| - 1], u) == Entry(idx, u)
  {
    var n := |idx| - 1;
    if n > 0 {
      assert idx[n] in idx[1..];
      assert idx[1..][..n - 1] == idx[..n][1..];
      ActiveIsLast(idx[1..]);
    }
  }

  lemma {:induction false} WroteMeaning(idx: seq<GenIndex>, e: HeightSample)
    requires OldToNew(idx)
    ensures OldToNew(Wrote(idx, e))
    ensures forall u: Tier :: Entry(Wrote(idx, e), u) ==
              if u == Active
              then Some(Grow(match Entry(idx, Active) case Some(g) => g case None => EmptyGen(Active), e))
              else Entry(idx, u)
  {
    if idx != [] {
      ActiveIsLast(idx);
      var n := |idx| - 1;
      if idx[n].tier == Active {
        AppendEntry(idx[..n], Grow(idx[n], e));
      } else {
        forall g | g in idx ensures Age(g.tier) > Age(Active) {
          InIndex(idx, g);
        }
        AppendEntry(idx, Grow(EmptyGen(Active), e));
      }
    } else {
      AppendEntry(idx, Grow(EmptyGen(Active), e));
    }
  }

  /** One more line grows the file's entries by at most one, at the old file size. */
  lemma LineEntries(c: Codec, file: Bytes, line: Bytes)
    requires Terminated(file) && NEWLINE !in line
    ensures Terminated(file + line + [NEWLINE])
    ensures FileEntries(c, file + line + [NEWLINE])
         == FileEntries(c, file) + if c.LineHeight(line) == 0 then [] else [HeightSample(c.LineHeight(line), |file|)]
  {
    AppendLine(file, line);
    ExtentOfFile(file);
    var lines := CompleteLines(file + line + [NEWLINE]);
    assert lines[..|lines| - 1] == CompleteLines(file);
    assert FileEntries(c, file) + [] == FileEntries(c, file);
  }

  function Appended(d: Disk, line: Bytes): Disk
    requires d.active.Some?
  {
    d.(active := Some(d.active.value + line + [NEWLINE]))
  }

  function AppendedIndex(c: Codec, d: Disk, idx: seq<GenIndex>, line: Bytes): seq<GenIndex>
    requires d.active.Some?
  {
    if c.LineHeight(line) == 0 then idx
    else Wrote(idx, HeightSample(c.LineHeight(line), |d.active.value|))
  }

  /** The entry of the appended file, grown by the appended line. */
  lemma GrownDescribes(c: Codec, before: Option<GenIndex>, file: Bytes, e: HeightSample, file': Bytes)
    requires match before
             case Some(g) => g.tier == Active && Describes(c, g, file)
             case None => FileEntries(c, file) == []
    requires FileEntries(c, file') == FileEntries(c, file) + [e]
    ensures Describes(c, Grow(match before case Some(g) => g case None => EmptyGen(Active), e), file')
  {
    var es := FileEntries(c, file);
    IndexMeaning(Active, es);
    assert (es + [e])[..|es|] == es;
  }

  /** Appending keeps each tier's entry true, the active one's grown. */
  lemma AppendCovers(c: Codec, d: Disk, idx: seq<GenIndex>, line: Bytes, t: Tier)
    requires Indexed(c, d, idx) && d.active.Some? && NEWLINE !in line
    ensures CoversTier(c, Appended(d, line), Entry(AppendedIndex(c, d, idx, line), t), t)
  {
    assert CoversTier(c, d, Entry(idx, t), t);
    var file, d' := d.active.value, Appended(d, line);
    var e := HeightSample(c.LineHeight(line), |file|);
    WroteMeaning(idx, e);
    if t != Active {
      assert d'.File(t) == d.File(t);
    } else {
      LineEntries(c, file, line);
      if e.height == 0 {
        assert FileEntries(c, file) + [] == FileEntries(c, file);
      } else {
        GrownDescribes(c, Entry(idx, Active), file, e, file + line + [NEWLINE]);
      }
    }
  }

  lemma {:induction false} AppendKeeps(c: Codec, d: Disk, idx: seq<GenIndex>, line: Bytes)
    requires Indexed(c, d, idx) && d.active.Some? && NEWLINE !in line
    ensures Indexed(c, Appended(d, line), AppendedIndex(c, d, idx, line))
  {
    LineEntries(c, d.active.value, line);
    WroteMeaning(idx, HeightSample(c.LineHeight(line), |d.active.value|));
    forall t: Tier ensures CoversTier(c, Appended(d, line), Entry(AppendedIndex(c, d, idx, line), t), t) {
      AppendCovers(c, d, idx, line, t);
    }
  }

  lemma AppendHeights(c: Codec, file: Bytes, line: Bytes)
    requires Terminated(file) && NEWLINE !in line
    ensures FileHeights(c, Some(file + line + [NEWLINE]))
         == FileHeights(c, Some(file)) + if c.LineHeight(line) == 0 then [] else [c.LineHeight(line)]
  {
    LineEntries(c, file, line);
    var es, h := FileEntries(c, file), c.LineHeight(line);
    if h == 0 {
      assert es + [] == es && Heights(es) + [] == Heights(es);
    } else {
      assert Heights(es + [HeightSample(h, |file|)]) == Heights(es) + [h];
    }
  }

  lemma {:induction false} AppendRetains(c: Codec, d: Disk, idx: seq<GenIndex>, line: Bytes)
    requires Indexed(c, d, idx) && d.active.Some? && NEWLINE !in line
    ensures Retained(c, Appended(d, line), AppendedIndex(c, d, idx, line))
         == Retained(c, d, idx) + if c.LineHeight(line) == 0 then [] else [c.LineHeight(line)]
  {
    var d', idx' := Appended(d, line), AppendedIndex(c, d, idx, line);
    AppendHeights(c, d.active.value, line);
    WroteMeaning(idx, HeightSample(c.LineHeight(line), |d.active.value|));
    assert RawHeights(c, d', idx') == RawHeights(c, d, idx);
  }

  lemma PartsRise(a: seq<nat>, r: seq<nat>, n: seq<nat>)
    requires StrictlyUp(a + r + n)
    ensures forall i, j :: 0 <= i < |a| && 0 <= j < |r| ==> a[i] < r[j]
    ensures forall i, j :: 0 <= i < |a| && 0 <= j < |n| ==> a[i] < n[j]
    ensures forall i, j :: 0 <= i < |r| && 0 <= j < |n| ==> r[i] < n[j]
  {
    var hs := a + r + n;
    assert forall i :: 0 <= i < |a| ==> hs[i] == a[i];
    assert forall i :: 0 <= i < |r| ==> hs[|a| + i] == r[i];
    assert forall i :: 0 <= i < |n| ==> hs[|a| + |r| + i] == n[i];
  }

  /** Heights of an older generation stand below heights of a newer one. */
  lemma OlderIsLower(c: Codec, d: Disk, idx: seq<GenIndex>, older: Tier, newer: Tier, i: nat, j: nat)
    requires Indexed(c, d, idx) && StrictlyUp(Retained(c, d, idx)) && Age(older) > Age(newer)
    requires Has(idx, older) && Has(idx, newer)
    requires i < |FileHeights(c, d.File(older))| && j < |FileHeights(c, d.File(newer))|
    ensures FileHeights(c, d.File(older))[i] < FileHeights(c, d.File(newer))[j]
  {
    PartsRise(FileHeights(c, d.archive), RawHeights(c, d, idx), FileHeights(c, d.active));
  }

  /** The bounds an entry states are heights its file holds. */
  lemma BoundsAreHeights(c: Codec, d: Disk, idx: seq<GenIndex>, t: Tier)
    requires Indexed(c, d, idx) && Has(idx, t) && Entry(idx, t).value.chained
    ensures Entry(idx, t).value.minH in FileHeights(c, d.File(t))
    ensures Entry(idx, t).value.maxH in FileHeights(c, d.File(t))
  {
    var es := FileEntries(c, d.File(t).value);
    IndexMeaning(t, es);
    var g := Entry(idx, t).value;
    var i :| 0 <= i < |es| && es[i].height == g.maxH;
    var j :| 0 <= j < |es| && es[j].height == g.minH;
    assert Heights(es)[i] == g.maxH && Heights(es)[j] == g.minH;
  }

  /** In an indexed store whose heights rise, the entries' height ranges are disjoint
      and rise from old to new. */
  lemma {:induction false} RangesRise(c: Codec, d: Disk, idx: seq<GenIndex>, older: Tier, newer: Tier)
    requires Indexed(c, d, idx) && StrictlyUp(Retained(c, d, idx)) && Age(older) > Age(newer)
    requires Has(idx, older) && Has(idx, newer)
    requires Entry(idx, older).value.chained && Entry(idx, newer).value.chained
    ensures Entry(idx, older).value.maxH < Entry(idx, newer).value.minH
  {
    BoundsAreHeights(c, d, idx, older);
    BoundsAreHeights(c, d, idx, newer);
    var o, w := FileHeights(c, d.File(older)), FileHeights(c, d.File(newer));
    var i :| 0 <= i < |o| && o[i] == Entry(idx, older).value.maxH;
    var j :| 0 <= j < |w| && w[j] == Entry(idx, newer).value.minH;
    OlderIsLower(c, d, idx, older, newer, i, j);
  }

  // ---------------------------------------------------------------- rebuilding at boot

  datatype IndexedRecord = IndexedRecord(rec: Record, offset: nat)

  predicate Renderable(rec: Record) {
    rec.message != "" || rec.wire.Some?
  }

  /** The records the loader keeps from a file's parts, with their byte offsets. */
  function LoadedRecs(c: Codec, parts: seq<Bytes>): seq<IndexedRecord> {
    if parts == [] then []
    else
      var front, last := parts[..|parts| - 1], parts[|parts| - 1];
      if last != [] && Renderable(c.parse(last))
      then LoadedRecs(c, front) + [IndexedRecord(c.parse(last), Extent(front))]
      else LoadedRecs(c, front)
  }

  function RecHeight(rec: Record): nat {
    match rec.wire
    case Some(w) => w.height
    case None => 0
  }

  function RecEntries(recs: seq<IndexedRecord>): seq<HeightSample> {
    if recs == [] then []
    else
      var last := recs[|recs| - 1];
      RecEntries(recs[..|recs| - 1])
      + if RecHeight(last.rec) == 0 then [] else [HeightSample(RecHeight(last.rec), last.offset)]
  }

  lemma {:induction false} LoadedEntries(c: Codec, parts: seq<Bytes>)
    ensures RecEntries(LoadedRecs(c, parts)) == Entries(c, parts)
  {
    if parts != [] {
      var front, last := parts[..|parts| - 1], parts[|parts| - 1];
      LoadedEntries(c, front);
      var recs := LoadedRecs(c, parts);
      if last != [] && Renderable(c.parse(last)) {
        assert recs[..|recs| - 1] == LoadedRecs(c, front);
        assert Entries(c, front) + [] == Entries(c, front);
      }
    }
  }

  function FileRecs(c: Codec, file: Option<Bytes>): seq<IndexedRecord> {
    if file.None? then [] else LoadedRecs(c, Split(file.value))
  }

  function Plain(recs: seq<IndexedRecord>): seq<Record> {
    seq(|recs|, i requires 0 <= i < |recs| => recs[i].rec)
  }

  /** Every record a restart reads, oldest first. */
  function LoadedRecords(c: Codec, d: Disk): seq<Record> {
    Plain(FileRecs(c, d.archive))
    + (if d.archive.Some? then [] else Plain(FileRecs(c, d.raw)))
    + Plain(FileRecs(c, d.active))
  }

  /** What the loader builds from one file: nothing for a file without records. */
  function LoadedGen(c: Codec, t: Tier, file: Option<Bytes>): seq<GenIndex> {
    if FileRecs(c, file) == [] then [] else [Grown(EmptyGen(t), RecEntries(FileRecs(c, file)))]
  }

  /** The rebuilt index: an existing archive makes the loader skip the raw aside. */
  function LoadedIndex(c: Codec, d: Disk): seq<GenIndex> {
    LoadedGen(c, Archive, d.archive)
    + (if d.archive.Some? then [] else LoadedGen(c, Raw, d.raw))
    + LoadedGen(c, Active, d.active)
  }

  lemma LoadedGenCovers(c: Codec, t: Tier, file: Bytes)
    requires Terminated(file)
    ensures var gens := LoadedGen(c, t, Some(file));
            if gens == [] then FileEntries(c, file) == []
            else |gens| == 1 && gens[0].tier == t && Describes(c, gens[0], file)
  {
    var parts := Split(file);
    assert parts[..|parts| - 1] == CompleteLines(file);
    LoadedEntries(c, parts);
    IndexMeaning(t, FileEntries(c, file));
  }

  lemma LoadedCovers(c: Codec, d: Disk, t: Tier)
    requires Settled(d)
    ensures var gens := LoadedGen(c, t, d.File(t));
            && (gens == [] || (|gens| == 1 && gens[0].tier == t))
            && CoversTier(c, d, if gens == [] then None else Some(gens[0]), t)
  {
    if d.File(t).Some? {
      LoadedGenCovers(c, t, d.File(t).value);
    }
  }

  lemma {:induction false} LoadKeeps(c: Codec, d: Disk)
    requires Settled(d)
    ensures Indexed(c, d, LoadedIndex(c, d))
    ensures d.archive.Some? ==> !Has(LoadedIndex(c, d), Raw)
  {
    LoadedCovers(c, d, Archive);
    LoadedCovers(c, d, Raw);
    LoadedCovers(c, d, Active);
    OptionalEntries(LoadedGen(c, Archive, d.archive),
                    if d.archive.Some? then [] else LoadedGen(c, Raw, d.raw),
                    LoadedGen(c, Active, d.active));
    CoversAll(c, d, LoadedIndex(c, d));
  }

  lemma CoversAll(c: Codec, d: Disk, idx: seq<GenIndex>)
    requires CoversTier(c, d, Entry(idx, Archive), Archive)
    requires CoversTier(c, d, Entry(idx, Raw), Raw)
    requires CoversTier(c, d, Entry(idx, Active), Active)
    ensures Covers(c, d, idx)
  {
    forall t: Tier ensures CoversTier(c, d, Entry(idx, t), t) {
      match t case Active => case Raw => case Archive =>
    }
  }

  lemma OptionalEntries(a: seq<GenIndex>, r: seq<GenIndex>, n: seq<GenIndex>)
    requires a == [] || (|a| == 1 && a[0].tier == Archive)
    requires r == [] || (|r| == 1 && r[0].tier == Raw)
    requires n == [] || (|n| == 1 && n[0].tier == Active)
    ensures OldToNew(a + r + n)
    ensures Entry(a + r + n, Archive) == if a == [] then None else Some(a[0])
    ensures Entry(a + r + n, Raw) == if r == [] then None else Some(r[0])
    ensures Entry(a + r + n, Active) == if n == [] then None else Some(n[0])
  {
    NoneThen(a, Archive);
    AddOptional(a, r, Raw);
    AddOptional(a + r, n, Active);
  }

  lemma AddOptional(idx: seq<GenIndex>, gens: seq<GenIndex>, t: Tier)
    requires OldToNew(idx) && forall h :: h in idx ==> Age(h.tier) > Age(t)
    requires gens == [] || (|gens| == 1 && gens[0].tier == t)
    ensures OldToNew(idx + gens)
    ensures forall u: Tier :: Entry(idx + gens, u) == if gens != [] && u == t then Some(gens[0]) else Entry(idx, u)
    ensures forall h :: h in idx + gens ==> Age(h.tier) >= Age(t)
  {
    if gens == [] {
      assert idx + gens == idx;
    } else {
      AppendEntry(idx, gens[0]);
      assert idx + gens == idx + [gens[0]];
    }
  }

  lemma NoneThen(n: seq<GenIndex>, t: Tier)
    requires n == [] || (|n| == 1 && n[0].tier == t)
    ensures OldToNew(n)
    ensures forall u: Tier :: Entry(n, u) == if n != [] && u == t then Some(n[0]) else None
  {
    if n != [] {
      assert n[1..] == [];
    }
  }

  /** Reloading serves the same chained lines as before exactly when no archive hides a
      raw aside that still holds some: after a failed compression the code loses them. */
  lemma {:induction false} ReloadKeepsHistory(c: Codec, d: Disk, idx: seq<GenIndex>)
    requires Indexed(c, d, idx)
    ensures Retained(c, d, LoadedIndex(c, d)) == Retained(c, d, idx)
       <==> !(d.archive.Some? && Has(idx, Raw) && FileEntries(c, d.raw.value) != [])
  {
    LoadKeeps(c, d);
    var before, after := Retained(c, d, idx), Retained(c, d, LoadedIndex(c, d));
    assert CoversTier(c, d, Entry(idx, Raw), Raw);
    assert CoversTier(c, d, Entry(LoadedIndex(c, d), Raw), Raw);
    if d.archive.Some? && Has(idx, Raw) && FileEntries(c, d.raw.value) != [] {
      assert |before| > |after|;
    }
  }

  // ---------------------------------------------------------------- whole operations

  /** The store as a value: files, index, and whether the active file is open. */
  datatype Store = Store(disk: Disk, idx: seq<GenIndex>, open: bool)

  predicate Consistent(c: Codec, s: Store) {
    Indexed(c, s.disk, s.idx) && (s.open ==> s.disk.active.Some?)
  }

  function OpenStep(s: Store, openOk: bool): Store {
    if openOk then Store(Opened(s.disk), s.idx, true) else s.(open := false)
  }

  /** Rotation: close, rename aside, compress the aside, remove it, reopen. */
  function RotateStep(s: Store, io: RotateIO): (Store, bool) {
    if !io.closeOk || !io.renameOk then (s.(open := false), false)
    else
      var renamed := Store(Renamed(s.disk), RenamedIndex(s.idx), false);
      if !io.statOk || !io.compressOk then (OpenStep(renamed, io.openOk), io.openOk)
      else
        var archived := Store(Archived(renamed.disk, io.removeOk), ArchivedIndex(renamed.idx), false);
        if !io.removeOk then (archived, false) else (OpenStep(archived, io.openOk), io.openOk)
  }

  function LineSize(c: Codec, rec: Record): nat {
    |c.encode(rec)| + 1
  }

  function Reopened(s: Store, reopenOk: bool): Store {
    if s.open then s else OpenStep(s, reopenOk)
  }

  /** Getting ready to append: reopen if needed, rotate if full. */
  function ReadyStep(c: Codec, s: Store, maxSize: nat, rec: Record, reopenOk: bool, io: RotateIO): (Store, bool) {
    var live := Reopened(s, reopenOk);
    if !live.open || live.disk.active.None? then (live, false)
    else if maxSize > 0 && |live.disk.active.value| + LineSize(c, rec) > maxSize then RotateStep(live, io)
    else (live, true)
  }

  /** One record written and indexed. */
  function WriteStep(c: Codec, s: Store, maxSize: nat, rec: Record, reopenOk: bool, io: RotateIO,
                     writeOk: bool): (Store, bool)
  {
    var (ready, ok) := ReadyStep(c, s, maxSize, rec, reopenOk, io);
    if !ok || !writeOk || ready.disk.active.None? then (ready, false)
    else (Store(Appended(ready.disk, c.encode(rec)), AppendedIndex(c, ready.disk, ready.idx, c.encode(rec)),
                ready.open), true)
  }

  /** Where the bytes go in a rotation, for every outcome of its calls. */
  lemma {:induction false} RotationMoves(s: Store, io: RotateIO)
    requires s.open && s.disk.active.Some?
    ensures var full, emptied := s.disk.active, if io.openOk then Some([]) else None;
            var (s', ok) := RotateStep(s, io);
            if !io.closeOk || !io.renameOk then !ok && !s'.open && s'.disk == s.disk
            else if !io.statOk || !io.compressOk then ok == s'.open == io.openOk
                 && s'.disk == Disk(emptied, full, s.disk.archive)
            else if !io.removeOk then !ok && !s'.open && s'.disk == Disk(None, full, full)
            else ok == s'.open == io.openOk && s'.disk == Disk(emptied, None, full)
  {
  }

  /** A record that fits goes behind what the file holds, and nothing else moves. */
  lemma {:induction false} FittingWriteAppends(c: Codec, s: Store, maxSize: nat, rec: Record, reopenOk: bool,
                                               io: RotateIO)
    requires s.open && s.disk.active.Some?
    requires maxSize == 0 || |s.disk.active.value| + |c.encode(rec)| + 1 <= maxSize
    ensures var (s', ok) := WriteStep(c, s, maxSize, rec, reopenOk, io, true);
            && ok && s'.open
            && s'.disk == Disk(Some(s.disk.active.value + c.encode(rec) + [NEWLINE]), s.disk.raw, s.disk.archive)
  {
  }

  /** One that does not fit starts a new file: where every call succeeds, the full file is the
      archive, in place of the one before it. */
  lemma {:induction false} FullWriteRotates(c: Codec, s: Store, maxSize: nat, rec: Record, reopenOk: bool)
    requires s.open && s.disk.active.Some?
    requires 0 < maxSize < |s.disk.active.value| + |c.encode(rec)| + 1
    ensures var (s', ok) := WriteStep(c, s, maxSize, rec, reopenOk, RotateIO(true, true, true, true, true, true), true);
            && ok && s'.open
            && s'.disk == Disk(Some(c.encode(rec) + [NEWLINE]), None, Some(s.disk.active.value))
  {
    assert [] + c.encode(rec) + [NEWLINE] == c.encode(rec) + [NEWLINE];
  }

  lemma OpenStepKeeps(c: Codec, s: Store, openOk: bool)
    requires Indexed(c, s.disk, s.idx)
    ensures Consistent(c, OpenStep(s, openOk))
    ensures Retained(c, OpenStep(s, openOk).disk, s.idx) == Retained(c, s.disk, s.idx)
  {
    OpenKeeps(c, s.disk, s.idx);
  }

  /** Every outcome of a rotation keeps the index true, and drops whole generations only. */
  lemma {:induction false} RotateStepKeeps(c: Codec, s: Store, io: RotateIO)
    requires Consistent(c, s) && s.open
    ensures Consistent(c, RotateStep(s, io).0)
    ensures RotateStep(s, io).1 ==> RotateStep(s, io).0.open
    ensures var s' := RotateStep(s, io).0;
            Retained(c, s'.disk, s'.idx) ==
              if !io.closeOk || !io.renameOk then Retained(c, s.disk, s.idx)
              else if io.statOk && io.compressOk then FileHeights(c, s.disk.active)
              else FileHeights(c, s.disk.archive) + FileHeights(c, s.disk.active)
  {
    if io.closeOk && io.renameOk {
      RenameKeeps(c, s.disk, s.idx);
      var d, idx := Renamed(s.disk), RenamedIndex(s.idx);
      if io.statOk && io.compressOk {
        ArchiveKeeps(c, d, idx, io.removeOk);
        OpenStepKeeps(c, Store(Archived(d, io.removeOk), ArchivedIndex(idx), false), io.openOk);
      } else {
        OpenStepKeeps(c, Store(d, idx, false), io.openOk);
      }
    }
  }

  lemma RotateThins(c: Codec, s: Store, io: RotateIO)
    requires Consistent(c, s) && s.open
    ensures Consistent(c, RotateStep(s, io).0) && (RotateStep(s, io).1 ==> RotateStep(s, io).0.open)
    ensures Thinned(Retained(c, RotateStep(s, io).0.disk, RotateStep(s, io).0.idx), Retained(c, s.disk, s.idx))
  {
    RotateStepKeeps(c, s, io);
    WholeIsThinned(Retained(c, s.disk, s.idx));
    MiddleThinned(FileHeights(c, s.disk.archive), RawHeights(c, s.disk, s.idx), FileHeights(c, s.disk.active));
  }

  lemma ReopenedKeeps(c: Codec, s: Store, reopenOk: bool)
    requires Consistent(c, s)
    ensures var live := Reopened(s, reopenOk);
            Consistent(c, live) && Retained(c, live.disk, live.idx) == Retained(c, s.disk, s.idx)
  {
    OpenStepKeeps(c, s, reopenOk);
  }

  lemma ReadyStepKeeps(c: Codec, s: Store, maxSize: nat, rec: Record, reopenOk: bool, io: RotateIO)
    requires Consistent(c, s)
    ensures var (s', ok) := ReadyStep(c, s, maxSize, rec, reopenOk, io);
            && Consistent(c, s') && (ok ==> s'.open)
            && Thinned(Retained(c, s'.disk, s'.idx), Retained(c, s.disk, s.idx))
  {
    var live := Reopened(s, reopenOk);
    ReopenedKeeps(c, s, reopenOk);
    var (s', ok) := ReadyStep(c, s, maxSize, rec, reopenOk, io);
    if s' == live {
      WholeIsThinned(Retained(c, live.disk, live.idx));
    } else {
      assert (s', ok) == RotateStep(live, io);
      RotateThins(c, live, io);
    }
  }

  /** What one write does to the reachable heights: rotation may drop whole generations,
      and a successful write of a chained record adds its height at the end. */
  lemma {:induction false} WriteStepKeeps(c: Codec, s: Store, maxSize: nat, rec: Record, reopenOk: bool, io: RotateIO,
                                          writeOk: bool)
    requires c.Laws() && Consistent(c, s)
    ensures var (s', ok) := WriteStep(c, s, maxSize, rec, reopenOk, io, writeOk);
            var h := c.LineHeight(c.encode(rec));
            && Consistent(c, s')
            && exists kept :: Thinned(kept, Retained(c, s.disk, s.idx))
                 && Retained(c, s'.disk, s'.idx) == kept + if ok && h != 0 then [h] else []
  {
    var (ready, ok) := ReadyStep(c, s, maxSize, rec, reopenOk, io);
    ReadyStepKeeps(c, s, maxSize, rec, reopenOk, io);
    var kept := Retained(c, ready.disk, ready.idx);
    assert kept + [] == kept;
    if ok && writeOk {
      AppendKeeps(c, ready.disk, ready.idx, c.encode(rec));
      AppendRetains(c, ready.disk, ready.idx, c.encode(rec));
    }
  }

  // ---------------------------------------------------------------- every run

  /** One store operation: a write with the outcome of each call, or a restart. */
  datatype Op =
    | Write(rec: Record, reopenOk: bool, io: RotateIO, writeOk: bool)
    | Restart(openOk: bool)

  function Apply(c: Codec, s: Store, maxSize: nat, op: Op): Store {
    match op
    case Write(rec, reopenOk, io, writeOk) => WriteStep(c, s, maxSize, rec, reopenOk, io, writeOk).0
    case Restart(openOk) => OpenStep(Store(s.disk, LoadedIndex(c, s.disk), false), openOk)
  }

  function Run(c: Codec, s: Store, maxSize: nat, ops: seq<Op>): Store
    decreases |ops|
  {
    if ops == [] then s else Run(c, Apply(c, s, maxSize, ops[0]), maxSize, ops[1..])
  }

  lemma ApplyKeeps(c: Codec, s: Store, maxSize: nat, op: Op)
    requires c.Laws() && Consistent(c, s)
    ensures Consistent(c, Apply(c, s, maxSize, op))
  {
    match op
    case Write(rec, reopenOk, io, writeOk) =>
      WriteStepKeeps(c, s, maxSize, rec, reopenOk, io, writeOk);
    case Restart(openOk) =>
      LoadKeeps(c, s.disk);
      OpenStepKeeps(c, Store(s.disk, LoadedIndex(c, s.disk), false), openOk);
  }

  /** In every reachable state each entry still says what a rebuild would say. */
  lemma {:induction false} AlwaysIndexed(c: Codec, s: Store, maxSize: nat, ops: seq<Op>)
    requires c.Laws() && Consistent(c, s)
    ensures Consistent(c, Run(c, s, maxSize, ops))
    decreases |ops|
  {
    if ops != [] {
      ApplyKeeps(c, s, maxSize, ops[0]);
      AlwaysIndexed(c, Apply(c, s, maxSize, ops[0]), maxSize, ops[1..]);
    }
  }

  /** Chained records are written in rising height order, from `top` on. */
  ghost predicate WritesRise(c: Codec, ops: seq<Op>, top: nat) {
    if ops == [] then true
    else if ops[0].Write? && c.LineHeight(c.encode(ops[0].rec)) != 0
    then top < c.LineHeight(c.encode(ops[0].rec)) && WritesRise(c, ops[1..], c.LineHeight(c.encode(ops[0].rec)))
    else WritesRise(c, ops[1..], top)
  }

  predicate RisesTo(hs: seq<nat>, top: nat) {
    StrictlyUp(hs) && forall i :: 0 <= i < |hs| ==> hs[i] <= top
  }

  /** The highest height written so far. */
  function TopAfter(c: Codec, op: Op, top: nat): nat {
    if op.Write? && c.LineHeight(c.encode(op.rec)) != 0 then c.LineHeight(c.encode(op.rec)) else top
  }

  lemma WriteRises(c: Codec, s: Store, maxSize: nat, op: Op, top: nat)
    requires c.Laws() && Consistent(c, s) && RisesTo(Retained(c, s.disk, s.idx), top)
    requires op.Write? && (c.LineHeight(c.encode(op.rec)) != 0 ==> top < c.LineHeight(c.encode(op.rec)))
    ensures var s' := Apply(c, s, maxSize, op);
            RisesTo(Retained(c, s'.disk, s'.idx), TopAfter(c, op, top))
  {
    var (s', ok) := WriteStep(c, s, maxSize, op.rec, op.reopenOk, op.io, op.writeOk);
    WriteStepKeeps(c, s, maxSize, op.rec, op.reopenOk, op.io, op.writeOk);
    var h := c.LineHeight(c.encode(op.rec));
    var all, all' := Retained(c, s.disk, s.idx), Retained(c, s'.disk, s'.idx);
    var kept :| Thinned(kept, all) && all' == kept + if ok && h != 0 then [h] else [];
    ThinnedRises(kept, all, top);
    AddRises(kept, if ok && h != 0 then [h] else [], top, if h != 0 then h else top);
  }

  lemma AddRises(kept: seq<nat>, tail: seq<nat>, top: nat, top': nat)
    requires RisesTo(kept, top) && top <= top' && (tail == [] || (tail == [top'] && top < top'))
    ensures RisesTo(kept + tail, top')
  {
  }

  lemma RestartRises(c: Codec, s: Store, openOk: bool, top: nat)
    requires Consistent(c, s) && RisesTo(Retained(c, s.disk, s.idx), top)
    ensures var s' := OpenStep(Store(s.disk, LoadedIndex(c, s.disk), false), openOk);
            RisesTo(Retained(c, s'.disk, s'.idx), top)
  {
    LoadKeeps(c, s.disk);
    OpenStepKeeps(c, Store(s.disk, LoadedIndex(c, s.disk), false), openOk);
    ReloadThins(c, s.disk, s.idx);
    ThinnedRises(Retained(c, s.disk, LoadedIndex(c, s.disk)), Retained(c, s.disk, s.idx), top);
  }

  /** With rising writes, the reachable heights rise through every failure and restart. */
  lemma {:induction false} AlwaysRising(c: Codec, s: Store, maxSize: nat, ops: seq<Op>, top: nat)
    requires c.Laws() && Consistent(c, s) && RisesTo(Retained(c, s.disk, s.idx), top) && WritesRise(c, ops, top)
    ensures var t := Run(c, s, maxSize, ops); StrictlyUp(Retained(c, t.disk, t.idx))
    decreases |ops|
  {
    if ops != [] {
      ApplyKeeps(c, s, maxSize, ops[0]);
      match ops[0] {
        case Write(_, _, _, _) => WriteRises(c, s, maxSize, ops[0], top);
        case Restart(openOk) => RestartRises(c, s, openOk, top);
      }
      AlwaysRising(c, Apply(c, s, maxSize, ops[0]), maxSize, ops[1..], TopAfter(c, ops[0], top));
    }
  }

  /** Some run of neighbours, possibly empty, has been left out. */
  predicate Thinned(kept: seq<nat>, all: seq<nat>) {
    exists i, j :: 0 <= i <= j <= |all| && kept == all[..i] + all[j..]
  }

  lemma ThinnedRises(kept: seq<nat>, all: seq<nat>, top: nat)
    requires Thinned(kept, all) && RisesTo(all, top)
    ensures RisesTo(kept, top)
  {
  }

  lemma WholeIsThinned(all: seq<nat>)
    ensures Thinned(all, all)
  {
    assert all == all[..0] + all[0..];
  }

  lemma MiddleThinned(a: seq<nat>, r: seq<nat>, n: seq<nat>)
    ensures Thinned(a + n, a + r + n) && Thinned(n, a + r + n)
  {
    var all := a + r + n;
    assert a + n == all[..|a|] + all[|a| + |r|..];
    assert n == all[..0] + all[|a| + |r|..];
  }

  /** With no archive before it, the raw aside is in reach. */
  lemma RawShare(c: Codec, d: Disk, idx: seq<GenIndex>)
    requires Indexed(c, d, idx) && d.archive.None?
    ensures RawHeights(c, d, idx) == FileHeights(c, d.raw)
  {
    assert CoversTier(c, d, Entry(idx, Raw), Raw);
  }

  /** With an archive the raw aside is skipped. */
  lemma ReloadSkipsRaw(c: Codec, d: Disk)
    requires Settled(d) && d.archive.Some?
    ensures Retained(c, d, LoadedIndex(c, d)) == FileHeights(c, d.archive) + FileHeights(c, d.active)
  {
    LoadKeeps(c, d);
    assert RawHeights(c, d, LoadedIndex(c, d)) == [];
    assert FileHeights(c, d.archive) + [] == FileHeights(c, d.archive);
  }

  lemma {:induction false} ReloadThins(c: Codec, d: Disk, idx: seq<GenIndex>)
    requires Indexed(c, d, idx)
    ensures Thinned(Retained(c, d, LoadedIndex(c, d)), Retained(c, d, idx))
  {
    if d.archive.Some? {
      ReloadSkipsRaw(c, d);
      MiddleThinned(FileHeights(c, d.archive), RawHeights(c, d, idx), FileHeights(c, d.active));
    } else {
      LoadKeeps(c, d);
      RawShare(c, d, idx);
      RawShare(c, d, LoadedIndex(c, d));
      WholeIsThinned(Retained(c, d, idx));
    }
  }

  // ---------------------------------------------------------------- a run that loses a height

  const CALLS_OK := RotateIO(true, true, true, true, true, true)
  const COMPRESS_FAILS := RotateIO(true, true, true, false, true, true)

  /** The file one record makes. */
  function OneRecord(c: Codec, rec: Record): Bytes {
    [] + c.encode(rec) + [NEWLINE]
  }

  lemma OneRecordHeights(c: Codec, rec: Record)
    requires c.Laws() && c.LineHeight(c.encode(rec)) != 0
    ensures FileHeights(c, Some(OneRecord(c, rec))) == [c.LineHeight(c.encode(rec))]
  {
    assert Terminated([]) && FileEntries(c, []) == [];
    AppendHeights(c, [], c.encode(rec));
  }

  /** A write that would pass the file cap rotates first. */
  lemma FullWrite(c: Codec, s: Store, maxSize: nat, rec: Record, io: RotateIO)
    requires s.open && s.disk.active.Some? && io.closeOk && io.renameOk && io.statOk && io.removeOk && io.openOk
    requires 0 < maxSize < |s.disk.active.value| + LineSize(c, rec)
    ensures var s' := Apply(c, s, maxSize, Write(rec, true, io, true));
            && s'.open
            && s'.disk == (if io.compressOk then Disk(Some(OneRecord(c, rec)), None, s.disk.active)
                           else Disk(Some(OneRecord(c, rec)), s.disk.active, s.disk.archive))
            && (!io.compressOk ==>
                  s'.idx == AppendedIndex(c, Opened(Renamed(s.disk)), RenamedIndex(s.idx), c.encode(rec)))
  {
  }

  /** The first write to an empty store: at most an empty file is rotated away before it. */
  lemma FirstWrite(c: Codec, maxSize: nat, rec: Record)
    ensures var s := Apply(c, EmptyStore(), maxSize, Write(rec, true, CALLS_OK, true));
            s.open && s.disk.active == Some(OneRecord(c, rec))
  {
  }

  /** After a failed compression the aside is still served from the index. */
  lemma FailedCompressionServes(c: Codec, s: Store, maxSize: nat, rec: Record)
    requires c.Laws() && Consistent(c, s) && s.open && c.LineHeight(c.encode(rec)) != 0
    requires 0 < maxSize < |s.disk.active.value| + LineSize(c, rec)
    ensures var s' := Apply(c, s, maxSize, Write(rec, true, COMPRESS_FAILS, true));
            && Consistent(c, s') && Has(s'.idx, Raw)
            && s'.disk == Disk(Some(OneRecord(c, rec)), s.disk.active, s.disk.archive)
  {
    FullWrite(c, s, maxSize, rec, COMPRESS_FAILS);
    ApplyKeeps(c, s, maxSize, Write(rec, true, COMPRESS_FAILS, true));
    RenameKeeps(c, s.disk, s.idx);
    WroteMeaning(RenamedIndex(s.idx), HeightSample(c.LineHeight(c.encode(rec)), 0));
  }

  function EmptyStore(): Store {
    Store(Disk(Some([]), None, None), [], true)
  }

  /** Three messages: the first is archived, the compression behind the third fails. */
  function LosingRun(r1: Record, r2: Record, r3: Record): seq<Op> {
    [Write(r1, true, CALLS_OK, true), Write(r2, true, CALLS_OK, true), Write(r3, true, COMPRESS_FAILS, true)]
  }

  lemma RunThree(c: Codec, s: Store, maxSize: nat, a: Op, b: Op, d: Op)
    ensures Run(c, s, maxSize, [a, b, d]) == Apply(c, Apply(c, Apply(c, s, maxSize, a), maxSize, b), maxSize, d)
  {
    assert [a, b, d][1..] == [b, d] && [b, d][1..] == [d] && [d][1..] == [];
    var s1 := Apply(c, s, maxSize, a);
    var s2 := Apply(c, s1, maxSize, b);
    assert Run(c, s, maxSize, [a, b, d]) == Run(c, s1, maxSize, [b, d]);
    assert Run(c, s1, maxSize, [b, d]) == Run(c, s2, maxSize, [d]);
    assert Run(c, s2, maxSize, [d]) == Run(c, Apply(c, s2, maxSize, d), maxSize, []);
  }

  predicate Chains(c: Codec, rec: Record) {
    c.LineHeight(c.encode(rec)) != 0
  }

  /** The losing state is reached under any file cap that two neighbouring messages together
      exceed: all three heights are served, and after the next restart the middle one is gone. */
  lemma {:induction false} RestartCanLose(c: Codec, maxSize: nat, r1: Record, r2: Record, r3: Record)
    requires c.Laws() && Chains(c, r1) && Chains(c, r2) && Chains(c, r3)
    requires 0 < maxSize < LineSize(c, r1) + LineSize(c, r2) && maxSize < LineSize(c, r2) + LineSize(c, r3)
    ensures var s := Run(c, EmptyStore(), maxSize, LosingRun(r1, r2, r3));
            var t := Apply(c, s, maxSize, Restart(true));
            var h1, h2, h3 := c.LineHeight(c.encode(r1)), c.LineHeight(c.encode(r2)), c.LineHeight(c.encode(r3));
            Retained(c, s.disk, s.idx) == [h1, h2, h3] && Retained(c, t.disk, t.idx) == [h1, h3]
  {
    var s0 := EmptyStore();
    assert FileEntries(c, []) == [] && Terminated([]);
    assert Consistent(c, s0);
    var s1 := Apply(c, s0, maxSize, Write(r1, true, CALLS_OK, true));
    var s2 := Apply(c, s1, maxSize, Write(r2, true, CALLS_OK, true));
    var s3 := Apply(c, s2, maxSize, Write(r3, true, COMPRESS_FAILS, true));
    FirstWrite(c, maxSize, r1);
    FullWrite(c, s1, maxSize, r2, CALLS_OK);
    ApplyKeeps(c, s0, maxSize, Write(r1, true, CALLS_OK, true));
    ApplyKeeps(c, s1, maxSize, Write(r2, true, CALLS_OK, true));
    FailedCompressionServes(c, s2, maxSize, r3);
    RunThree(c, s0, maxSize, Write(r1, true, CALLS_OK, true), Write(r2, true, CALLS_OK, true),
             Write(r3, true, COMPRESS_FAILS, true));
    ThreeServed(c, s3.idx, r1, r2, r3);
    TwoReloaded(c, r1, r2, r3);
  }

  /** An archive of the first, an aside of the second, an active file of the third. */
  function ThreeFiles(c: Codec, r1: Record, r2: Record, r3: Record): Disk {
    Disk(Some(OneRecord(c, r3)), Some(OneRecord(c, r2)), Some(OneRecord(c, r1)))
  }

  lemma ThreeServed(c: Codec, idx: seq<GenIndex>, r1: Record, r2: Record, r3: Record)
    requires c.Laws() && Has(idx, Raw)
    requires c.LineHeight(c.encode(r1)) != 0 && c.LineHeight(c.encode(r2)) != 0 && c.LineHeight(c.encode(r3)) != 0
    ensures Retained(c, ThreeFiles(c, r1, r2, r3), idx)
         == [c.LineHeight(c.encode(r1)), c.LineHeight(c.encode(r2)), c.LineHeight(c.encode(r3))]
  {
    OneRecordHeights(c, r1);
    OneRecordHeights(c, r2);
    OneRecordHeights(c, r3);
  }

  lemma TwoReloaded(c: Codec, r1: Record, r2: Record, r3: Record)
    requires c.Laws() && Settled(ThreeFiles(c, r1, r2, r3))
    requires c.LineHeight(c.encode(r1)) != 0 && c.LineHeight(c.encode(r3)) != 0
    ensures var d := ThreeFiles(c, r1, r2, r3);
            Retained(c, d, LoadedIndex(c, d)) == [c.LineHeight(c.encode(r1)), c.LineHeight(c.encode(r3))]
  {
    ReloadSkipsRaw(c, ThreeFiles(c, r1, r2, r3));
    OneRecordHeights(c, r1);
    OneRecordHeights(c, r3);
  }
}
