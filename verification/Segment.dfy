/** Older pages: capped windows of the disk generations, merged old to new into one
    ring, followed by RAM. */
module Segments {
  import opened Basics
  import opened Lines
  import opened WireModel
  import opened WindowRings
  import opened DiskScan
  import opened GenIndexes
  import opened StoreIndex
  import opened HistoryStores

  const DISK_LOOKUP_OFF := 0

  // ---------------------------------------------------------------- scans of a true index

  lemma {:induction false} RisingEntriesAscend(c: Codec, lines: seq<Bytes>)
    requires StrictlyUp(Heights(Entries(c, lines)))
    ensures HeightsAscend(c, lines)
    ensures forall i :: 0 <= i < |lines| && c.LineHeight(lines[i]) != 0 ==>
              c.LineHeight(lines[i]) in Heights(Entries(c, lines))
  {
    if lines != [] {
      var front, last := lines[..|lines| - 1], lines[|lines| - 1];
      var hs, hs' := Heights(Entries(c, front)), Heights(Entries(c, lines));
      assert c.LineHeight(last) != 0 ==> hs' == hs + [c.LineHeight(last)];
      assert StrictlyUp(hs) by {
        assert forall i :: 0 <= i < |hs| ==> hs[i] == hs'[i];
      }
      RisingEntriesAscend(c, front);
      forall i | 0 <= i < |front| && c.LineHeight(front[i]) != 0
        ensures c.LineHeight(front[i]) in hs'
        ensures c.LineHeight(last) != 0 ==> c.LineHeight(front[i]) < c.LineHeight(last)
      {
        var k :| 0 <= k < |hs| && hs[k] == c.LineHeight(front[i]);
        assert hs'[k] == hs[k];
        if c.LineHeight(last) != 0 {
          assert hs'[|hs|] == c.LineHeight(last);
        }
      }
      assert forall i :: 0 <= i < |front| ==> lines[i] == front[i];
    }
  }

  /** Every sample of a rising file's true entry can be sought to. */
  lemma SamplesSafe(c: Codec, g: GenIndex, file: Bytes)
    requires g.tier != Archive && Describes(c, g, file) && StrictlyUp(FileHeights(c, Some(file)))
    ensures forall s :: s in g.samples ==> SampleSafe(c, file, s)
  {
    var es := FileEntries(c, file);
    RisingEntriesAscend(c, CompleteLines(file));
    IndexMeaning(g.tier, es);
    SampledAreEntries(es);
    forall s | s in g.samples ensures SampleSafe(c, file, s) {
      EntryIsSample(c, file, s);
      SampleAtIsSafe(c, file, s);
    }
  }

  /** The heights of an indexed file are among those paging reaches, in order. */
  lemma IndexedFileRises(c: Codec, d: Disk, idx: seq<GenIndex>, g: GenIndex)
    requires Indexed(c, d, idx) && StrictlyUp(Retained(c, d, idx)) && g in idx
    ensures d.File(g.tier).Some? && Describes(c, g, d.File(g.tier).value) && Terminated(d.File(g.tier).value)
    ensures StrictlyUp(FileHeights(c, d.File(g.tier)))
  {
    InIndex(idx, g);
    assert CoversTier(c, d, Entry(idx, g.tier), g.tier);
    RetainedPart(c, d, idx, g.tier);
  }

  lemma RetainedPart(c: Codec, d: Disk, idx: seq<GenIndex>, t: Tier)
    requires StrictlyUp(Retained(c, d, idx)) && Has(idx, t)
    ensures StrictlyUp(FileHeights(c, d.File(t)))
  {
    var a, r, n := FileHeights(c, d.archive), RawHeights(c, d, idx), FileHeights(c, d.active);
    PartRises(a, r, n);
    match t
    case Archive => assert FileHeights(c, d.File(t)) == a;
    case Raw => assert FileHeights(c, d.File(t)) == r;
    case Active => assert FileHeights(c, d.File(t)) == n;
  }

  /** Everything a scan relies on follows from the index invariant. */
  lemma {:induction false} IndexedScansSafely(c: Codec, d: Disk, idx: seq<GenIndex>, g: GenIndex)
    requires Indexed(c, d, idx) && StrictlyUp(Retained(c, d, idx)) && g in idx
    ensures d.File(g.tier).Some? && TailHarmless(c, d.File(g.tier).value)
    ensures g.tier != Archive ==> forall s :: s in g.samples ==> SampleSafe(c, d.File(g.tier).value, s)
  {
    IndexedFileRises(c, d, idx, g);
    if g.tier != Archive {
      SamplesSafe(c, g, d.File(g.tier).value);
    }
  }

  lemma PartRises(a: seq<nat>, r: seq<nat>, n: seq<nat>)
    requires StrictlyUp(a + r + n)
    ensures StrictlyUp(a) && StrictlyUp(r) && StrictlyUp(n)
  {
    var hs := a + r + n;
    assert forall i :: 0 <= i < |a| ==> hs[i] == a[i];
    assert forall i :: 0 <= i < |r| ==> hs[|a| + i] == r[i];
    assert forall i :: 0 <= i < |n| ==> hs[|a| + |r| + i] == n[i];
  }

  // ---------------------------------------------------------------- the disk part

  function GenTexts(c: Codec, d: Disk, g: GenIndex): seq<string> {
    match d.File(g.tier)
    case Some(file) => c.Texts(CompleteLines(file))
    case None => []
  }

  /** The stored texts of the generations a lookup level may open, oldest first. */
  function DiskTexts(c: Codec, d: Disk, gens: seq<GenIndex>, level: nat): seq<string> {
    if gens == [] then []
    else (if Age(gens[0].tier) > level then [] else GenTexts(c, d, gens[0])) + DiskTexts(c, d, gens[1..], level)
  }

  ghost predicate PlainFile(c: Codec, file: Option<Bytes>) {
    file.Some? ==> PlainLog(c, CompleteLines(file.value))
  }

  ghost predicate PlainDisk(c: Codec, d: Disk) {
    PlainFile(c, d.active) && PlainFile(c, d.raw) && PlainFile(c, d.archive)
  }

  /** Generation windows collected so far: their concatenation keeps what a window over
      all texts read so far would keep, and nothing in it cuts. */
  ghost predicate Gathered(c: Codec, bound: nat, limit: nat, read: seq<string>, kept: seq<string>) {
    && LastN(kept, limit) == LastN(Upto(c, read, bound), limit)
    && forall i :: 0 <= i < |kept| ==> !Cuts(c, kept[i], bound)
  }

  lemma GatherGen(c: Codec, bound: nat, limit: nat, read: seq<string>, kept: seq<string>, texts: seq<string>,
                  window: seq<string>)
    requires Gathered(c, bound, limit, read, kept) && !Reached(c, read, bound)
    requires window == LastN(Upto(c, texts, bound), limit)
    ensures Gathered(c, bound, limit, read + texts, kept + window)
    ensures Reached(c, read + texts, bound) <==> Reached(c, texts, bound)
  {
    UptoConcat(c, read, texts, bound);
    UptoMeaning(c, texts, bound);
    var u := Upto(c, texts, bound);
    LastNOfCapped(kept, window, limit);
    LastNOfCapped(read, window, limit);
    LastNTail(read, u, limit);
  }

  /** The merge loop after the first i generations. */
  ghost predicate Merging(c: Codec, d: Disk, gens: seq<GenIndex>, level: nat, bound: nat, limit: nat,
                          i: nat, read: seq<string>, kept: seq<string>)
  {
    && i <= |gens|
    && DiskTexts(c, d, gens, level) == read + DiskTexts(c, d, gens[i..], level)
    && Gathered(c, bound, limit, read, kept)
  }

  lemma MergeStep(c: Codec, d: Disk, gens: seq<GenIndex>, level: nat, bound: nat, limit: nat,
                  i: nat, read: seq<string>, kept: seq<string>, window: seq<string>, done: bool)
    requires Merging(c, d, gens, level, bound, limit, i, read, kept) && i < |gens| && !Reached(c, read, bound)
    requires Age(gens[i].tier) > level ==> window == [] && !done
    requires Age(gens[i].tier) <= level ==> window == LastN(Upto(c, GenTexts(c, d, gens[i]), bound), limit)
    requires Age(gens[i].tier) <= level ==> done == Reached(c, GenTexts(c, d, gens[i]), bound)
    ensures var read' := read + if Age(gens[i].tier) > level then [] else GenTexts(c, d, gens[i]);
            && Merging(c, d, gens, level, bound, limit, i + 1, read', kept + window)
            && (Reached(c, read', bound) <==> done)
  {
    assert gens[i..][1..] == gens[i + 1..];
    if Age(gens[i].tier) > level {
      assert read + [] == read && kept + [] == kept;
      assert read + ([] + DiskTexts(c, d, gens[i + 1..], level)) == read + DiskTexts(c, d, gens[i + 1..], level);
    } else {
      var texts := GenTexts(c, d, gens[i]);
      GatherGen(c, bound, limit, read, kept, texts, window);
      assert read + (texts + DiskTexts(c, d, gens[i + 1..], level))
               == read + texts + DiskTexts(c, d, gens[i + 1..], level);
    }
  }

  /** A generation the level leaves out. */
  lemma MergeSkip(c: Codec, d: Disk, gens: seq<GenIndex>, level: nat, bound: nat, limit: nat, i: nat,
                  read: seq<string>, kept: seq<string>)
    requires Merging(c, d, gens, level, bound, limit, i, read, kept) && i < |gens| && !Reached(c, read, bound)
    requires Age(gens[i].tier) > level
    ensures Merging(c, d, gens, level, bound, limit, i + 1, read, kept)
  {
    MergeStep(c, d, gens, level, bound, limit, i, read, kept, [], false);
    assert read + [] == read && kept + [] == kept;
  }

  lemma MergeEnd(c: Codec, d: Disk, gens: seq<GenIndex>, level: nat, bound: nat, limit: nat,
                 i: nat, read: seq<string>, kept: seq<string>)
    requires Merging(c, d, gens, level, bound, limit, i, read, kept)
    requires i == |gens| || Reached(c, read, bound)
    ensures LastN(kept, limit) == LastN(Upto(c, DiskTexts(c, d, gens, level), bound), limit)
  {
    UptoConcat(c, read, DiskTexts(c, d, gens[i..], level), bound);
    assert i == |gens| ==> DiskTexts(c, d, gens, level) == read;
  }

  /** One generation of an indexed store, scanned. */
  method ScanIndexed(c: Codec, disk: Disk, gens: seq<GenIndex>, g: GenIndex, bound: nat, limit: nat, chunk: nat)
    returns (lines: seq<string>, done: bool)
    requires c.Laws() && PlainDisk(c, disk) && chunk >= 1
    requires Indexed(c, disk, gens) && StrictlyUp(Retained(c, disk, gens)) && g in gens
    ensures lines == LastN(Upto(c, GenTexts(c, disk, g), bound), limit)
    ensures done == Reached(c, GenTexts(c, disk, g), bound)
  {
    IndexedScansSafely(c, disk, gens, g);
    lines, done := ScanGen(c, disk.File(g.tier), g.tier, g.samples, bound, limit, chunk);
  }

  /** Merges the generations below the cutoff into the ring, old to new. */
  method WindowBefore(c: Codec, store: HistoryStore, ring: WindowRing, bound: nat, level: nat, chunk: nat)
    requires c.Laws() && store.Valid(c) && PlainDisk(c, store.disk) && chunk >= 1
    requires StrictlyUp(Retained(c, store.disk, store.idx))
    requires ring.Valid() && !ring.done && ring.Contents() == []
    modifies ring
    ensures ring.Valid() && !ring.done
    ensures ring.Contents() == LastN(Upto(c, DiskTexts(c, store.disk, store.idx, level), bound), ring.limit)
  {
    var gens, disk := store.idx, store.disk;
    var temps: seq<seq<string>>, i := CollectGens(c, disk, gens, bound, level, ring.limit, chunk);
    FeedWindows(c, ring, temps, bound);
  }

  method CollectGens(c: Codec, disk: Disk, gens: seq<GenIndex>, bound: nat, level: nat, limit: nat, chunk: nat)
    returns (temps: seq<seq<string>>, i: nat)
    requires c.Laws() && PlainDisk(c, disk) && chunk >= 1
    requires Indexed(c, disk, gens) && StrictlyUp(Retained(c, disk, gens))
    ensures LastN(Flatten(temps), limit) == LastN(Upto(c, DiskTexts(c, disk, gens, level), bound), limit)
    ensures forall k :: 0 <= k < |Flatten(temps)| ==> !Cuts(c, Flatten(temps)[k], bound)
  {
    temps, i := [], 0;
    ghost var read: seq<string> := [];
    assert gens[0..] == gens;
    var done := false;
    while i < |gens| && !done
      invariant Merging(c, disk, gens, level, bound, limit, i, read, Flatten(temps))
      invariant done <==> Reached(c, read, bound)
    {
      if Age(gens[i].tier) > level {
        MergeSkip(c, disk, gens, level, bound, limit, i, read, Flatten(temps));
        i := i + 1;
        continue;
      }
      var t;
      t, done, read := MergeGen(c, disk, gens, bound, level, limit, chunk, i, read, Flatten(temps));
      FlattenAppend(temps, t);
      temps, i := temps + [t], i + 1;
    }
    MergeEnd(c, disk, gens, level, bound, limit, i, read, Flatten(temps));
  }

  /** One more generation scanned. */
  method MergeGen(c: Codec, disk: Disk, gens: seq<GenIndex>, bound: nat, level: nat, limit: nat, chunk: nat, i: nat,
                  ghost read: seq<string>, ghost kept: seq<string>)
    returns (t: seq<string>, done: bool, ghost read': seq<string>)
    requires c.Laws() && PlainDisk(c, disk) && chunk >= 1
    requires Indexed(c, disk, gens) && StrictlyUp(Retained(c, disk, gens))
    requires i < |gens| && Merging(c, disk, gens, level, bound, limit, i, read, kept) && !Reached(c, read, bound)
    requires Age(gens[i].tier) <= level
    ensures Merging(c, disk, gens, level, bound, limit, i + 1, read', kept + t)
    ensures done <==> Reached(c, read', bound)
  {
    t, done := ScanIndexed(c, disk, gens, gens[i], bound, limit, chunk);
    read' := read + GenTexts(c, disk, gens[i]);
    MergeStep(c, disk, gens, level, bound, limit, i, read, kept, t, done);
  }

  /** Feeds windows that hold no cutting line: the ring keeps their tail. */
  method FeedWindows(c: Codec, ring: WindowRing, temps: seq<seq<string>>, bound: nat)
    requires ring.Valid() && !ring.done && ring.Contents() == []
    requires forall i :: 0 <= i < |Flatten(temps)| ==> !Cuts(c, Flatten(temps)[i], bound)
    modifies ring
    ensures ring.Valid() && !ring.done
    ensures ring.Contents() == LastN(Flatten(temps), ring.limit)
  {
    ghost var all := Flatten(temps);
    ghost var fed: seq<string> := [];
    assert temps[0..] == temps;
    for i := 0 to |temps|
      invariant ring.Valid() && !ring.done
      invariant all == fed + Flatten(temps[i..])
      invariant ring.Contents() == LastN(fed, ring.limit)
    {
      ghost var t, rest := temps[i], Flatten(temps[i + 1..]);
      assert temps[i..] == [t] + temps[i + 1..];
      assert all == (fed + t) + rest;
      assert forall k :: 0 <= k < |temps[i]| ==> temps[i][k] == all[|fed| + k];
      FeedTexts(c, ring, temps[i], bound);
      LastNOfCapped(fed, t, ring.limit);
      fed := fed + t;
    }
    assert all == fed;
  }

  method FeedTexts(c: Codec, ring: WindowRing, texts: seq<string>, bound: nat)
    requires ring.Valid() && !ring.done
    requires forall k :: 0 <= k < |texts| ==> !Cuts(c, texts[k], bound)
    modifies ring
    ensures ring.Valid() && !ring.done
    ensures ring.Contents() == LastN(old(ring.Contents()) + texts, ring.limit)
  {
    ghost var was := ring.Contents();
    NoneFed(was, texts, ring.limit);
    for j := 0 to |texts|
      invariant ring.Valid() && !ring.done
      invariant ring.Contents() == LastN(was + texts[..j], ring.limit)
    {
      FeedOne(was, texts, j, ring.limit);
      var cut := ring.Feed(c, texts[j], bound);
    }
    assert texts[..|texts|] == texts;
  }

  lemma NoneFed(was: seq<string>, texts: seq<string>, limit: nat)
    requires |was| <= limit
    ensures LastN(was + texts[..0], limit) == was
  {
    assert was + texts[..0] == was;
  }

  lemma FeedOne(was: seq<string>, texts: seq<string>, j: nat, limit: nat)
    requires j < |texts|
    ensures LastN(LastN(was + texts[..j], limit) + [texts[j]], limit) == LastN(was + texts[..j + 1], limit)
  {
    LastNOfCapped(was + texts[..j], [texts[j]], limit);
    assert was + texts[..j] + [texts[j]] == was + texts[..j + 1];
  }

  // ---------------------------------------------------------------- one older segment

  /** The smallest chained height among stored lines, 0 when there is none. */
  method OldestChained(c: Codec, lines: seq<string>) returns (oldest: nat)
    ensures oldest == 0 <==> forall i :: 0 <= i < |lines| ==> c.TextHeight(lines[i]) == 0
    ensures forall i :: 0 <= i < |lines| && c.TextHeight(lines[i]) != 0 ==> oldest <= c.TextHeight(lines[i])
    ensures oldest != 0 ==> exists i :: 0 <= i < |lines| && c.TextHeight(lines[i]) == oldest
  {
    oldest := 0;
    for k := 0 to |lines|
      invariant oldest == 0 <==> forall i :: 0 <= i < k ==> c.TextHeight(lines[i]) == 0
      invariant forall i :: 0 <= i < k && c.TextHeight(lines[i]) != 0 ==> oldest <= c.TextHeight(lines[i])
      invariant oldest != 0 ==> exists i :: 0 <= i < k && c.TextHeight(lines[i]) == oldest
    {
      var h := c.TextHeight(lines[k]);
      if h != 0 && (oldest == 0 || h < oldest) {
        oldest := h;
      }
    }
  }

  /** The chained lines among stored texts. */
  function Chained(c: Codec, texts: seq<string>): seq<string> {
    if texts == [] then []
    else (if c.TextHeight(texts[0]) != 0 then [texts[0]] else []) + Chained(c, texts[1..])
  }

  ghost predicate StrictHeights(c: Codec, log: seq<string>) {
    && (forall i :: 0 <= i < |log| ==> c.TextHeight(log[i]) != 0)
    && (forall i, j :: 0 <= i < j < |log| ==> c.TextHeight(log[i]) < c.TextHeight(log[j]))
  }

  /** Disk below RAM's first chained line, then RAM: the log both hold together, for any
      chained lines of disk and of RAM. */
  function Joint(c: Codec, onDisk: seq<string>, inRam: seq<string>): seq<string> {
    if inRam == [] then onDisk else Upto(c, onDisk, c.TextHeight(inRam[0])) + inRam
  }

  /** Where disk stops: at RAM's oldest height when that is below the cut. */
  function SeamAt(c: Codec, inRam: seq<string>, before: nat): nat {
    if inRam != [] && c.TextHeight(inRam[0]) < before then c.TextHeight(inRam[0]) else before
  }

  lemma {:induction false} ChainedConcat(c: Codec, a: seq<string>, b: seq<string>)
    ensures Chained(c, a + b) == Chained(c, a) + Chained(c, b)
  {
    if a == [] {
      assert a + b == b;
    } else {
      assert (a + b)[1..] == a[1..] + b;
      ChainedConcat(c, a[1..], b);
    }
  }

  /** The chained lines of a tail are a tail of the chained lines. */
  lemma ChainedLastN(c: Codec, texts: seq<string>, n: nat)
    ensures Chained(c, LastN(texts, n)) == LastN(Chained(c, texts), |Chained(c, LastN(texts, n))|)
  {
    var front, tail := texts[..|texts| - |LastN(texts, n)|], LastN(texts, n);
    assert texts == front + tail;
    ChainedConcat(c, front, tail);
    TailOfBoth(Chained(c, front), Chained(c, tail));
  }

  lemma TailOfBoth<T>(front: seq<T>, tail: seq<T>)
    ensures LastN(front + tail, |tail|) == tail
  {
  }

  /** Cutting stored lines cuts their chained lines at the same height. */
  lemma {:induction false} ChainedUpto(c: Codec, texts: seq<string>, before: nat)
    ensures Chained(c, Upto(c, texts, before)) == Upto(c, Chained(c, texts), before)
  {
    if texts != [] {
      var rest := Chained(c, texts[1..]);
      if c.TextHeight(texts[0]) == 0 {
        assert [] + rest == rest;
      } else {
        assert ([texts[0]] + rest)[1..] == rest;
      }
      if !Cuts(c, texts[0], before) {
        ChainedUpto(c, texts[1..], before);
        assert Upto(c, texts, before)[1..] == Upto(c, texts[1..], before);
      }
    }
  }

  lemma {:induction false} UptoNothing(c: Codec, texts: seq<string>, before: nat)
    requires texts != [] ==> Cuts(c, texts[0], before)
    ensures Upto(c, texts, before) == []
  {
  }

  /** A smaller cutoff keeps a prefix of what a larger one keeps. */
  lemma {:induction false} UptoTwice(c: Codec, texts: seq<string>, low: nat, high: nat)
    requires 0 < low <= high
    ensures Upto(c, Upto(c, texts, high), low) == Upto(c, texts, low)
  {
    if texts != [] && !Cuts(c, texts[0], high) {
      UptoTwice(c, texts[1..], low, high);
      assert Upto(c, texts, high)[1..] == Upto(c, texts[1..], high);
      assert !Cuts(c, texts[0], low) ==> Upto(c, texts, low)[1..] == Upto(c, texts[1..], low);
    }
  }

  lemma {:induction false} UptoBelow(c: Codec, texts: seq<string>, low: nat, high: nat)
    requires 0 < low <= high
    ensures forall i :: 0 <= i < |Upto(c, texts, low)| ==> !Cuts(c, Upto(c, texts, low)[i], high)
  {
    UptoMeaning(c, texts, low);
  }

  lemma JointRises(c: Codec, onDisk: seq<string>, inRam: seq<string>)
    requires StrictHeights(c, onDisk) && StrictHeights(c, inRam)
    ensures StrictHeights(c, Joint(c, onDisk, inRam))
  {
    if inRam != [] {
      UptoMeaning(c, onDisk, c.TextHeight(inRam[0]));
    }
  }

  /** Disk cut at the seam, then RAM cut at `before`: exactly what both hold together below
      `before`, whatever either of them has lost. */
  lemma {:induction false} SeamIsExact(c: Codec, onDisk: seq<string>, inRam: seq<string>, before: nat)
    requires StrictHeights(c, onDisk) && StrictHeights(c, inRam) && before != 0
    ensures Upto(c, onDisk, SeamAt(c, inRam, before)) + Upto(c, inRam, before)
         == Upto(c, Joint(c, onDisk, inRam), before)
    ensures StrictHeights(c, Joint(c, onDisk, inRam))
  {
    JointRises(c, onDisk, inRam);
    if inRam != [] {
      var first := c.TextHeight(inRam[0]);
      var own := Upto(c, onDisk, first);
      UptoConcat(c, own, inRam, before);
      if first < before {
        UptoBelow(c, onDisk, first, before);
        UptoClear(c, own, before);
      } else {
        UptoTwice(c, onDisk, before, first);
        UptoNothing(c, inRam, before);
      }
    }
  }

  /** What the collector returns: a capped tail of disk below the seam, then RAM. */
  function SegmentTexts(c: Codec, onDisk: seq<string>, inRam: seq<string>, bound: nat, before: nat,
                        limit: nat): seq<string>
  {
    LastN(Upto(c, onDisk, bound) + Upto(c, inRam, before), limit)
  }

  /** Within the limit, the chained lines end the log strictly below `before`: none
      repeated, none skipped, in height order; all of them unless the page is full. */
  ghost predicate EndsLog(c: Codec, lines: seq<string>, log: seq<string>, before: nat, limit: nat) {
    && |lines| <= limit
    && StrictHeights(c, log)
    && Chained(c, lines) == LastN(Upto(c, log, before), |Chained(c, lines)|)
    && (|lines| < limit ==> Chained(c, lines) == Upto(c, log, before))
  }

  /** An older segment's chained lines are the end, below `before`, of what disk and RAM
      hold together. */
  lemma {:induction false} SegmentIsLogSuffix(c: Codec, onDisk: seq<string>, inRam: seq<string>, before: nat,
                                              limit: nat)
    requires StrictHeights(c, Chained(c, onDisk)) && StrictHeights(c, Chained(c, inRam))
    requires before == 0 ==> onDisk == []
    ensures EndsLog(c, SegmentTexts(c, onDisk, inRam, SeamAt(c, Chained(c, inRam), before), before, limit),
                    Joint(c, Chained(c, onDisk), Chained(c, inRam)), before, limit)
  {
    var disk, ram := Chained(c, onDisk), Chained(c, inRam);
    var bound := SeamAt(c, ram, before);
    var a, b := Upto(c, onDisk, bound), Upto(c, inRam, before);
    ChainedLastN(c, a + b, limit);
    ChainedConcat(c, a, b);
    ChainedUpto(c, onDisk, bound);
    ChainedUpto(c, inRam, before);
    JointRises(c, disk, ram);
    if before != 0 {
      SeamIsExact(c, disk, ram, before);
    } else {
      UptoClear(c, Joint(c, disk, ram), 0);
      UptoClear(c, ram, 0);
    }
  }

  // ---------------------------------------------------------------- the heights of a lookup level

  function HeightsIn(c: Codec, log: seq<string>): seq<nat> {
    seq(|log|, i requires 0 <= i < |log| => c.TextHeight(log[i]))
  }

  /** The chained heights of stored texts, in order. */
  function HeightsOf(c: Codec, texts: seq<string>): seq<nat> {
    HeightsIn(c, Chained(c, texts))
  }

  /** Cutting disk at a height keeps exactly the heights below it. */
  lemma UptoHeights(c: Codec, onDisk: seq<string>, first: nat, h: nat)
    requires StrictHeights(c, onDisk) && first != 0
    ensures h in HeightsIn(c, Upto(c, onDisk, first)) <==> h in HeightsIn(c, onDisk) && h < first
  {
    var own, hs := Upto(c, onDisk, first), HeightsIn(c, onDisk);
    UptoMeaning(c, onDisk, first);
    assert HeightsIn(c, own) == hs[..|own|];
    if h in hs && h < first {
      var i :| 0 <= i < |hs| && hs[i] == h;
      assert c.TextHeight(onDisk[i]) == h;
      assert |own| < |onDisk| ==> c.TextHeight(onDisk[|own|]) >= first;
      assert i < |own|;
      assert HeightsIn(c, own)[i] == h;
    }
  }

  /** The heights the two hold together: all of RAM's, and of disk's those below RAM's start. */
  lemma {:induction false} JointHolds(c: Codec, onDisk: seq<string>, inRam: seq<string>, h: nat)
    requires StrictHeights(c, onDisk) && StrictHeights(c, inRam)
    ensures h in HeightsIn(c, Joint(c, onDisk, inRam)) <==>
              || h in HeightsIn(c, inRam)
              || (h in HeightsIn(c, onDisk) && (inRam != [] ==> h < c.TextHeight(inRam[0])))
  {
    if inRam != [] {
      var own := Upto(c, onDisk, c.TextHeight(inRam[0]));
      UptoHeights(c, onDisk, c.TextHeight(inRam[0]), h);
      assert HeightsIn(c, own + inRam) == HeightsIn(c, own) + HeightsIn(c, inRam);
    }
  }

  /** What it means to end the log: a page's heights rise, stay below `before`, and skip nothing of
      the log from the first of them up; nothing at all unless the page is full. */
  lemma {:induction false} PageHolds(c: Codec, lines: seq<string>, log: seq<string>, before: nat, limit: nat, h: nat)
    requires EndsLog(c, lines, log, before, limit) && before != 0
    ensures StrictlyUp(HeightsOf(c, lines))
    ensures h in HeightsOf(c, lines) ==> h in HeightsIn(c, log) && h < before
    ensures h in HeightsIn(c, log) && h < before && |lines| < limit ==> h in HeightsOf(c, lines)
    ensures HeightsOf(c, lines) != [] && h in HeightsIn(c, log) && HeightsOf(c, lines)[0] <= h < before ==>
              h in HeightsOf(c, lines)
  {
    var all := HeightsIn(c, Upto(c, log, before));
    UptoMeaning(c, log, before);
    UptoHeights(c, log, before, h);
    TailHeightsIn(c, Upto(c, log, before), |Chained(c, lines)|);
    TailOfRising(all, HeightsOf(c, lines), h);
  }

  lemma TailHeightsIn(c: Codec, log: seq<string>, n: nat)
    ensures HeightsIn(c, LastN(log, n)) == LastN(HeightsIn(c, log), n)
  {
  }

  lemma TailOfRising(all: seq<nat>, tail: seq<nat>, h: nat)
    requires StrictlyUp(all) && |tail| <= |all| && tail == LastN(all, |tail|)
    ensures StrictlyUp(tail) && (h in tail ==> h in all)
    ensures tail != [] && h in all && tail[0] <= h ==> h in tail
  {
    assert forall i :: 0 <= i < |tail| ==> tail[i] == all[|all| - |tail| + i];
    if tail != [] && h in all && tail[0] <= h {
      var i :| 0 <= i < |all| && all[i] == h;
      assert tail[i - (|all| - |tail|)] == h;
    }
  }

  lemma HeightsConcat(c: Codec, a: seq<string>, b: seq<string>)
    ensures HeightsOf(c, a + b) == HeightsOf(c, a) + HeightsOf(c, b)
  {
    ChainedConcat(c, a, b);
  }

  lemma {:induction false} ChainedAreChained(c: Codec, texts: seq<string>)
    ensures forall i :: 0 <= i < |Chained(c, texts)| ==> c.TextHeight(Chained(c, texts)[i]) != 0
  {
    if texts != [] {
      ChainedAreChained(c, texts[1..]);
    }
  }

  lemma RisingIsStrict(c: Codec, texts: seq<string>)
    ensures StrictlyUp(HeightsOf(c, texts)) <==> StrictHeights(c, Chained(c, texts))
  {
    ChainedAreChained(c, texts);
    var chained, hs := Chained(c, texts), HeightsOf(c, texts);
    assert forall i :: 0 <= i < |chained| ==> hs[i] == c.TextHeight(chained[i]);
  }

  lemma OneHeight(c: Codec, t: string)
    ensures HeightsOf(c, [t]) == if c.TextHeight(t) == 0 then [] else [c.TextHeight(t)]
  {
    assert [t][1..] == [] && Chained(c, []) == [];
    assert Chained(c, [t]) == if c.TextHeight(t) != 0 then [t] else [];
  }

  /** Rendering keeps every chained height of a file. */
  lemma {:induction false} TextsKeepHeights(c: Codec, lines: seq<Bytes>)
    requires c.Laws() && PlainLog(c, lines)
    ensures HeightsOf(c, c.Texts(lines)) == Heights(Entries(c, lines))
  {
    if lines != [] {
      var front, last := lines[..|lines| - 1], lines[|lines| - 1];
      assert forall l :: l in front ==> l in lines;
      TextsKeepHeights(c, front);
      c.RenderKeepsHeight(last);
      match c.LineText(last) {
        case Some(t) =>
          HeightsConcat(c, c.Texts(front), [t]);
          OneHeight(c, t);
        case None =>
      }
    }
  }

  /** What one tier adds to what a lookup level reaches. */
  function TierHeights(c: Codec, d: Disk, idx: seq<GenIndex>, level: nat, t: Tier): seq<nat> {
    if Has(idx, t) && Age(t) <= level then FileHeights(c, d.File(t)) else []
  }

  /** The heights a lookup level reaches, oldest generation first. */
  function LevelHeights(c: Codec, d: Disk, idx: seq<GenIndex>, level: nat): seq<nat> {
    TierHeights(c, d, idx, level, Archive) + TierHeights(c, d, idx, level, Raw) + TierHeights(c, d, idx, level, Active)
  }

  lemma TierStep(c: Codec, d: Disk, idx: seq<GenIndex>, level: nat, u: Tier)
    requires idx != [] && OldToNew(idx)
    ensures u != idx[0].tier ==> TierHeights(c, d, idx, level, u) == TierHeights(c, d, idx[1..], level, u)
    ensures Age(u) >= Age(idx[0].tier) ==> TierHeights(c, d, idx[1..], level, u) == []
  {
    if Age(u) >= Age(idx[0].tier) {
      NoneBelow(idx[1..], idx[0].tier, u);
    }
  }

  lemma {:induction false} LevelReaches(c: Codec, d: Disk, idx: seq<GenIndex>, level: nat)
    requires c.Laws() && PlainDisk(c, d) && OldToNew(idx)
    ensures HeightsOf(c, DiskTexts(c, d, idx, level)) == LevelHeights(c, d, idx, level)
  {
    if idx != [] {
      var t, rest := idx[0].tier, idx[1..];
      LevelReaches(c, d, rest, level);
      var own := if Age(t) > level then [] else GenTexts(c, d, idx[0]);
      HeightsConcat(c, own, DiskTexts(c, d, rest, level));
      GenHeights(c, d, idx[0]);
      LevelSplits(c, d, idx, level, HeightsOf(c, own));
    }
  }

  lemma LevelSplits(c: Codec, d: Disk, idx: seq<GenIndex>, level: nat, own: seq<nat>)
    requires idx != [] && OldToNew(idx)
    requires own == if Age(idx[0].tier) > level then [] else FileHeights(c, d.File(idx[0].tier))
    ensures LevelHeights(c, d, idx, level) == own + LevelHeights(c, d, idx[1..], level)
  {
    TierStep(c, d, idx, level, Archive);
    TierStep(c, d, idx, level, Raw);
    TierStep(c, d, idx, level, Active);
    FirstTier(c, d, idx, level, own);
  }

  lemma FirstTier(c: Codec, d: Disk, idx: seq<GenIndex>, level: nat, own: seq<nat>)
    requires idx != [] && own == TierHeights(c, d, idx, level, idx[0].tier)
    requires forall u: Tier :: u != idx[0].tier ==>
               TierHeights(c, d, idx, level, u) == TierHeights(c, d, idx[1..], level, u)
    requires forall u: Tier :: Age(u) >= Age(idx[0].tier) ==> TierHeights(c, d, idx[1..], level, u) == []
    ensures LevelHeights(c, d, idx, level) == own + LevelHeights(c, d, idx[1..], level)
  {
    var a, r, n := TierHeights(c, d, idx[1..], level, Archive), TierHeights(c, d, idx[1..], level, Raw),
        TierHeights(c, d, idx[1..], level, Active);
    match idx[0].tier
    case Archive => assert own + r + n == own + ([] + r + n);
    case Raw => assert [] + own + n == own + ([] + [] + n);
    case Active => assert [] + [] + own == own + ([] + [] + []);
  }

  lemma NoneBelow(idx: seq<GenIndex>, t: Tier, u: Tier)
    requires Below(idx, t) && Age(u) >= Age(t)
    ensures !Has(idx, u)
  {
  }

  lemma GenHeights(c: Codec, d: Disk, g: GenIndex)
    requires c.Laws() && PlainDisk(c, d)
    ensures HeightsOf(c, GenTexts(c, d, g)) == FileHeights(c, d.File(g.tier))
  {
    if d.File(g.tier).Some? {
      TextsKeepHeights(c, CompleteLines(d.File(g.tier).value));
    }
  }

  /** A lookup level reaches the newest of the retained heights, level 3 all of them. */
  lemma {:induction false} LevelIsTail(c: Codec, d: Disk, idx: seq<GenIndex>, level: nat)
    requires c.Laws() && PlainDisk(c, d) && Indexed(c, d, idx)
    ensures var reached, all := HeightsOf(c, DiskTexts(c, d, idx, level)), Retained(c, d, idx);
            |reached| <= |all| && reached == all[|all| - |reached|..] && (level >= 3 ==> reached == all)
  {
    LevelReaches(c, d, idx, level);
    ReachOfTier(c, d, idx, level, Archive);
    ReachOfTier(c, d, idx, level, Active);
    TailOfThree(FileHeights(c, d.archive), RawHeights(c, d, idx), FileHeights(c, d.active),
                TierHeights(c, d, idx, level, Archive), TierHeights(c, d, idx, level, Raw),
                TierHeights(c, d, idx, level, Active), level);
  }

  /** Which files a lookup level opens: none when off, then the active file, then the indexed aside
      too, and from level 3 on the archive as well. */
  lemma {:induction false} LevelHolds(c: Codec, d: Disk, idx: seq<GenIndex>, level: nat)
    requires c.Laws() && PlainDisk(c, d) && Indexed(c, d, idx)
    ensures HeightsOf(c, DiskTexts(c, d, idx, level)) ==
              if level == 0 then []
              else if level == 1 then FileHeights(c, d.active)
              else if level == 2 then RawHeights(c, d, idx) + FileHeights(c, d.active)
              else FileHeights(c, d.archive) + RawHeights(c, d, idx) + FileHeights(c, d.active)
  {
    LevelReaches(c, d, idx, level);
    ReachOfTier(c, d, idx, level, Archive);
    ReachOfTier(c, d, idx, level, Active);
    assert [] + RawHeights(c, d, idx) == RawHeights(c, d, idx);
    assert [] + FileHeights(c, d.active) == FileHeights(c, d.active);
  }

  lemma ReachOfTier(c: Codec, d: Disk, idx: seq<GenIndex>, level: nat, t: Tier)
    requires Indexed(c, d, idx) && t != Raw
    ensures TierHeights(c, d, idx, level, t) == if Age(t) <= level then FileHeights(c, d.File(t)) else []
  {
    assert CoversTier(c, d, Entry(idx, t), t);
  }

  lemma TailOfThree(a: seq<nat>, r: seq<nat>, n: seq<nat>, a': seq<nat>, r': seq<nat>, n': seq<nat>, level: nat)
    requires a' == if 3 <= level then a else []
    requires r' == if 2 <= level then r else []
    requires n' == if 1 <= level then n else []
    ensures var all, reached := a + r + n, a' + r' + n';
            |reached| <= |all| && reached == all[|all| - |reached|..] && (level >= 3 ==> reached == all)
  {
  }

  /** What disk contributes to a page rises strictly. */
  lemma DiskShareRises(c: Codec, store: HistoryStore?, before: nat, level: nat)
    requires c.Laws()
    requires store != null ==>
               store.Valid(c) && PlainDisk(c, store.disk) && StrictlyUp(Retained(c, store.disk, store.idx))
    ensures StrictHeights(c, Chained(c, DiskShare(c, store, before, level)))
  {
    var share := DiskShare(c, store, before, level);
    if before != 0 && store != null && level > DISK_LOOKUP_OFF {
      LevelIsTail(c, store.disk, store.idx, level);
      RisingIsStrict(c, share);
    }
  }

  lemma {:induction false} ChainedHas(c: Codec, lines: seq<string>, i: nat)
    requires i < |lines| && c.TextHeight(lines[i]) != 0
    ensures lines[i] in Chained(c, lines)
  {
    if i > 0 {
      ChainedHas(c, lines[1..], i - 1);
    }
  }

  lemma {:induction false} ChainedFrom(c: Codec, lines: seq<string>, t: string)
    requires t in Chained(c, lines)
    ensures exists i :: 0 <= i < |lines| && lines[i] == t
    ensures c.TextHeight(t) != 0
  {
    if !(c.TextHeight(lines[0]) != 0 && t == lines[0]) {
      ChainedFrom(c, lines[1..], t);
      var i :| 0 <= i < |lines[1..]| && lines[1..][i] == t;
      assert lines[i + 1] == t;
    }
  }

  /** Collects up to `limit` stored lines older than `before`, from disk and RAM. */
  method CollectSegment(c: Codec, store: HistoryStore?, history: seq<string>, before: nat, limit: int, level: nat,
                        chunk: nat)
    returns (lines: seq<string>, ghost bound: nat)
    requires c.Laws() && chunk >= 1
    requires store != null ==> store.Valid(c) && PlainDisk(c, store.disk)
    requires store != null ==> StrictlyUp(Retained(c, store.disk, store.idx))
    ensures limit <= 0 ==> lines == []
    ensures limit > 0 && (before == 0 || store == null || level == 0) ==>
              lines == LastN(Upto(c, history, before), limit)
    ensures limit > 0 && before != 0 && store != null && level >= 1 ==>
              lines == SegmentTexts(c, DiskTexts(c, store.disk, store.idx, level), history, bound, before, limit)
    ensures StrictHeights(c, Chained(c, history)) ==> bound == SeamAt(c, Chained(c, history), before)
    ensures limit > 0 && StrictHeights(c, Chained(c, history)) && (before == 0 || store == null || level == 0) ==>
              EndsLog(c, lines, Chained(c, history), before, limit)
    ensures limit > 0 && StrictHeights(c, Chained(c, history)) && before != 0 && store != null && level >= 1 ==>
              EndsLog(c, lines, Joint(c, Chained(c, DiskTexts(c, store.disk, store.idx, level)), Chained(c, history)),
                      before, limit)
  {
    var oldest := OldestChained(c, history);
    SeamBound(c, history, oldest);
    var cut := if oldest != 0 && oldest < before then oldest else before;
    bound := cut;
    if limit <= 0 {
      return [], bound;
    }
    lines := FillRing(c, store, history, before, cut, limit, level, chunk);
    PageTexts(c, store, history, bound, before, limit, level, lines);
    if StrictHeights(c, Chained(c, history)) {
      PageEnds(c, store, history, before, limit, level, lines);
    }
  }

  /** Fills one ring from disk below the cut, then from RAM below `before`. */
  method FillRing(c: Codec, store: HistoryStore?, history: seq<string>, before: nat, cut: nat, limit: nat, level: nat,
                  chunk: nat)
    returns (lines: seq<string>)
    requires c.Laws() && chunk >= 1
    requires store != null ==> store.Valid(c) && PlainDisk(c, store.disk)
    requires store != null ==> StrictlyUp(Retained(c, store.disk, store.idx))
    ensures lines == SegmentTexts(c, DiskShare(c, store, before, level), history, cut, before, limit)
  {
    var ring := new WindowRing(limit);
    ghost var onDisk := FillFromDisk(c, store, ring, before, cut, level, chunk);
    FeedRam(c, ring, history, before);
    LastNOfCapped(Upto(c, onDisk, cut), Upto(c, history, before), limit);
    lines := ring.Drain();
  }

  lemma PageTexts(c: Codec, store: HistoryStore?, history: seq<string>, bound: nat, before: nat, limit: nat, level: nat,
                  lines: seq<string>)
    requires lines == SegmentTexts(c, DiskShare(c, store, before, level), history, bound, before, limit)
    ensures before == 0 || store == null || level == 0 ==> lines == LastN(Upto(c, history, before), limit)
    ensures before != 0 && store != null && level >= 1 ==>
              lines == SegmentTexts(c, DiskTexts(c, store.disk, store.idx, level), history, bound, before, limit)
  {
    NothingOnDisk(c, history, bound, before, limit);
  }

  lemma PageEnds(c: Codec, store: HistoryStore?, history: seq<string>, before: nat, limit: nat, level: nat,
                 lines: seq<string>)
    requires c.Laws() && StrictHeights(c, Chained(c, history))
    requires store != null ==>
               store.Valid(c) && PlainDisk(c, store.disk) && StrictlyUp(Retained(c, store.disk, store.idx))
    requires lines == SegmentTexts(c, DiskShare(c, store, before, level), history,
                                   SeamAt(c, Chained(c, history), before),
                                   before, limit)
    ensures before == 0 || store == null || level == 0 ==> EndsLog(c, lines, Chained(c, history), before, limit)
    ensures before != 0 && store != null && level >= 1 ==>
              EndsLog(c, lines, Joint(c, Chained(c, DiskTexts(c, store.disk, store.idx, level)), Chained(c, history)),
                      before, limit)
  {
    DiskShareRises(c, store, before, level);
    SegmentIsLogSuffix(c, DiskShare(c, store, before, level), history, before, limit);
    NothingOnDisk(c, history, 0, before, limit);
  }

  /** Without a share of disk the page is RAM's. */
  lemma NothingOnDisk(c: Codec, history: seq<string>, bound: nat, before: nat, limit: nat)
    ensures SegmentTexts(c, [], history, bound, before, limit) == LastN(Upto(c, history, before), limit)
    ensures Joint(c, Chained(c, []), Chained(c, history)) == Chained(c, history)
  {
    assert [] + Upto(c, history, before) == Upto(c, history, before);
    assert [] + Chained(c, history) == Chained(c, history);
  }

  /** What disk contributes: nothing for a tail window, without a store, or at level off. */
  ghost function DiskShare(c: Codec, store: HistoryStore?, before: nat, level: nat): seq<string>
    reads store
  {
    if before != 0 && store != null && level > DISK_LOOKUP_OFF then DiskTexts(c, store.disk, store.idx, level) else []
  }

  method FillFromDisk(c: Codec, store: HistoryStore?, ring: WindowRing, before: nat, bound: nat, level: nat, chunk: nat)
    returns (ghost onDisk: seq<string>)
    requires c.Laws() && chunk >= 1
    requires store != null ==> store.Valid(c) && PlainDisk(c, store.disk)
    requires store != null ==> StrictlyUp(Retained(c, store.disk, store.idx))
    requires ring.Valid() && !ring.done && ring.Contents() == []
    modifies ring
    ensures onDisk == DiskShare(c, store, before, level)
    ensures ring.Valid() && !ring.done && ring.Contents() == LastN(Upto(c, onDisk, bound), ring.limit)
  {
    onDisk := DiskShare(c, store, before, level);
    if before != 0 && store != null {
      if level > DISK_LOOKUP_OFF {
        WindowBefore(c, store, ring, bound, level, chunk);
      }
    }
  }

  /** With rising heights the smallest chained height in RAM is its first chained line's. */
  lemma SeamBound(c: Codec, history: seq<string>, oldest: nat)
    requires oldest == 0 <==> forall i :: 0 <= i < |history| ==> c.TextHeight(history[i]) == 0
    requires forall i :: 0 <= i < |history| && c.TextHeight(history[i]) != 0 ==> oldest <= c.TextHeight(history[i])
    requires oldest != 0 ==> exists i :: 0 <= i < |history| && c.TextHeight(history[i]) == oldest
    ensures Chained(c, history) == [] <==> oldest == 0
    ensures Chained(c, history) != [] && StrictHeights(c, Chained(c, history)) ==>
              oldest == c.TextHeight(Chained(c, history)[0])
  {
    var chained := Chained(c, history);
    forall i | 0 <= i < |history| && c.TextHeight(history[i]) != 0
      ensures history[i] in chained
    {
      ChainedHas(c, history, i);
    }
    if chained != [] {
      ChainedFrom(c, history, chained[0]);
    }
  }

  /** The window over RAM so far, one line further. */
  lemma FeedStep(c: Codec, was: seq<string>, history: seq<string>, j: nat, before: nat, limit: nat, shown: seq<string>,
                 shown': seq<string>)
    requires j < |history| && Windowed(c, was, history[..j], before, limit, shown, false)
    requires shown' == if Cuts(c, history[j], before) then shown else LastN(shown + [history[j]], limit)
    ensures Windowed(c, was, history[..j + 1], before, limit, shown', Cuts(c, history[j], before))
  {
    assert history[..j] + [history[j]] == history[..j + 1];
    WindowStep(c, was, history[..j], history[j], before, limit, shown, false, shown');
  }

  lemma FeedCut(c: Codec, was: seq<string>, history: seq<string>, j: nat, before: nat, limit: nat, shown: seq<string>)
    requires j < |history| && Windowed(c, was, history[..j + 1], before, limit, shown, true)
    ensures Windowed(c, was, history, before, limit, shown, true)
  {
    WindowClosed(c, was, history[..j + 1], history[j + 1..], before, limit, shown);
    assert history[..j + 1] + history[j + 1..] == history;
  }

  method FeedRam(c: Codec, ring: WindowRing, history: seq<string>, before: nat)
    requires ring.Valid() && !ring.done
    modifies ring
    ensures ring.Valid()
    ensures ring.Contents() == LastN(old(ring.Contents()) + Upto(c, history, before), ring.limit)
  {
    ghost var was := ring.Contents();
    assert was + [] == was && LastN(was, ring.limit) == was;
    assert history[..0] == [];
    for j := 0 to |history|
      invariant ring.Valid() && !ring.done
      invariant Windowed(c, was, history[..j], before, ring.limit, ring.Contents(), false)
    {
      ghost var shown := ring.Contents();
      var cut := ring.Feed(c, history[j], before);
      FeedStep(c, was, history, j, before, ring.limit, shown, ring.Contents());
      if cut {
        FeedCut(c, was, history, j, before, ring.limit, ring.Contents());
        return;
      }
    }
    assert history[..|history|] == history;
  }
}
