/** The page index: one entry per disk generation, with height bounds and, for files
    that can seek, a sparse list of (height, byte offset) samples. */
module GenIndexes {
  import opened Basics
  import opened Lines
  import opened WireModel
  import opened DiskScan

  const SAMPLE_STRIDE := 256

  datatype GenIndex = GenIndex(tier: Tier, minH: nat, maxH: nat, chained: bool,
                               samples: seq<HeightSample>, sinceSample: nat)

  function EmptyGen(tier: Tier): GenIndex {
    GenIndex(tier, 0, 0, false, [], 0)
  }

  /** The disk lookup level a generation needs; older generations need a higher one. */
  function Age(tier: Tier): nat {
    match tier
    case Active => 1
    case Raw => 2
    case Archive => 3
  }

  // ---------------------------------------------------------------- one generation

  /** Every chained line with the byte offset it starts at. */
  function Entries(c: Codec, lines: seq<Bytes>): seq<HeightSample> {
    if lines == [] then []
    else
      var front, last := lines[..|lines| - 1], lines[|lines| - 1];
      if c.LineHeight(last) == 0 then Entries(c, front)
      else Entries(c, front) + [HeightSample(c.LineHeight(last), Extent(front))]
  }

  function FileEntries(c: Codec, file: Bytes): seq<HeightSample> {
    Entries(c, CompleteLines(file))
  }

  /** One more chained line in a generation. */
  function Grow(g: GenIndex, e: HeightSample): GenIndex {
    var b := if !g.chained then g.(chained := true, minH := e.height, maxH := e.height)
             else g.(minH := if e.height < g.minH then e.height else g.minH,
                     maxH := if e.height > g.maxH then e.height else g.maxH);
    if g.tier == Archive then b
    else b.(samples := if g.sinceSample % SAMPLE_STRIDE == 0 then g.samples + [e] else g.samples,
            sinceSample := g.sinceSample + 1)
  }

  function Grown(g: GenIndex, es: seq<HeightSample>): GenIndex {
    if es == [] then g else Grow(Grown(g, es[..|es| - 1]), es[|es| - 1])
  }

  /** What a generation's index must say about its file. */
  function IndexOf(c: Codec, tier: Tier, file: Bytes): GenIndex {
    Grown(EmptyGen(tier), FileEntries(c, file))
  }

  /** Every stride-th entry, from the first on. */
  function Sampled(es: seq<HeightSample>): seq<HeightSample> {
    if es == [] then []
    else if (|es| - 1) % SAMPLE_STRIDE == 0 then Sampled(es[..|es| - 1]) + [es[|es| - 1]]
    else Sampled(es[..|es| - 1])
  }

  predicate Bounds(g: GenIndex, es: seq<HeightSample>) {
    && (g.chained <==> es != [])
    && (forall e :: e in es ==> g.minH <= e.height <= g.maxH)
    && (es != [] ==> (exists e :: e in es && e.height == g.minH) && (exists e :: e in es && e.height == g.maxH))
  }

  lemma {:induction false} BoundsMeaning(tier: Tier, es: seq<HeightSample>)
    ensures Bounds(Grown(EmptyGen(tier), es), es)
  {
    if es != [] {
      var front, last := es[..|es| - 1], es[|es| - 1];
      BoundsMeaning(tier, front);
      BoundsGrow(Grown(EmptyGen(tier), front), front, last);
      assert es == front + [last];
    }
  }

  lemma BoundsGrow(g: GenIndex, es: seq<HeightSample>, e: HeightSample)
    requires Bounds(g, es)
    ensures Bounds(Grow(g, e), es + [e])
  {
    var g' := Grow(g, e);
    assert e in es + [e] && forall x :: x in es ==> x in es + [e];
    assert e.height == g'.minH || (g.chained && g.minH == g'.minH);
    assert e.height == g'.maxH || (g.chained && g.maxH == g'.maxH);
  }

  /** Which entries those are: the first, and every 256th after it. */
  lemma {:induction false} SampledAre(es: seq<HeightSample>)
    ensures |Sampled(es)| == (|es| + 255) / 256
    ensures forall j :: 0 <= j < |Sampled(es)| ==> 256 * j < |es| && Sampled(es)[j] == es[256 * j]
  {
    if es != [] {
      SampledAre(es[..|es| - 1]);
    }
  }

  lemma {:induction false} SamplesMeaning(tier: Tier, es: seq<HeightSample>)
    ensures var g := Grown(EmptyGen(tier), es);
            && g.tier == tier
            && g.samples == (if tier == Archive then [] else Sampled(es))
            && g.sinceSample == (if tier == Archive then 0 else |es|)
  {
    if es != [] {
      SamplesMeaning(tier, es[..|es| - 1]);
    }
  }

  /** Bounds are the extreme heights and samples are every stride-th line, whatever
      order the heights come in. */
  lemma {:induction false} IndexMeaning(tier: Tier, es: seq<HeightSample>)
    ensures var g := Grown(EmptyGen(tier), es);
            && g.tier == tier && Bounds(g, es)
            && g.samples == (if tier == Archive then [] else Sampled(es))
            && (tier != Archive ==> |g.samples| == (|es| + 255) / 256)
            && (forall j :: 0 <= j < |g.samples| ==> 256 * j < |es| && g.samples[j] == es[256 * j])
            && g.sinceSample == (if tier == Archive then 0 else |es|)
  {
    BoundsMeaning(tier, es);
    SamplesMeaning(tier, es);
    SampledAre(es);
  }

  lemma {:induction false} SampledAreEntries(es: seq<HeightSample>)
    ensures forall s :: s in Sampled(es) ==> s in es
  {
    if es != [] {
      SampledAreEntries(es[..|es| - 1]);
      assert forall s :: s in es[..|es| - 1] ==> s in es;
    }
  }

  /** An entry names the start of a complete line of its height. */
  lemma {:induction false} EntryIsLine(c: Codec, lines: seq<Bytes>, e: HeightSample)
    requires e in Entries(c, lines)
    ensures exists k :: 0 <= k < |lines| && e.offset == Extent(lines[..k]) && c.LineHeight(lines[k]) == e.height != 0
  {
    var front, last := lines[..|lines| - 1], lines[|lines| - 1];
    if e in Entries(c, front) {
      EntryIsLine(c, front, e);
      var k :| 0 <= k < |front| && e.offset == Extent(front[..k]) && c.LineHeight(front[k]) == e.height != 0;
      assert front[..k] == lines[..k] && lines[k] == front[k];
    } else {
      assert lines[..|lines| - 1] == front;
    }
  }

  /** The k-th complete line of a file starts after the extent of the lines before it. */
  lemma {:induction false} LineOffset(s: Bytes, k: nat)
    requires k < |CompleteLines(s)|
    ensures Extent(CompleteLines(s)[..k]) <= |s| && LineStart(s, Extent(CompleteLines(s)[..k]))
    ensures CompleteLines(s[Extent(CompleteLines(s)[..k])..]) == CompleteLines(s)[k..]
    decreases |s|
  {
    var lines := CompleteLines(s);
    var last := |s| - 1;
    ExtentOfFile(s[..last]);
    var inner := CompleteLines(s[..last]);
    assert s == s[..last] + [s[last]];
    if k < |inner| {
      LineOffset(s[..last], k);
      var off := Extent(inner[..k]);
      assert lines[..k] == inner[..k];
      assert s[..last][..off] == s[..off];
      SplitAtLineStart(s, off);
      LinesBefore(s, k, off);
    } else {
      assert s[last] == NEWLINE && k == |inner|;
      assert lines[..k] == inner;
      TornTailAtEnd(s[..last]);
      var off := Extent(inner);
      assert s[..last][..off] == s[..off];
      SplitAtLineStart(s, off);
      LinesBefore(s, k, off);
    }
  }

  /** A line start at the extent of k lines has exactly those lines before it. */
  lemma LinesBefore(s: Bytes, k: nat, off: nat)
    requires k <= |CompleteLines(s)| && off == Extent(CompleteLines(s)[..k]) && LineStart(s, off)
    ensures CompleteLines(s[off..]) == CompleteLines(s)[k..]
  {
    SplitAtLineStart(s, off);
    var before := CompleteLines(s[..off]);
    ExtentOfFile(s[..off]);
    assert CompleteLines(s)[..|before|] == before;
    ExtentGrows(CompleteLines(s), if k < |before| then k else |before|, if k < |before| then |before| else k);
  }

  lemma {:induction false} ExtentGrows(lines: seq<Bytes>, i: nat, j: nat)
    requires i <= j <= |lines|
    ensures Extent(lines[..i]) + (j - i) <= Extent(lines[..j])
  {
    if i < j {
      ExtentGrows(lines, i, j - 1);
      assert lines[..j][..j - 1] == lines[..j - 1];
    }
  }

  /** Index samples are true: the exact offset of a line of that height. */
  lemma {:induction false} EntryIsSample(c: Codec, file: Bytes, e: HeightSample)
    requires e in FileEntries(c, file)
    ensures SampleAt(c, file, e)
  {
    var lines := CompleteLines(file);
    EntryIsLine(c, lines, e);
    var k :| 0 <= k < |lines| && e.offset == Extent(lines[..k]) && c.LineHeight(lines[k]) == e.height != 0;
    LineOffset(file, k);
  }
}
