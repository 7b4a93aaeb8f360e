/** Files that were not always written whole: a crash or a failed write leaves a part of a
    line behind, the next line is appended to it, and the size the writer keeps may be stale.
    When a recorded line still matches a rebuild is said exactly; where it does not, samples
    stay safe to seek to, so pages stay exact. */
module TornFiles {
  import opened Basics
  import opened Lines
  import opened WireModel
  import opened DiskScan
  import opened GenIndexes
  import opened StoreIndex

  /** What a file gained by one more line, as a reader of complete lines sees it. */
  lemma {:induction false} AppendGlues(c: Codec, file: Bytes, line: Bytes)
    requires NEWLINE !in line
    ensures CompleteLines(file + line + [NEWLINE]) == CompleteLines(file) + [TornTail(file) + line]
  {
    OneLine(line);
    SplitConcat(file, line + [NEWLINE]);
    assert file + (line + [NEWLINE]) == file + line + [NEWLINE];
  }

  // ---------------------------------------------------------------- samples through torn writes

  /** The active file, the size the writer keeps of it, and the samples in its index. */
  datatype Growth = Growth(file: Bytes, size: nat, samples: seq<HeightSample>)

  /** A whole line, a part of one whose failure leaves the size as it was, or a reopening that
      takes the size from the file again. */
  datatype FileWrite =
    | Whole(line: Bytes, sampled: bool)
    | Short(part: Bytes)
    | Reopen

  function Grow1(c: Codec, g: Growth, w: FileWrite): Growth {
    match w
    case Whole(line, sampled) =>
      Growth(g.file + line + [NEWLINE], g.size + |line| + 1,
             if sampled then g.samples + [HeightSample(c.LineHeight(line), g.size)] else g.samples)
    case Short(part) => g.(file := g.file + part)
    case Reopen => g.(size := |g.file|)
  }

  /** The entry the writer records for a chained line: at the size it keeps, right or stale. */
  function Recorded(c: Codec, g: Growth, line: Bytes): HeightSample {
    HeightSample(c.LineHeight(line), g.size)
  }

  /** Recording a chained line keeps the index equal to a rebuild exactly when the kept size is
      where the unfinished tail of the file begins, and the line glued to that tail still reads
      back at its own height. */
  lemma {:induction false} AppendMatchesIff(c: Codec, g: Growth, line: Bytes)
    requires NEWLINE !in line && c.LineHeight(line) != 0
    ensures FileEntries(c, g.file + line + [NEWLINE]) == FileEntries(c, g.file) + [Recorded(c, g, line)]
       <==> g.size == |g.file| - |TornTail(g.file)| && c.LineHeight(TornTail(g.file) + line) == c.LineHeight(line)
  {
    AppendGlues(c, g.file, line);
    ExtentOfFile(g.file);
    var lines, lines' := CompleteLines(g.file), CompleteLines(g.file + line + [NEWLINE]);
    assert lines'[..|lines'| - 1] == lines;
    var es, e, glued := FileEntries(c, g.file), Recorded(c, g, line), c.LineHeight(TornTail(g.file) + line);
    var more := if glued == 0 then [] else [HeightSample(glued, Extent(lines))];
    assert es + [] == es;
    assert FileEntries(c, g.file + line + [NEWLINE]) == es + more;
    SameEnds(es, more, [e]);
  }

  /** A line without a height is not recorded: that matches a rebuild exactly when it has none
      behind the unfinished tail either. */
  lemma {:induction false} UnrecordedMatchesIff(c: Codec, file: Bytes, line: Bytes)
    requires NEWLINE !in line
    ensures FileEntries(c, file + line + [NEWLINE]) == FileEntries(c, file)
       <==> c.LineHeight(TornTail(file) + line) == 0
  {
    AppendGlues(c, file, line);
    var lines, lines' := CompleteLines(file), CompleteLines(file + line + [NEWLINE]);
    assert lines'[..|lines'| - 1] == lines;
    assert FileEntries(c, file) + [] == FileEntries(c, file);
  }

  lemma SameEnds(es: seq<HeightSample>, a: seq<HeightSample>, b: seq<HeightSample>)
    ensures es + a == es + b <==> a == b
  {
    assert (es + a)[|es|..] == a && (es + b)[|es|..] == b;
  }

  /** On a file that ends in a newline that is: exactly when the kept size is the file's. */
  lemma {:induction false} WholeFileMatchesIff(c: Codec, g: Growth, line: Bytes)
    requires NEWLINE !in line && c.LineHeight(line) != 0 && Terminated(g.file)
    ensures FileEntries(c, g.file + line + [NEWLINE]) == FileEntries(c, g.file) + [Recorded(c, g, line)]
       <==> g.size == |g.file|
  {
    AppendMatchesIff(c, g, line);
    assert [] + line == line;
  }

  predicate NoneAbove(c: Codec, file: Bytes, height: nat) {
    forall l :: l in CompleteLines(file) ==> c.LineHeight(l) <= height
  }

  /** A line that is sampled stands above every line that reads back so far. */
  predicate LegalWrite(c: Codec, g: Growth, w: FileWrite) {
    w.Whole? && w.sampled ==> NoneAbove(c, g.file, c.LineHeight(w.line))
  }

  /** What every sample was written with: its offset lies in the file, and no line before it
      stands above its height. */
  predicate Grounded(c: Codec, g: Growth) {
    && g.size <= |g.file|
    && forall s :: s in g.samples ==> s.offset <= |g.file| && NoneAbove(c, g.file[..s.offset], s.height)
  }

  /** The complete lines of a front part are the first complete lines. */
  lemma FrontLines(file: Bytes, n: nat, l: Bytes)
    requires n <= |file| && l in CompleteLines(file[..n])
    ensures l in CompleteLines(file)
  {
    assert file == file[..n] + file[n..];
    SplitConcat(file[..n], file[n..]);
    var i :| 0 <= i < |CompleteLines(file[..n])| && CompleteLines(file[..n])[i] == l;
    assert CompleteLines(file)[i] == l;
  }

  lemma GroundedGrows(c: Codec, g: Growth, more: Bytes, s: HeightSample)
    requires Grounded(c, g) && s in g.samples
    ensures s.offset <= |g.file + more| && NoneAbove(c, (g.file + more)[..s.offset], s.height)
  {
    assert (g.file + more)[..s.offset] == g.file[..s.offset];
  }

  lemma WriteGrounds(c: Codec, g: Growth, w: FileWrite)
    requires Grounded(c, g) && LegalWrite(c, g, w)
    ensures Grounded(c, Grow1(c, g, w))
  {
    var g' := Grow1(c, g, w);
    match w
    case Whole(line, sampled) =>
      var more := line + [NEWLINE];
      assert g'.file == g.file + more;
      forall s | s in g'.samples ensures s.offset <= |g'.file| && NoneAbove(c, g'.file[..s.offset], s.height) {
        if s in g.samples {
          GroundedGrows(c, g, more, s);
        } else {
          assert g'.file[..s.offset] == g.file[..g.size];
          forall l | l in CompleteLines(g.file[..g.size]) ensures c.LineHeight(l) <= s.height {
            FrontLines(g.file, g.size, l);
          }
        }
      }
    case Short(part) =>
      forall s | s in g'.samples ensures s.offset <= |g'.file| && NoneAbove(c, g'.file[..s.offset], s.height) {
        GroundedGrows(c, g, part, s);
      }
    case Reopen =>
  }

  function GrownBy(c: Codec, g: Growth, ws: seq<FileWrite>): Growth
    decreases |ws|
  {
    if ws == [] then g else GrownBy(c, Grow1(c, g, ws[0]), ws[1..])
  }

  predicate LegalWrites(c: Codec, g: Growth, ws: seq<FileWrite>)
    decreases |ws|
  {
    ws == [] || (LegalWrite(c, g, ws[0]) && LegalWrites(c, Grow1(c, g, ws[0]), ws[1..]))
  }

  /** Through any mix of whole writes, short writes and reopenings, with the writer's size
      right or stale: every sample stays safe to seek to. */
  lemma {:induction false} TornSamplesAreSafe(c: Codec, g: Growth, ws: seq<FileWrite>)
    requires Grounded(c, g) && LegalWrites(c, g, ws)
    ensures var g' := GrownBy(c, g, ws);
            Grounded(c, g') && forall s :: s in g'.samples ==> SampleSafe(c, g'.file, s)
    decreases |ws|
  {
    if ws != [] {
      WriteGrounds(c, g, ws[0]);
      TornSamplesAreSafe(c, Grow1(c, g, ws[0]), ws[1..]);
    }
  }

  /** Ending in a newline is not enough: a part left by a failed write, then a whole notice, and
      the file is whole while the kept size is short of it. Index and rebuild still agree, both
      empty; the next chained line is recorded where no line begins. */
  lemma {:induction false} StaleSizeMisses(c: Codec, part: Bytes, notice: Bytes, line: Bytes)
    requires part != [] && NEWLINE !in part && NEWLINE !in notice && NEWLINE !in line
    requires c.LineHeight(part + notice) == 0 && c.LineHeight(line) != 0
    ensures var g := GrownBy(c, Growth([], 0, []), [Short(part), Whole(notice, false)]);
            && Terminated(g.file) && g.size < |g.file| && g.samples == [] && FileEntries(c, g.file) == []
            && FileEntries(c, g.file + line + [NEWLINE]) != FileEntries(c, g.file) + [Recorded(c, g, line)]
  {
    var ws := [Short(part), Whole(notice, false)];
    assert ws[1..] == [Whole(notice, false)] && ws[1..][1..] == [];
    var g := Grow1(c, Grow1(c, Growth([], 0, []), ws[0]), ws[1]);
    assert GrownBy(c, Growth([], 0, []), ws) == GrownBy(c, Grow1(c, Growth([], 0, []), ws[0]), ws[1..]);
    assert GrownBy(c, Grow1(c, Growth([], 0, []), ws[0]), ws[1..]) == GrownBy(c, g, []) == g;
    assert g.file == (part + notice) + [NEWLINE];
    OneLine(part + notice);
    assert CompleteLines(g.file) == [part + notice];
    assert [part + notice][..0] == [] && Entries(c, []) == [];
    assert Entries(c, [part + notice]) == [];
    WholeFileMatchesIff(c, g, line);
  }
}
