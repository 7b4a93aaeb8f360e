/** Reading one disk generation for an older page: a seek by index sample, a forward
    search for the cutoff, and a chunked read backward from it. The plain alternative
    is one forward stream into the window; both are proved to return the same. */
module DiskScan {
  import opened Basics
  import opened Lines
  import opened WireModel
  import opened WindowRings

  const MAX_TORN_PROBE := 64 * 1024

  datatype HeightSample = HeightSample(height: nat, offset: nat)

  predicate LineCuts(c: Codec, line: Bytes, bound: nat) {
    bound != 0 && c.LineHeight(line) != 0 && c.LineHeight(line) >= bound
  }

  predicate NoneCut(c: Codec, lines: seq<Bytes>, bound: nat) {
    forall i :: 0 <= i < |lines| ==> !LineCuts(c, lines[i], bound)
  }

  ghost predicate PlainLog(c: Codec, lines: seq<Bytes>) {
    forall i :: 0 <= i < |lines| ==> c.PlainLegacy(lines[i])
  }

  /** Chained heights never go down along the lines. */
  predicate HeightsAscend(c: Codec, lines: seq<Bytes>) {
    forall i, j :: 0 <= i < j < |lines| && c.LineHeight(lines[i]) != 0 && c.LineHeight(lines[j]) != 0
      ==> c.LineHeight(lines[i]) <= c.LineHeight(lines[j])
  }

  /** The sample names the start of a line of its height. */
  predicate SampleAt(c: Codec, file: Bytes, s: HeightSample) {
    && LineStart(file, s.offset)
    && CompleteLines(file[s.offset..]) != []
    && c.LineHeight(CompleteLines(file[s.offset..])[0]) == s.height != 0
  }

  /** Seeking to the sample skips no line above its height. A sample that fails the
      newline probe is never sought to, so it may say anything. */
  predicate SampleSafe(c: Codec, file: Bytes, s: HeightSample) {
    LineStart(file, s.offset) ==>
      forall line :: line in CompleteLines(file[..s.offset]) ==> c.LineHeight(line) <= s.height
  }

  lemma {:induction false} SampleAtIsSafe(c: Codec, file: Bytes, s: HeightSample)
    requires SampleAt(c, file, s) && HeightsAscend(c, CompleteLines(file))
    ensures SampleSafe(c, file, s)
  {
    SplitAtLineStart(file, s.offset);
    var before, all := CompleteLines(file[..s.offset]), CompleteLines(file);
    assert all[|before|] == CompleteLines(file[s.offset..])[0];
    forall line | line in before
      ensures c.LineHeight(line) <= s.height
    {
      var i :| 0 <= i < |before| && before[i] == line;
      assert all[i] == line;
    }
  }

  // ---------------------------------------------------------------- texts of lines

  /** Cutting by record height and cutting by rendered text agree. */
  lemma {:induction false} CutsAgree(c: Codec, lines: seq<Bytes>, bound: nat)
    requires c.Laws() && PlainLog(c, lines) && NoneCut(c, lines, bound)
    ensures Upto(c, c.Texts(lines), bound) == c.Texts(lines)
  {
    if lines != [] {
      var front, last := lines[..|lines| - 1], lines[|lines| - 1];
      CutsAgree(c, front, bound);
      c.RenderKeepsHeight(last);
      if c.LineText(last).Some? {
        UptoConcat(c, c.Texts(front), [c.LineText(last).value], bound);
      }
    }
  }

  /** A window ends where the first cutting line stands. */
  lemma CutoffSplits(c: Codec, before: seq<Bytes>, rest: seq<Bytes>, bound: nat)
    requires c.Laws() && PlainLog(c, before + rest) && NoneCut(c, before, bound)
    requires rest != [] && LineCuts(c, rest[0], bound)
    ensures Upto(c, c.Texts(before + rest), bound) == c.Texts(before)
    ensures Reached(c, c.Texts(before + rest), bound)
  {
    assert PlainLog(c, before) by {
      forall i | 0 <= i < |before| ensures c.PlainLegacy(before[i]) {
        assert (before + rest)[i] == before[i];
      }
    }
    CutsAgree(c, before, bound);
    assert (before + rest)[|before|] == rest[0];
    c.RenderKeepsHeight(rest[0]);
    var t := c.LineText(rest[0]).value;
    assert rest == [rest[0]] + rest[1..];
    c.TextsConcat(before, rest);
    c.TextsConcat([rest[0]], rest[1..]);
    assert c.Texts([rest[0]]) == [t] by {
      assert [rest[0]][..0] == [];
    }
    assert Cuts(c, t, bound);
    var tail := c.Texts(rest);
    assert tail[0] == t;
    assert Upto(c, tail, bound) == [];
    UptoConcat(c, c.Texts(before), tail, bound);
  }

  // ---------------------------------------------------------------- reading lines

  /** Where ReadBytes('\n') stops: just past the next newline, or at the end. */
  function LineEnd(file: Bytes, pos: nat): (e: nat)
    requires pos <= |file|
    ensures pos <= e <= |file|
    ensures pos < |file| ==> pos < e
    ensures pos < e && file[e - 1] == NEWLINE ==> NEWLINE !in file[pos..e - 1]
    ensures e == pos || file[e - 1] != NEWLINE ==> e == |file| && NEWLINE !in file[pos..]
    decreases |file| - pos
  {
    if pos == |file| then pos
    else if file[pos] == NEWLINE then pos + 1
    else
      var e := LineEnd(file, pos + 1);
      assert file[pos..] == [file[pos]] + file[pos + 1..];
      assert pos + 1 < e ==> file[pos..e - 1] == [file[pos]] + file[pos + 1..e - 1];
      e
  }

  /** Consuming a whole line takes one line off the unread part. */
  lemma ReadRest(file: Bytes, pos: nat)
    requires pos < |file| && file[LineEnd(file, pos) - 1] == NEWLINE
    ensures var e := LineEnd(file, pos);
            && LineStart(file, e)
            && CompleteLines(file[pos..]) == [file[pos..e - 1]] + CompleteLines(file[e..])
            && CompleteLines(file[pos..e]) == [file[pos..e - 1]]
  {
    var e := LineEnd(file, pos);
    var k := e - 1 - pos;
    assert file[pos..][..k] == file[pos..e - 1] == file[pos..e][..k];
    FirstLineOf(file[pos..], k);
    assert file[pos..][k + 1..] == file[e..];
    FirstLineOf(file[pos..e], k);
    assert file[pos..e][k + 1..] == [];
  }

  /** Consuming a whole line moves one line from the unread part to the read part. */
  lemma ReadLine(file: Bytes, start: nat, pos: nat)
    requires LineStart(file, pos) && start <= pos < |file|
    requires LineStart(file[start..], pos - start)
    requires file[LineEnd(file, pos) - 1] == NEWLINE
    ensures var e := LineEnd(file, pos);
            && LineStart(file, e) && LineStart(file[start..], e - start)
            && CompleteLines(file[pos..]) == [file[pos..e - 1]] + CompleteLines(file[e..])
            && CompleteLines(file[start..e]) == CompleteLines(file[start..pos]) + [file[pos..e - 1]]
  {
    var e := LineEnd(file, pos);
    ReadRest(file, pos);
    JoinAtLineStart(file[start..e], pos - start, file[start..pos], file[pos..e]);
  }

  lemma FirstLineOf(s: Bytes, k: nat)
    requires k < |s| && s[k] == NEWLINE && NEWLINE !in s[..k]
    ensures CompleteLines(s) == [s[..k]] + CompleteLines(s[k + 1..])
  {
    SplitFirstLine(s, k);
  }

  lemma JoinAtLineStart(s: Bytes, off: nat, a: Bytes, b: Bytes)
    requires LineStart(s, off) && a == s[..off] && b == s[off..]
    ensures CompleteLines(s) == CompleteLines(a) + CompleteLines(b)
  {
    SplitAtLineStart(s, off);
  }

  /** One line's text, moved from the unread texts to the fed ones. */
  lemma FeedText(c: Codec, all: seq<string>, fed: seq<string>, line: Bytes, rest: seq<Bytes>)
    requires all == fed + c.Texts([line] + rest)
    ensures all == (fed + c.Texts([line])) + c.Texts(rest)
  {
    c.TextsConcat([line], rest);
    assert fed + (c.Texts([line]) + c.Texts(rest)) == (fed + c.Texts([line])) + c.Texts(rest);
  }

  /** What feeding one line's text, if it has any, does to the window. */
  lemma WindowLine(c: Codec, base: seq<string>, bound: nat, limit: nat, fed: seq<string>, line: Bytes,
                   shown: seq<string>, hit: bool, shown': seq<string>)
    requires Windowed(c, base, fed, bound, limit, shown, false)
    requires match c.LineText(line)
             case Some(t) => hit == Cuts(c, t, bound) && shown' == if hit then shown else LastN(shown + [t], limit)
             case None => !hit && shown' == shown
    ensures Windowed(c, base, fed + c.Texts([line]), bound, limit, shown', hit)
  {
    OneText(c, line);
    match c.LineText(line)
    case Some(t) => WindowStep(c, base, fed, t, bound, limit, shown, false, shown');
    case None => assert fed + [] == fed;
  }

  /** A stream that has read `file` up to `pos` and fed the texts `fed`, cutoff not reached. */
  predicate Streaming(c: Codec, file: Bytes, base: seq<string>, bound: nat, limit: nat,
                      pos: nat, fed: seq<string>, shown: seq<string>)
  {
    && pos <= |file| && LineStart(file, pos)
    && c.Texts(CompleteLines(file)) == fed + c.Texts(CompleteLines(file[pos..]))
    && Windowed(c, base, fed, bound, limit, shown, false)
  }

  /** Reading a line moves its text, if any, from the unread texts to the fed ones. */
  lemma LineFed(c: Codec, file: Bytes, pos: nat, all: seq<string>, fed: seq<string>)
    requires pos < |file| && file[LineEnd(file, pos) - 1] == NEWLINE && all == fed + c.Texts(CompleteLines(file[pos..]))
    ensures LineStart(file, LineEnd(file, pos))
    ensures var e := LineEnd(file, pos);
            all == (fed + c.Texts([file[pos..e - 1]])) + c.Texts(CompleteLines(file[e..]))
  {
    var e := LineEnd(file, pos);
    ReadRest(file, pos);
    FeedText(c, all, fed, file[pos..e - 1], CompleteLines(file[e..]));
  }

  /** Once cut, whatever is still unread changes nothing. */
  lemma StreamCut(c: Codec, base: seq<string>, all: seq<string>, fed: seq<string>, rest: seq<string>, bound: nat,
                  limit: nat, shown: seq<string>)
    requires all == fed + rest && Windowed(c, base, fed, bound, limit, shown, true)
    ensures Windowed(c, base, all, bound, limit, shown, true)
  {
    WindowClosed(c, base, fed, rest, bound, limit, shown);
  }

  lemma StreamEnd(c: Codec, file: Bytes, base: seq<string>, bound: nat, limit: nat,
                  pos: nat, fed: seq<string>, shown: seq<string>)
    requires Streaming(c, file, base, bound, limit, pos, fed, shown)
    requires NEWLINE !in file[pos..]
    ensures Windowed(c, base, c.Texts(CompleteLines(file)), bound, limit, shown, false)
  {
    NewlineFree(file[pos..]);
    assert c.Texts(CompleteLines(file)) == fed;
  }

  lemma StreamStart(c: Codec, file: Bytes, base: seq<string>, bound: nat, limit: nat)
    requires |base| <= limit
    ensures Streaming(c, file, base, bound, limit, 0, [], base)
  {
    assert file[0..] == file && base + [] == base;
    assert c.Texts(CompleteLines(file)) == [] + c.Texts(CompleteLines(file));
  }

  /** Feeds one line's text, if it renders. */
  method FeedLine(c: Codec, ring: WindowRing, bound: nat, line: Bytes, ghost base: seq<string>, ghost fed: seq<string>)
    returns (hit: bool)
    requires ring.Valid() && !ring.done && Windowed(c, base, fed, bound, ring.limit, ring.Contents(), false)
    modifies ring
    ensures ring.Valid() && ring.done == hit
    ensures Windowed(c, base, fed + c.Texts([line]), bound, ring.limit, ring.Contents(), hit)
  {
    ghost var shown := ring.Contents();
    var text := c.LineText(line);
    hit := false;
    if text.Some? {
      hit := ring.Feed(c, text.value, bound);
    }
    WindowLine(c, base, bound, ring.limit, fed, line, shown, hit, ring.Contents());
  }

  /** What a fed line leaves of the stream: it goes on behind the line, or is cut. */
  lemma StreamOn(c: Codec, file: Bytes, base: seq<string>, bound: nat, limit: nat, pos: nat, fed: seq<string>,
                 line: Bytes, fed': seq<string>, shown: seq<string>, hit: bool)
    requires pos < |file| && file[LineEnd(file, pos) - 1] == NEWLINE && line == file[pos..LineEnd(file, pos) - 1]
    requires c.Texts(CompleteLines(file)) == fed + c.Texts(CompleteLines(file[pos..]))
    requires fed' == fed + c.Texts([line]) && Windowed(c, base, fed', bound, limit, shown, hit)
    ensures !hit ==> Streaming(c, file, base, bound, limit, LineEnd(file, pos), fed', shown)
    ensures hit ==> Windowed(c, base, c.Texts(CompleteLines(file)), bound, limit, shown, true)
  {
    var all := c.Texts(CompleteLines(file));
    LineFed(c, file, pos, all, fed);
    if hit {
      StreamCut(c, base, all, fed', c.Texts(CompleteLines(file[LineEnd(file, pos)..])), bound, limit, shown);
    }
  }

  /** Reads and feeds the line at `pos`, which a newline ends. */
  method StreamLine(c: Codec, ring: WindowRing, bound: nat, file: Bytes, pos: nat, ghost was: seq<string>,
                    ghost fed: seq<string>)
    returns (hit: bool, ghost fed': seq<string>)
    requires ring.Valid() && !ring.done && pos < |file| && file[LineEnd(file, pos) - 1] == NEWLINE
    requires Streaming(c, file, was, bound, ring.limit, pos, fed, ring.Contents())
    modifies ring
    ensures ring.Valid() && ring.done == hit
    ensures !hit ==> Streaming(c, file, was, bound, ring.limit, LineEnd(file, pos), fed', ring.Contents())
    ensures hit ==> Windowed(c, was, c.Texts(CompleteLines(file)), bound, ring.limit, ring.Contents(), true)
  {
    var line := file[pos..LineEnd(file, pos) - 1];
    fed' := fed + c.Texts([line]);
    hit := FeedLine(c, ring, bound, line, was, fed);
    ghost var shown := ring.Contents();
    StreamOn(c, file, was, bound, ring.limit, pos, fed, line, fed', shown, hit);
  }

  /** Streams complete lines into the ring until the cutoff; the torn tail never feeds. */
  method StreamForward(c: Codec, ring: WindowRing, bound: nat, file: Bytes) returns (hit: bool)
    requires ring.Valid() && !ring.done
    modifies ring
    ensures ring.Valid() && ring.done == hit
    ensures Windowed(c, old(ring.Contents()), c.Texts(CompleteLines(file)), bound, ring.limit, ring.Contents(), hit)
  {
    ghost var was := ring.Contents();
    ghost var fed: seq<string> := [];
    var pos := 0;
    StreamStart(c, file, was, bound, ring.limit);
    while pos < |file|
      invariant ring.Valid() && !ring.done
      invariant Streaming(c, file, was, bound, ring.limit, pos, fed, ring.Contents())
    {
      if file[LineEnd(file, pos) - 1] != NEWLINE {
        StreamEnd(c, file, was, bound, ring.limit, pos, fed, ring.Contents());
        return false;
      }
      hit, fed := StreamLine(c, ring, bound, file, pos, was, fed);
      if hit {
        return true;
      }
      pos := LineEnd(file, pos);
    }
    StreamEnd(c, file, was, bound, ring.limit, pos, fed, ring.Contents());
    return false;
  }

  lemma OneText(c: Codec, line: Bytes)
    ensures c.Texts([line]) == match c.LineText(line) case Some(t) => [t] case None => []
  {
    assert [line][..0] == [];
    assert c.Texts([]) == [];
  }

  // ---------------------------------------------------------------- seek and cutoff

  predicate Ascending(samples: seq<HeightSample>) {
    forall i, j :: 0 <= i < j < |samples| ==> samples[i].height <= samples[j].height
  }

  /** `off` is where the search below `bound` may start: at the last sample below it, or at
      the file head when there is none. */
  predicate StartsBelow(samples: seq<HeightSample>, bound: nat, off: nat) {
    || (off == 0 && NoneBelow(samples, bound, 0))
    || exists i ::
         0 <= i < |samples| && samples[i].offset == off && samples[i].height < bound && NoneBelow(samples, bound, i + 1)
  }

  predicate NoneBelow(samples: seq<HeightSample>, bound: nat, from: nat) {
    Ascending(samples) ==> forall k :: from <= k < |samples| ==> samples[k].height >= bound
  }

  /** The start of a scan, found by bisection. */
  method SeekOffset(samples: seq<HeightSample>, bound: nat) returns (off: nat)
    ensures StartsBelow(samples, bound, off)
  {
    var lo, hi := 0, |samples|;
    while lo < hi
      invariant 0 <= lo <= hi <= |samples|
      invariant lo > 0 ==> samples[lo - 1].height < bound
      invariant hi < |samples| ==> samples[hi].height >= bound
    {
      var mid := (lo + hi) / 2;
      if samples[mid].height >= bound {
        hi := mid;
      } else {
        lo := mid + 1;
      }
    }
    if lo == 0 {
      return 0;
    }
    off := samples[lo - 1].offset;
  }

  /** Where the forward search may legitimately begin. */
  predicate SeekPoint(file: Bytes, samples: seq<HeightSample>, bound: nat, start: nat) {
    && LineStart(file, start)
    && (start == 0 || exists s :: s in samples && s.offset == start && s.height < bound)
  }

  /** The first complete line from `start` on that cuts begins at `off`. */
  predicate FirstCut(c: Codec, file: Bytes, bound: nat, start: nat, off: nat) {
    && start <= off && LineStart(file, off)
    && NoneCut(c, CompleteLines(file[start..off]), bound)
    && CompleteLines(file[off..]) != []
    && LineCuts(c, CompleteLines(file[off..])[0], bound)
  }

  predicate Searching(c: Codec, file: Bytes, bound: nat, start: nat, cur: nat) {
    && start <= cur <= |file| && LineStart(file, cur) && LineStart(file[start..], cur - start)
    && NoneCut(c, CompleteLines(file[start..cur]), bound)
  }

  lemma SearchStep(c: Codec, file: Bytes, bound: nat, start: nat, cur: nat)
    requires Searching(c, file, bound, start, cur) && cur < |file|
    requires file[LineEnd(file, cur) - 1] == NEWLINE
    ensures var line := file[cur..LineEnd(file, cur) - 1];
            if LineCuts(c, line, bound) then FirstCut(c, file, bound, start, cur)
            else Searching(c, file, bound, start, LineEnd(file, cur))
  {
    ReadLine(file, start, cur);
  }

  lemma SearchEnd(c: Codec, file: Bytes, bound: nat, start: nat, cur: nat)
    requires Searching(c, file, bound, start, cur) && NEWLINE !in file[cur..]
    ensures NoneCut(c, CompleteLines(file[start..]), bound)
  {
    NewlineFree(file[cur..]);
    JoinAtLineStart(file[start..], cur - start, file[start..cur], file[cur..]);
  }

  /** Searches forward from the seek point; ok is false when the probe before it
      does not find a newline, and then nothing else is promised. */
  method FindCutoff(c: Codec, file: Bytes, samples: seq<HeightSample>, bound: nat)
    returns (off: nat, found: bool, ok: bool, ghost start: nat)
    ensures bound == 0 ==> ok && !found
    ensures ok && bound != 0 ==> SeekPoint(file, samples, bound, start)
    ensures ok && bound != 0 && found ==> FirstCut(c, file, bound, start, off)
    ensures ok && bound != 0 && !found ==> NoneCut(c, CompleteLines(file[start..]), bound)
    ensures !ok ==> exists s :: s in samples && s.height < bound && !LineStart(file, s.offset)
  {
    start := 0;
    if bound == 0 {
      return 0, false, true, 0;
    }
    var from := SeekOffset(samples, bound);
    if from > 0 {
      ghost var i :| 0 <= i < |samples| && samples[i].offset == from && samples[i].height < bound;
      assert samples[i] in samples;
      if from > |file| || file[from - 1] != NEWLINE {
        return 0, false, false, 0;
      }
    }
    start := from;
    var cur := from;
    assert file[from..from] == [];
    while cur < |file|
      invariant Searching(c, file, bound, start, cur)
    {
      var e := LineEnd(file, cur);
      if file[e - 1] != NEWLINE {
        break;
      }
      SearchStep(c, file, bound, start, cur);
      if LineCuts(c, file[cur..e - 1], bound) {
        return cur, true, true, start;
      }
      cur := e;
    }
    SearchEnd(c, file, bound, start, cur);
    return 0, false, true, start;
  }

  // ---------------------------------------------------------------- backward reading

  /** The end of the last whole line, as far as the probe window can tell. */
  function SettledEnd(file: Bytes, end: nat): int
    requires end <= |file|
  {
    var torn := |TornTail(file[..end])|;
    if torn <= MAX_TORN_PROBE then end - torn else end - MAX_TORN_PROBE
  }

  method LastNewline(buf: Bytes) returns (i: int)
    ensures -1 <= i < |buf|
    ensures i >= 0 ==> buf[i] == NEWLINE
    ensures forall k :: i < k < |buf| ==> buf[k] != NEWLINE
  {
    i := |buf| - 1;
    while i >= 0 && buf[i] != NEWLINE
      invariant -1 <= i < |buf|
      invariant forall k :: i < k < |buf| ==> buf[k] != NEWLINE
    {
      i := i - 1;
    }
  }

  /** A tail without newline, right after a newline or the file head, is the torn tail. */
  lemma TornTailIs(s: Bytes, t: nat)
    requires LineStart(s, t) && NEWLINE !in s[t..]
    ensures TornTail(s) == s[t..]
  {
    SplitAtLineStart(s, t);
    NewlineFree(s[t..]);
  }

  /** The last newline of a file settles its tail. */
  lemma TailFromLastNewline(head: Bytes, i: nat)
    requires i < |head| && head[i] == NEWLINE
    requires forall k :: i < k < |head| ==> head[k] != NEWLINE
    ensures |TornTail(head)| == |head| - (i + 1)
  {
    TornTailIs(head, i + 1);
  }

  /** With no newline from `from` on, the tail reaches back at least that far. */
  lemma TailWithoutNewline(head: Bytes, from: nat)
    requires from <= |head| && forall k :: from <= k < |head| ==> head[k] != NEWLINE
    ensures |TornTail(head)| >= |head| - from
    ensures from == 0 ==> |TornTail(head)| == |head|
  {
    TornTailAtEnd(head);
  }

  lemma SettledByProbe(file: Bytes, end: nat, from: nat, i: int)
    requires from < end <= |file| && (from == 0 || end - from == MAX_TORN_PROBE) && end - from <= MAX_TORN_PROBE
    requires from - 1 <= i < end && (i >= from ==> file[i] == NEWLINE)
    requires forall k :: i < k < end ==> file[k] != NEWLINE
    ensures SettledEnd(file, end) == i + 1
  {
    if i >= from {
      TailFromLastNewline(file[..end], i);
    } else {
      TailWithoutNewline(file[..end], from);
    }
  }

  method CompleteEnd(file: Bytes, end: int) returns (e: nat)
    requires end <= |file|
    ensures e == if end <= 0 then 0 else SettledEnd(file, end)
    ensures end > 0 ==>
              var torn := |TornTail(file[..end])|;
              e == if torn <= 65536 then end - torn else end - 65536
    ensures end >= 0 ==> e <= end
  {
    if end <= 0 {
      return 0;
    }
    var n := MAX_TORN_PROBE;
    if n > end {
      n := end;
    }
    var i := LastNewline(file[end - n..end]);
    SettledByProbe(file, end, end - n, end - n + i);
    if i == n - 1 {
      return end;
    }
    if i >= 0 {
      return end - n + i + 1;
    }
    return end - n;
  }

  lemma GlueFirst(fa: seq<Bytes>, fb: seq<Bytes>)
    requires |fa| >= 1 && |fb| >= 1
    ensures Glue(fa, fb) == Glue(fa, [fb[0]]) + fb[1..]
  {
  }

  /** Gluing a chunk to the carried fragment leaves only its first part open. */
  lemma ChunkParts(head: Bytes, data: Bytes)
    ensures Split(head + data) == Split(head + Split(data)[0]) + Split(data)[1..]
    ensures NEWLINE !in Split(data)[0]
  {
    PartsHaveNoNewline(data, 0);
    NewlineFree(Split(data)[0]);
    SplitConcat(head, data);
    SplitConcat(head, Split(data)[0]);
    GlueFirst(Split(head), Split(data));
  }

  /** What the backward reader has: `later` are the parts already taken off the end,
      `rev` their texts newest first, and `carry` the open fragment before them. */
  ghost predicate Collecting(c: Codec, file: Bytes, end: nat, pos: nat, carry: Bytes, later: seq<Bytes>,
                             rev: seq<string>)
    requires end <= |file|
  {
    && pos <= end
    && NEWLINE !in carry
    && Split(file[..end]) == Split(file[..pos] + carry) + later
    && rev == Reverse(c.Texts(later))
  }

  lemma NextChunk(c: Codec, file: Bytes, end: nat, pos: nat, carry: Bytes, later: seq<Bytes>, rev: seq<string>,
                  off: nat, data: Bytes)
    requires end <= |file| && Collecting(c, file, end, pos, carry, later, rev)
    requires off <= pos && data == file[off..pos] + carry
    ensures Split(file[..end]) == Split(file[..off] + Split(data)[0]) + (Split(data)[1..] + later)
    ensures NEWLINE !in Split(data)[0]
  {
    assert file[..pos] + carry == file[..off] + data;
    ChunkParts(file[..off], data);
    assert Split(file[..end]) == Split(file[..off] + Split(data)[0]) + Split(data)[1..] + later;
  }

  /** Keeping one more part, on the old side. */
  lemma KeepPart(c: Codec, part: Bytes, later: seq<Bytes>)
    ensures Reverse(c.Texts([part] + later)) == Reverse(c.Texts(later)) + Reverse(c.Texts([part]))
    ensures Reverse(c.Texts([part])) == match c.LineText(part) case Some(t) => [t] case None => []
  {
    c.TextsConcat([part], later);
    OneText(c, part);
    var texts := c.Texts([part]) + c.Texts(later);
    if c.LineText(part).Some? {
      assert texts[1..] == c.Texts(later);
      assert Reverse([c.LineText(part).value]) == [c.LineText(part).value];
    } else {
      assert texts == c.Texts(later);
    }
  }

  lemma {:induction false} ReverseTwice<T>(s: seq<T>)
    ensures Reverse(Reverse(s)) == s
  {
    if s != [] {
      ReverseAppend(Reverse(s[1..]), s[0]);
      ReverseTwice(s[1..]);
    }
  }

  /** Parts taken off the end of a chunk, one by one. */
  lemma TakePart(c: Codec, parts: seq<Bytes>, i: nat, later: seq<Bytes>)
    requires i < |parts|
    ensures parts[i..] + later == [parts[i]] + (parts[i + 1..] + later)
    ensures Reverse(c.Texts(parts[i..] + later))
         == Reverse(c.Texts(parts[i + 1..] + later)) + match c.LineText(parts[i]) case Some(t) => [t] case None => []
  {
    PartOff(parts, i, later);
    KeepPart(c, parts[i], parts[i + 1..] + later);
  }

  lemma PartOff(parts: seq<Bytes>, i: nat, later: seq<Bytes>)
    requires i < |parts|
    ensures parts[i..] + later == [parts[i]] + (parts[i + 1..] + later)
  {
  }

  /** A full backward window is the last maxLines texts, whatever stands before it. */
  lemma BackwardFull(c: Codec, front: seq<Bytes>, later: seq<Bytes>, rev: seq<string>, maxLines: nat)
    requires rev == Reverse(c.Texts(later)) && |rev| == maxLines
    ensures Reverse(rev) == LastN(c.Texts(front + later), maxLines)
  {
    c.TextsConcat(front, later);
    ReverseTwice(c.Texts(later));
  }

  lemma BackwardShort(c: Codec, later: seq<Bytes>, rev: seq<string>, maxLines: nat)
    requires rev == Reverse(c.Texts(later)) && |rev| <= maxLines
    ensures Reverse(rev) == LastN(c.Texts(later), maxLines)
  {
    ReverseTwice(c.Texts(later));
  }

  /** Takes a chunk's parts off its end, newest first, until the window is full. */
  method TakeParts(c: Codec, parts: seq<Bytes>, rev: seq<string>, maxLines: nat, ghost later: seq<Bytes>)
    returns (rev': seq<string>, ghost i: nat)
    requires parts != [] && rev == Reverse(c.Texts(later)) && |rev| < maxLines
    ensures 1 <= i <= |parts| && rev' == Reverse(c.Texts(parts[i..] + later))
    ensures |rev'| <= maxLines && (|rev'| < maxLines ==> i == 1)
  {
    rev', i := rev, |parts|;
    assert parts[|parts|..] + later == later;
    var j := |parts| - 1;
    while j >= 1
      invariant 0 <= j < |parts| && i == j + 1
      invariant rev' == Reverse(c.Texts(parts[i..] + later)) && |rev'| < maxLines
    {
      TakePart(c, parts, j, later);
      var text := c.LineText(parts[j]);
      i := j;
      if text.Some? {
        rev' := rev' + [text.value];
        if |rev'| >= maxLines {
          return;
        }
      } else {
        assert rev' + [] == rev';
      }
      j := j - 1;
    }
  }

  /** Reads backward in chunks from `endOff`: the last maxLines renderable lines before
      it, oldest first, no matter where the chunk seams fall. */
  method CollectBackward(c: Codec, file: Bytes, endOff: int, maxLines: int, chunk: nat) returns (out: seq<string>)
    requires chunk >= 1
    ensures maxLines <= 0 || endOff <= 0 ==> out == []
    ensures maxLines > 0 && endOff > 0 ==>
              var end := SettledEnd(file, if endOff > |file| then |file| else endOff);
              0 <= end <= |file| && out == LastN(c.Texts(Split(file[..end])), maxLines)
  {
    if maxLines <= 0 || endOff <= 0 {
      return [];
    }
    var end := if endOff > |file| then |file| else endOff;
    end := CompleteEnd(file, end);
    out := CollectFrom(c, file, end, maxLines, chunk);
  }

  method CollectFrom(c: Codec, file: Bytes, end: nat, maxLines: nat, chunk: nat) returns (out: seq<string>)
    requires chunk >= 1 && end <= |file| && maxLines > 0
    ensures out == LastN(c.Texts(Split(file[..end])), maxLines)
  {
    var rev: seq<string>, carry: Bytes, pos: nat := [], [], end;
    ghost var later: seq<Bytes> := [];
    CollectStart(c, file, end);
    while pos > 0 && |rev| < maxLines
      invariant Collecting(c, file, end, pos, carry, later, rev) && |rev| <= maxLines
    {
      var n := if chunk > pos then pos else chunk;
      var off := pos - n;
      var data := file[off..pos] + carry;
      NextChunk(c, file, end, pos, carry, later, rev, off, data);
      var pieces := Split(data);
      ghost var i;
      rev, i := TakeParts(c, pieces, rev, maxLines, later);
      if |rev| >= maxLines {
        ChunkFull(c, Split(file[..end]), Split(file[..off] + pieces[0]), pieces, i, later, rev, maxLines);
        return Reverse(rev);
      }
      later := pieces[1..] + later;
      carry := pieces[0];
      pos := off;
    }
    if |rev| >= maxLines {
      BackwardFull(c, Split(file[..pos] + carry), later, rev, maxLines);
      return Reverse(rev);
    }
    CollectEnd(c, file, end, carry, later, rev, maxLines);
    var text := c.LineText(carry);
    if text.Some? {
      rev := rev + [text.value];
    } else {
      assert rev + [] == rev;
    }
    return Reverse(rev);
  }

  lemma CollectStart(c: Codec, file: Bytes, end: nat)
    requires end <= |file|
    ensures Collecting(c, file, end, end, [], [], [])
  {
    assert file[..end] + [] == file[..end];
    assert Split(file[..end]) + [] == Split(file[..end]);
  }

  /** The window filled up inside a chunk. */
  lemma ChunkFull(c: Codec, parts: seq<Bytes>, head: seq<Bytes>, pieces: seq<Bytes>, i: nat, later: seq<Bytes>,
                  rev: seq<string>, maxLines: nat)
    requires 1 <= i <= |pieces| && parts == head + (pieces[1..] + later)
    requires rev == Reverse(c.Texts(pieces[i..] + later)) && |rev| == maxLines
    ensures Reverse(rev) == LastN(c.Texts(parts), maxLines)
  {
    assert parts == (head + pieces[1..i]) + (pieces[i..] + later);
    BackwardFull(c, head + pieces[1..i], pieces[i..] + later, rev, maxLines);
  }

  /** At the file head the carried fragment is a whole first line. */
  lemma CollectEnd(c: Codec, file: Bytes, end: nat, carry: Bytes, later: seq<Bytes>, rev: seq<string>, maxLines: nat)
    requires end <= |file| && Collecting(c, file, end, 0, carry, later, rev) && |rev| < maxLines
    ensures Reverse(rev + match c.LineText(carry) case Some(t) => [t] case None => [])
         == LastN(c.Texts(Split(file[..end])), maxLines)
  {
    assert file[..0] + carry == carry;
    NewlineFree(carry);
    KeepPart(c, carry, later);
    var last := match c.LineText(carry) case Some(t) => [t] case None => [];
    BackwardShort(c, [carry] + later, rev + last, maxLines);
  }

  // ---------------------------------------------------------------- one generation

  /** The torn tail cannot be mistaken for a line: it fits the probe, or what the
      probe leaves of it does not read as a record. */
  predicate TailHarmless(c: Codec, file: Bytes) {
    var torn := TornTail(file);
    |torn| <= MAX_TORN_PROBE || c.LineText(torn[..|torn| - MAX_TORN_PROBE]).None?
  }

  /** Backward collection from a file end sees the complete lines and nothing more, exactly
      when the torn tail is harmless: short enough for the probe, or not rendered. */
  lemma {:induction false} TailTexts(c: Codec, file: Bytes)
    ensures 0 <= SettledEnd(file, |file|) <= |file|
    ensures c.Texts(Split(file[..SettledEnd(file, |file|)])) == c.Texts(CompleteLines(file)) <==> TailHarmless(c, file)
  {
    assert file[..|file|] == file;
    TornTailAtEnd(file);
    var torn, e := TornTail(file), SettledEnd(file, |file|);
    if |torn| <= MAX_TORN_PROBE {
      ShortTail(c, file, e);
    } else {
      LongTail(c, file, |file| - |torn|, e);
    }
  }

  /** Nothing is left of a tail the probe covers. */
  lemma ShortTail(c: Codec, file: Bytes, e: nat)
    requires e == |file| - |TornTail(file)|
    ensures c.Texts(Split(file[..e])) == c.Texts(CompleteLines(file))
  {
    TornTailAtEnd(file);
    SplitAtLineStart(file, e);
    assert Split(file[..e]) == CompleteLines(file) + [[]];
    c.TextsSkipEmpty(CompleteLines(file));
  }

  /** What is left of a tail longer than the probe reads as one more line. */
  lemma LongTail(c: Codec, file: Bytes, t: nat, e: nat)
    requires t <= e <= |file| && t == |file| - |TornTail(file)|
    requires e == |file| - MAX_TORN_PROBE && |TornTail(file)| > MAX_TORN_PROBE
    ensures c.Texts(Split(file[..e])) == c.Texts(CompleteLines(file)) <==> c.LineText(TornTail(file)[..e - t]).None?
  {
    var fragment := TornTail(file)[..e - t];
    TornTailAtEnd(file);
    assert file[..e][..t] == file[..t] && file[..e][t..] == fragment;
    SplitAtLineStart(file[..e], t);
    NewlineFree(fragment);
    assert Split(file[..e]) == CompleteLines(file) + [fragment];
    LastText(c, CompleteLines(file), fragment);
  }

  lemma LastText(c: Codec, lines: seq<Bytes>, line: Bytes)
    ensures c.Texts(lines + [line]) == c.Texts(lines) <==> c.LineText(line).None?
  {
    assert (lines + [line])[..|lines|] == lines;
  }

  /** The cutoff found from a safe seek point is the file's first cutoff. */
  lemma CutoffIsGlobal(c: Codec, file: Bytes, samples: seq<HeightSample>, bound: nat, start: nat)
    requires bound != 0 && SeekPoint(file, samples, bound, start)
    requires forall s :: s in samples ==> SampleSafe(c, file, s)
    ensures NoneCut(c, CompleteLines(file[..start]), bound)
  {
    var before := CompleteLines(file[..start]);
    if start == 0 {
      assert file[..0] == [];
    } else {
      var s :| s in samples && s.offset == start && s.height < bound;
      forall i | 0 <= i < |before| ensures !LineCuts(c, before[i], bound) {
        assert before[i] in before;
        assert c.LineHeight(before[i]) <= s.height;
      }
    }
  }

  datatype Tier = Active | Raw | Archive

  /** What one generation shows of the window before `bound`, by the plain forward read. */
  predicate ShowsWindow(c: Codec, file: Bytes, bound: nat, limit: int, lines: seq<string>, done: bool) {
    var texts := c.Texts(CompleteLines(file));
    && done == Reached(c, texts, bound)
    && lines == LastN(Upto(c, texts, bound), if limit < 0 then 0 else limit)
  }

  method StreamGen(c: Codec, file: Bytes, bound: nat, limit: int) returns (lines: seq<string>, done: bool)
    ensures ShowsWindow(c, file, bound, limit, lines, done)
  {
    var ring := new WindowRing(limit);
    done := StreamForward(c, ring, bound, file);
    lines := ring.Drain();
    var upto := Upto(c, c.Texts(CompleteLines(file)), bound);
    assert [] + upto == upto;
  }

  /** The window of a file whose first cutoff starts at `off`. */
  lemma {:induction false} WindowAtCutoff(c: Codec, file: Bytes, bound: nat, start: nat, off: nat)
    requires c.Laws() && PlainLog(c, CompleteLines(file))
    requires LineStart(file, start) && NoneCut(c, CompleteLines(file[..start]), bound)
    requires FirstCut(c, file, bound, start, off)
    ensures Reached(c, c.Texts(CompleteLines(file)), bound)
    ensures Upto(c, c.Texts(CompleteLines(file)), bound) == c.Texts(CompleteLines(file[..off]))
    ensures off > 0 ==> SettledEnd(file, off) == off
    ensures c.Texts(Split(file[..off])) == c.Texts(CompleteLines(file[..off]))
  {
    SplitAtLineStart(file, off);
    SplitAtLineStart(file[..off], start);
    assert file[..off][..start] == file[..start] && file[..off][start..] == file[start..off];
    CutoffSplits(c, CompleteLines(file[..off]), CompleteLines(file[off..]), bound);
    assert Split(file[..off]) == CompleteLines(file[..off]) + [TornTail(file[..off])];
    c.TextsSkipEmpty(CompleteLines(file[..off]));
  }

  /** The window of a file that nothing cuts. */
  lemma WindowUncut(c: Codec, file: Bytes, bound: nat, start: nat)
    requires c.Laws() && PlainLog(c, CompleteLines(file))
    requires LineStart(file, start) && NoneCut(c, CompleteLines(file[..start]), bound)
    requires NoneCut(c, CompleteLines(file[start..]), bound)
    ensures !Reached(c, c.Texts(CompleteLines(file)), bound)
    ensures Upto(c, c.Texts(CompleteLines(file)), bound) == c.Texts(CompleteLines(file))
  {
    SplitAtLineStart(file, start);
    CutsAgree(c, CompleteLines(file), bound);
  }

  /** One generation's share of an older page. A missing file shows nothing; otherwise the
      answer is the forward stream's, although a raw file is sought and read backward. */
  method ScanGen(c: Codec, file: Option<Bytes>, tier: Tier, samples: seq<HeightSample>,
                 bound: nat, limit: int, chunk: nat)
    returns (lines: seq<string>, done: bool)
    requires chunk >= 1 && c.Laws()
    requires file.Some? ==> PlainLog(c, CompleteLines(file.value))
    requires file.Some? && tier != Archive ==> TailHarmless(c, file.value)
    requires file.Some? && tier != Archive ==> forall s :: s in samples ==> SampleSafe(c, file.value, s)
    ensures file.None? ==> lines == [] && !done
    ensures file.Some? ==> ShowsWindow(c, file.value, bound, limit, lines, done)
  {
    if file.None? {
      return [], false;
    }
    var f := file.value;
    if tier == Archive {
      lines, done := StreamGen(c, f, bound, limit);
      return;
    }
    var off, found, ok;
    ghost var start;
    off, found, ok, start := FindCutoff(c, f, samples, bound);
    if !ok {
      lines, done := StreamGen(c, f, bound, limit);
      return;
    }
    if bound == 0 {
      start := 0;
    } else {
      CutoffIsGlobal(c, f, samples, bound, start);
    }
    if found {
      WindowAtCutoff(c, f, bound, start, off);
      lines := CollectBackward(c, f, off, limit, chunk);
      return lines, true;
    }
    WindowUncut(c, f, bound, start);
    TailTexts(c, f);
    lines := CollectBackward(c, f, |f|, limit, chunk);
    return lines, false;
  }
}
