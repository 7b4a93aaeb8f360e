/** Missing heights as ranges: how the client asks for a refill, what the server answers,
    and which heights it must give up on. */
module Refill {
  import opened Basics
  import opened WireModel

  datatype HeightRange = HeightRange(from: nat, to: nat)

  predicate InRange(r: HeightRange, h: nat) {
    r.from <= h <= r.to
  }

  predicate InRanges(rs: seq<HeightRange>, h: nat) {
    exists i :: 0 <= i < |rs| && InRange(rs[i], h)
  }

  /** Ranges in ascending order, none empty, none touching the next. */
  predicate Separated(rs: seq<HeightRange>) {
    && (forall i :: 0 <= i < |rs| ==> rs[i].from <= rs[i].to)
    && (forall i, j :: 0 <= i < j < |rs| ==> rs[i].to + 1 < rs[j].from)
  }

  predicate StrictlySorted(hs: seq<nat>) {
    forall i, j :: 0 <= i < j < |hs| ==> hs[i] < hs[j]
  }

  lemma {:induction false} LeastOf(s: set<nat>) returns (least: nat)
    requires s != {}
    ensures least in s && forall h :: h in s ==> least <= h
  {
    var x :| x in s;
    if s == {x} {
      return x;
    }
    var rest := s - {x};
    var y := LeastOf(rest);
    least := if x < y then x else y;
    forall h | h in s ensures least <= h {
      assert h == x || h in rest;
    }
  }

  /** The heights of a set in ascending order. */
  method SortHeights(missing: set<nat>) returns (hs: seq<nat>)
    ensures StrictlySorted(hs) && (forall h :: h in hs <==> h in missing) && |hs| == |missing|
  {
    hs := [];
    var rest := missing;
    while rest != {}
      invariant StrictlySorted(hs) && rest <= missing
      invariant forall h :: h in missing <==> h in hs || h in rest
      invariant forall i, h :: 0 <= i < |hs| && h in rest ==> hs[i] < h
      invariant |hs| + |rest| == |missing|
      decreases |rest|
    {
      ghost var least := LeastOf(rest);
      assert least in rest;
      var h :| h in rest && forall k :: k in rest ==> h <= k;
      hs := hs + [h];
      rest := rest - {h};
    }
  }

  /** The contiguous runs of missing heights. */
  method MissingRuns(missing: set<nat>) returns (runs: seq<HeightRange>)
    ensures Separated(runs)
    ensures forall h :: h in missing <==> InRanges(runs, h)
  {
    var hs := SortHeights(missing);
    runs := [];
    for k := 0 to |hs|
      invariant Separated(runs)
      invariant forall h :: InRanges(runs, h) <==> h in hs[..k]
      invariant runs != [] ==> k > 0 && runs[|runs| - 1].to == hs[k - 1]
      invariant k > 0 ==> runs != []
    {
      var h, n := hs[k], |runs|;
      ghost var was := runs;
      assert hs[..k + 1] == hs[..k] + [h];
      if n > 0 && runs[n - 1].to + 1 == h {
        runs := runs[n - 1 := runs[n - 1].(to := h)];
        ExtendLast(was, h);
      } else {
        runs := runs + [HeightRange(h, h)];
        AddRun(was, h);
      }
    }
    assert hs[..|hs|] == hs;
  }

  lemma ExtendLast(runs: seq<HeightRange>, h: nat)
    requires runs != [] && runs[|runs| - 1].to + 1 == h && runs[|runs| - 1].from <= h
    ensures var n := |runs| - 1;
            forall x :: InRanges(runs[n := runs[n].(to := h)], x) <==> InRanges(runs, x) || x == h
  {
    var n := |runs| - 1;
    var runs' := runs[n := runs[n].(to := h)];
    forall x ensures InRanges(runs', x) <==> InRanges(runs, x) || x == h {
      assert InRange(runs'[n], x) <==> InRange(runs[n], x) || x == h;
      assert forall i :: 0 <= i < n ==> runs'[i] == runs[i];
      if InRanges(runs, x) {
        var i :| 0 <= i < |runs| && InRange(runs[i], x);
        assert InRange(runs'[i], x);
      }
    }
  }

  lemma AddRun(runs: seq<HeightRange>, h: nat)
    ensures forall x :: InRanges(runs + [HeightRange(h, h)], x) <==> InRanges(runs, x) || x == h
  {
    var runs' := runs + [HeightRange(h, h)];
    forall x ensures InRanges(runs', x) <==> InRanges(runs, x) || x == h {
      assert InRange(runs'[|runs|], x) <==> x == h;
      if InRanges(runs, x) {
        var i :| 0 <= i < |runs| && InRange(runs[i], x);
        assert InRange(runs'[i], x);
      }
    }
  }

  // ---------------------------------------------------------------- pruning

  /** The first height of the run a missing height belongs to. */
  function RunStart(missing: set<nat>, h: nat): (s: nat)
    ensures s <= h
    ensures forall k :: s <= k < h ==> k in missing
    ensures s > 0 ==> s - 1 !in missing
  {
    if h > 0 && h - 1 in missing then RunStart(missing, h - 1) else h
  }

  /** The missing heights a refill can still verify: their run starts next to a known hash. */
  function Recoverable(missing: set<nat>, known: map<nat, Digest>): set<nat> {
    set h | h in missing && RunStart(missing, h) > 0 && RunStart(missing, h) - 1 in known
  }

  /** Within one run everything shares the run's start. */
  lemma {:induction false} RunStartOf(missing: set<nat>, from: nat, h: nat)
    requires from <= h && forall k :: from <= k <= h ==> k in missing
    requires from > 0 ==> from - 1 !in missing
    ensures RunStart(missing, h) == from
  {
    if h > from {
      RunStartOf(missing, from, h - 1);
    }
  }

  /** When every missing height follows a missing or known one, nothing is given up. */
  lemma {:induction false} RunIsAnchored(missing: set<nat>, known: map<nat, Digest>, h: nat)
    requires h in missing
    requires forall k :: k in missing ==> k > 0 && (k - 1 in missing || k - 1 in known)
    ensures RunStart(missing, h) > 0 && RunStart(missing, h) - 1 in known
  {
    if h - 1 in missing {
      RunIsAnchored(missing, known, h - 1);
    }
  }

  lemma {:induction false} PruneKeepsAll(missing: set<nat>, known: map<nat, Digest>)
    requires forall k :: k in missing ==> k > 0 && (k - 1 in missing || k - 1 in known)
    ensures Recoverable(missing, known) == missing
  {
    forall h | h in missing ensures h in Recoverable(missing, known) {
      RunIsAnchored(missing, known, h);
    }
  }

  // ---------------------------------------------------------------- the server's answer

  predicate ValidRange(r: HeightRange) {
    r.from != 0 && r.from <= r.to
  }

  function ValidRanges(rs: seq<HeightRange>): seq<HeightRange> {
    if rs == [] then []
    else (if ValidRange(rs[0]) then [rs[0]] else []) + ValidRanges(rs[1..])
  }

  /** Stored chained lines inside a range and not above `maxTo`, in stored order. */
  function LinesIn(c: Codec, lines: seq<string>, rs: seq<HeightRange>, maxTo: nat): seq<string> {
    if lines == [] then []
    else
      var front, last := LinesIn(c, lines[..|lines| - 1], rs, maxTo), lines[|lines| - 1];
      if Wanted(c, last, rs, maxTo) then front + [last] else front
  }

  predicate Wanted(c: Codec, line: string, rs: seq<HeightRange>, maxTo: nat) {
    c.TextHeight(line) != 0 && c.TextHeight(line) <= maxTo && InRanges(rs, c.TextHeight(line))
  }

  predicate SortedByFrom(rs: seq<HeightRange>) {
    forall i, j :: 0 <= i < j < |rs| ==> rs[i].from <= rs[j].from
  }

  lemma InsertMembers(out: seq<HeightRange>, i: nat, r: HeightRange)
    requires i <= |out|
    ensures forall q :: q in out[..i] + [r] + out[i..] <==> q in out || q == r
  {
    assert out == out[..i] + out[i..];
  }

  /** Sorting by start, as the library does: equal starts may come out in any order. */
  method SortRanges(rs: seq<HeightRange>) returns (out: seq<HeightRange>)
    ensures SortedByFrom(out) && forall r :: r in out <==> r in rs
  {
    out := [];
    for k := 0 to |rs|
      invariant SortedByFrom(out) && forall r :: r in out <==> r in rs[..k]
    {
      assert rs[..k + 1] == rs[..k] + [rs[k]];
      var i := |out|;
      while i > 0 && out[i - 1].from > rs[k].from
        invariant 0 <= i <= |out|
        invariant forall j :: i <= j < |out| ==> out[j].from > rs[k].from
      {
        i := i - 1;
      }
      InsertMembers(out, i, rs[k]);
      out := out[..i] + [rs[k]] + out[i..];
    }
    assert rs[..|rs|] == rs;
  }

  /** The scan stops at the end of the range that starts last. */
  predicate IsScanLimit(rs: seq<HeightRange>, maxTo: nat) {
    exists r :: r in rs && r.to == maxTo && forall q :: q in rs ==> q.from <= r.from
  }

  lemma SameRanges(a: seq<HeightRange>, b: seq<HeightRange>)
    requires forall r :: r in a <==> r in b
    ensures forall h :: InRanges(a, h) ==> InRanges(b, h)
  {
    forall h | InRanges(a, h) ensures InRanges(b, h) {
      var i :| 0 <= i < |a| && InRange(a[i], h);
      assert a[i] in b;
      var j :| 0 <= j < |b| && b[j] == a[i];
      assert InRange(b[j], h);
    }
  }

  lemma LinesInMore(c: Codec, lines: seq<string>, i: nat, rs: seq<HeightRange>, maxTo: nat)
    requires i < |lines|
    ensures LinesIn(c, lines[..i + 1], rs, maxTo)
         == LinesIn(c, lines[..i], rs, maxTo) + if Wanted(c, lines[i], rs, maxTo) then [lines[i]] else []
  {
    assert lines[..i + 1][..i] == lines[..i];
  }

  lemma InSorted(sorted: seq<HeightRange>, rs: seq<HeightRange>, h: nat)
    requires forall r :: r in sorted <==> r in rs
    ensures InRanges(rs, h) <==> exists k :: 0 <= k < |sorted| && InRange(sorted[k], h)
  {
    SameRanges(sorted, rs);
    SameRanges(rs, sorted);
  }

  lemma LastStartsLast(rs: seq<HeightRange>, sorted: seq<HeightRange>)
    requires sorted != [] && SortedByFrom(sorted) && forall r :: r in sorted <==> r in rs
    ensures IsScanLimit(rs, sorted[|sorted| - 1].to)
  {
    var last := sorted[|sorted| - 1];
    assert last in rs;
    forall q | q in rs ensures q.from <= last.from {
      var j :| 0 <= j < |sorted| && sorted[j] == q;
    }
  }

  lemma {:induction false} ValidRangesAre(rs: seq<HeightRange>)
    ensures forall r :: r in ValidRanges(rs) <==> r in rs && ValidRange(r)
  {
    if rs != [] {
      ValidRangesAre(rs[1..]);
      assert rs == [rs[0]] + rs[1..];
    }
  }

  /** The ranges that name heights at all. */
  method KeepValid(ranges: seq<HeightRange>) returns (rs: seq<HeightRange>)
    ensures rs == ValidRanges(ranges)
  {
    rs := [];
    assert ranges[0..] == ranges;
    for i := 0 to |ranges|
      invariant ValidRanges(ranges) == rs + ValidRanges(ranges[i..])
    {
      var r := ranges[i];
      NextValid(ranges, i, rs);
      if r.from == 0 || r.from > r.to {
        continue;
      }
      rs := rs + [r];
    }
  }

  lemma NextValid(ranges: seq<HeightRange>, i: nat, rs: seq<HeightRange>)
    requires i < |ranges|
    ensures rs + ValidRanges(ranges[i..])
         == (if ValidRange(ranges[i]) then rs + [ranges[i]] else rs) + ValidRanges(ranges[i + 1..])
  {
    assert ranges[i..][1..] == ranges[i + 1..];
  }

  /** A stored line asked for by one of these ranges, and not above the limit of the scan. */
  predicate AsksFor(c: Codec, line: string, ranges: seq<HeightRange>, maxTo: nat) {
    match c.unmarshal(line)
    case Some(w) =>
      0 < w.height <= maxTo
      && exists k :: 0 <= k < |ranges| && 0 < ranges[k].from && ranges[k].from <= w.height <= ranges[k].to
    case None => false
  }

  lemma WantedIsAsked(c: Codec, line: string, ranges: seq<HeightRange>, maxTo: nat)
    ensures Wanted(c, line, ValidRanges(ranges), maxTo) <==> AsksFor(c, line, ranges, maxTo)
  {
    ValidRangesAre(ranges);
    var rs, h := ValidRanges(ranges), c.TextHeight(line);
    if h != 0 && InRanges(rs, h) {
      var i :| 0 <= i < |rs| && InRange(rs[i], h);
      assert rs[i] in ranges;
      var k :| 0 <= k < |ranges| && ranges[k] == rs[i];
    }
    if k :| 0 <= k < |ranges| && 0 < ranges[k].from && ranges[k].from <= h <= ranges[k].to {
      assert ranges[k] in rs;
      var i :| 0 <= i < |rs| && rs[i] == ranges[k];
      assert InRange(rs[i], h);
    }
  }

  /** Which stored lines those are, by position. */
  lemma {:induction false} LinesInMeaning(c: Codec, lines: seq<string>, ranges: seq<HeightRange>, maxTo: nat)
    returns (at: seq<nat>)
    ensures Picks(lines, at, LinesIn(c, lines, ValidRanges(ranges), maxTo)) && Rises(at)
    ensures forall i :: 0 <= i < |lines| ==> (i in at <==> AsksFor(c, lines[i], ranges, maxTo))
  {
    if lines == [] {
      at := [];
    } else {
      var n := |lines| - 1;
      var h := lines[..n];
      var front := LinesInMeaning(c, h, ranges, maxTo);
      WantedIsAsked(c, lines[n], ranges, maxTo);
      PicksMore(h, lines[n], front, LinesIn(c, h, ValidRanges(ranges), maxTo));
      assert h + [lines[n]] == lines;
      at := if AsksFor(c, lines[n], ranges, maxTo) then front + [n] else front;
      forall i | 0 <= i < |lines| ensures i in at <==> AsksFor(c, lines[i], ranges, maxTo) {
        InMore(front, n, i);
        assert i < n ==> h[i] == lines[i];
        assert i == n ==> i !in front;
      }
    }
  }

  /** The first of them, up to the limit. */
  lemma FirstInMeaning(c: Codec, lines: seq<string>, ranges: seq<HeightRange>, maxTo: nat, limit: nat, out: seq<string>)
    returns (at: seq<nat>)
    requires out == FirstN(LinesIn(c, lines, ValidRanges(ranges), maxTo), limit)
    ensures Picks(lines, at, out) && Rises(at) && |out| <= limit
    ensures forall i :: i in at ==> i < |lines| && AsksFor(c, lines[i], ranges, maxTo)
    ensures forall i :: 0 <= i < |lines| && AsksFor(c, lines[i], ranges, maxTo) ==>
              i in at || (|out| == limit && forall k :: 0 <= k < |at| ==> at[k] < i)
  {
    var all := LinesInMeaning(c, lines, ranges, maxTo);
    at := FirstN(all, limit);
    forall i | i in at ensures i in all {
    }
    forall i | i in all ensures i in at || (|out| == limit && forall k :: 0 <= k < |at| ==> at[k] < i) {
      var j :| 0 <= j < |all| && all[j] == i;
      if j < |at| {
        assert at[j] == i;
      }
    }
  }

  /** Up to `limit` stored chained lines at the asked heights, oldest first; `at` are their
      positions in history. */
  method CollectRanges(c: Codec, history: seq<string>, ranges: seq<HeightRange>, limit: int)
    returns (out: seq<string>, ghost maxTo: nat, ghost at: seq<nat>)
    ensures limit <= 0 || ValidRanges(ranges) == [] ==> out == []
    ensures limit > 0 && ValidRanges(ranges) != [] ==> IsScanLimit(ValidRanges(ranges), maxTo)
    ensures limit > 0 && ValidRanges(ranges) != [] ==>
              out == FirstN(LinesIn(c, history, ValidRanges(ranges), maxTo), limit)
    ensures Picks(history, at, out) && Rises(at)
    ensures forall i :: i in at ==> i < |history| && AsksFor(c, history[i], ranges, maxTo)
    ensures forall i :: limit > 0 && 0 <= i < |history| && AsksFor(c, history[i], ranges, maxTo) ==>
              i in at || (|out| == limit && forall k :: 0 <= k < |at| ==> at[k] < i)
  {
    maxTo, at := 0, [];
    if limit <= 0 || |ranges| == 0 {
      return [], 0, [];
    }
    var rs := KeepValid(ranges);
    if |rs| == 0 {
      NothingAsked(c, history, ranges);
      return [], 0, [];
    }
    var sorted := SortRanges(rs);
    assert rs[0] in sorted;
    var last := sorted[|sorted| - 1];
    maxTo := last.to;
    LastStartsLast(rs, sorted);
    out := [];
    assert history[..0] == [];
    for i := 0 to |history|
      invariant out == LinesIn(c, history[..i], rs, maxTo) && |out| < limit
    {
      LinesInMore(c, history, i, rs, maxTo);
      var h := c.TextHeight(history[i]);
      InSorted(sorted, rs, h);
      var inRange := h != 0 && h <= last.to && exists k :: 0 <= k < |sorted| && InRange(sorted[k], h);
      if inRange {
        out := out + [history[i]];
        if |out| >= limit {
          LinesInGrow(c, history, rs, maxTo, i + 1);
          FullIsFirst(out, LinesIn(c, history, rs, maxTo), limit);
          at := FirstInMeaning(c, history, ranges, maxTo, limit, out);
          return;
        }
      }
    }
    assert history[..|history|] == history;
    at := FirstInMeaning(c, history, ranges, maxTo, limit, out);
  }

  lemma NothingAsked(c: Codec, lines: seq<string>, ranges: seq<HeightRange>)
    requires ValidRanges(ranges) == []
    ensures forall i :: 0 <= i < |lines| ==> !AsksFor(c, lines[i], ranges, 0)
  {
  }

  function FirstN<T>(s: seq<T>, n: nat): seq<T> {
    if |s| <= n then s else s[..n]
  }

  lemma FullIsFirst<T>(out: seq<T>, all: seq<T>, limit: nat)
    requires out <= all && |out| == limit
    ensures FirstN(all, limit) == out
  {
  }

  lemma {:induction false} LinesInGrow(c: Codec, lines: seq<string>, rs: seq<HeightRange>, maxTo: nat, k: nat)
    requires k <= |lines|
    ensures LinesIn(c, lines[..k], rs, maxTo) <= LinesIn(c, lines, rs, maxTo)
    decreases |lines|
  {
    if k < |lines| {
      assert lines[..|lines| - 1][..k] == lines[..k];
      LinesInGrow(c, lines[..|lines| - 1], rs, maxTo, k);
    } else {
      assert lines[..k] == lines;
    }
  }

  // ---------------------------------------------------------------- what the answer covers

  /** All stored chained lines at the asked heights. */
  function AskedLines(c: Codec, history: seq<string>, rs: seq<HeightRange>): seq<string> {
    if history == [] then []
    else
      var front, last := AskedLines(c, history[..|history| - 1], rs), history[|history| - 1];
      if c.TextHeight(last) != 0 && InRanges(rs, c.TextHeight(last)) then front + [last] else front
  }

  /** Whatever is stored, nothing asked for is left out. */
  ghost predicate AnswersAll(c: Codec, rs: seq<HeightRange>, maxTo: nat) {
    forall history :: LinesIn(c, history, rs, maxTo) == AskedLines(c, history, rs)
  }

  lemma {:induction false} CoveredAnswers(c: Codec, history: seq<string>, rs: seq<HeightRange>, maxTo: nat)
    requires forall r :: r in rs ==> r.to <= maxTo
    ensures LinesIn(c, history, rs, maxTo) == AskedLines(c, history, rs)
  {
    if history != [] {
      var h := c.TextHeight(history[|history| - 1]);
      CoveredAnswers(c, history[..|history| - 1], rs, maxTo);
      if InRanges(rs, h) {
        var i :| 0 <= i < |rs| && InRange(rs[i], h);
        assert rs[i] in rs;
      }
    }
  }

  /** Without a limit on its size, the answer holds every stored line that was asked for, on
      every history, exactly when the range that starts last also ends last. */
  lemma {:induction false} AnswerCoversAll(c: Codec, rs: seq<HeightRange>, maxTo: nat)
    requires c.Laws() && forall r :: r in rs ==> ValidRange(r)
    ensures AnswersAll(c, rs, maxTo) <==> forall r :: r in rs ==> r.to <= maxTo
  {
    if forall r :: r in rs ==> r.to <= maxTo {
      forall history ensures LinesIn(c, history, rs, maxTo) == AskedLines(c, history, rs) {
        CoveredAnswers(c, history, rs, maxTo);
      }
    } else {
      var r :| r in rs && r.to > maxTo;
      SkippedLine(c, rs, maxTo, r);
    }
  }

  /** A line at the end of such a range is stored, asked for, and skipped. */
  lemma SkippedLine(c: Codec, rs: seq<HeightRange>, maxTo: nat, r: HeightRange)
    requires c.Laws() && r in rs && ValidRange(r) && r.to > maxTo
    ensures !AnswersAll(c, rs, maxTo)
  {
    var w := SystemWire("", 0).(height := r.to);
    var t := c.marshal(w);
    var history := [t];
    assert c.unmarshal(t) == Some(w);
    assert c.TextHeight(t) == r.to;
    var i :| 0 <= i < |rs| && rs[i] == r;
    assert InRange(rs[i], r.to);
    assert history[..0] == [];
    assert LinesIn(c, history, rs, maxTo) == [];
    assert AskedLines(c, history, rs) == [t];
  }

  /** A concrete request the answer does not cover: 1-10 and 2-3 stop the scan at 3, and a
      stored line of height 7 is asked for but left out. */
  lemma {:induction false} OverlappingRangesAreCut(c: Codec, line: string)
    requires c.TextHeight(line) == 7
    ensures var rs := [HeightRange(1, 10), HeightRange(2, 3)];
            IsScanLimit(rs, 3) && AskedLines(c, [line], rs) == [line] && LinesIn(c, [line], rs, 3) == []
  {
    var rs := [HeightRange(1, 10), HeightRange(2, 3)];
    assert rs[1] in rs && forall q :: q in rs ==> q.from <= rs[1].from;
    assert InRange(rs[0], 7);
    assert [line][..0] == [];
  }

  /** The client's own requests are well formed. */
  lemma RunsAreValid(missing: set<nat>, runs: seq<HeightRange>)
    requires 0 !in missing && Separated(runs) && (forall h :: h in missing <==> InRanges(runs, h))
    ensures ValidRanges(runs) == runs
  {
    forall i | 0 <= i < |runs| ensures ValidRange(runs[i]) {
      assert InRange(runs[i], runs[i].from);
      assert InRanges(runs, runs[i].from);
    }
    AllValid(runs);
  }

  lemma LastRunIsLimit(runs: seq<HeightRange>, maxTo: nat)
    requires Separated(runs) && runs != [] && IsScanLimit(runs, maxTo)
    ensures runs[|runs| - 1].to == maxTo
  {
    var r :| r in runs && r.to == maxTo && forall q :: q in runs ==> q.from <= r.from;
    var k :| 0 <= k < |runs| && runs[k] == r;
    var n := |runs| - 1;
    assert runs[n] in runs;
    assert runs[k].from <= runs[k].to && runs[n].from <= runs[k].from;
  }

  /** They are always covered: separated runs end in order. */
  lemma {:induction false} RunsAreCovered(missing: set<nat>, runs: seq<HeightRange>, maxTo: nat)
    requires 0 !in missing && Separated(runs) && (forall h :: h in missing <==> InRanges(runs, h))
    requires runs != [] ==> IsScanLimit(runs, maxTo)
    ensures ValidRanges(runs) == runs
    ensures forall h :: h in missing ==> h <= maxTo
  {
    RunsAreValid(missing, runs);
    if runs != [] {
      var n := |runs| - 1;
      LastRunIsLimit(runs, maxTo);
      forall h | h in missing ensures h <= maxTo {
        var i :| 0 <= i < |runs| && InRange(runs[i], h);
        if i < n {
          assert runs[i].to + 1 < runs[n].from;
        }
      }
    }
  }

  lemma {:induction false} AllValid(rs: seq<HeightRange>)
    requires forall i :: 0 <= i < |rs| ==> ValidRange(rs[i])
    ensures ValidRanges(rs) == rs
  {
    if rs != [] {
      AllValid(rs[1..]);
    }
  }
}
