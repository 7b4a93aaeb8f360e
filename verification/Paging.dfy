/** Seq-cursor pages over stored history: ascending pages for a load, descending ones for
    older history. Following the cursors tiles the lines, each once and in order. */
module Paging {
  import opened Basics
  import opened WireModel
  import opened Refill
  import opened ReplayBatch

  /** The cursor a descending request stands for: 0 means from the end. */
  const NO_CURSOR := 0xFFFF_FFFF_FFFF_FFFF

  function Ceiling(beforeSeq: nat): nat {
    if beforeSeq == 0 then NO_CURSOR else beforeSeq
  }

  predicate Above(c: Codec, line: string, after: nat) {
    SeqOf(c, line) > after
  }

  predicate Below(c: Codec, line: string, before: nat) {
    0 < SeqOf(c, line) < before
  }

  /** Stored lines above a cursor, oldest first. */
  function LinesAfter(c: Codec, history: seq<string>, after: nat): seq<string> {
    if history == [] then []
    else
      var front, last := LinesAfter(c, history[..|history| - 1], after), history[|history| - 1];
      if Above(c, last, after) then front + [last] else front
  }

  /** Stored lines below a cursor, newest first. */
  function LinesBefore(c: Codec, history: seq<string>, before: nat): seq<string> {
    if history == [] then []
    else
      var rest, last := LinesBefore(c, history[..|history| - 1], before), history[|history| - 1];
      if Below(c, last, before) then [last] + rest else rest
  }

  /** One page of a listing: what fits, whether more follows, and the cursor to go on from. */
  predicate IsPage(c: Codec, all: seq<string>, limit: int, lines: seq<string>, more: bool, next: nat) {
    if limit <= 0 then lines == [] && !more && next == 0
    else
      && lines == FirstN(all, limit)
      && more == (|all| > limit)
      && next == if more then SeqOf(c, lines[limit - 1]) else 0
  }

  lemma {:induction false} AfterGrows(c: Codec, history: seq<string>, after: nat, k: nat)
    requires k <= |history|
    ensures LinesAfter(c, history[..k], after) <= LinesAfter(c, history, after)
    decreases |history|
  {
    if k < |history| {
      assert history[..|history| - 1][..k] == history[..k];
      AfterGrows(c, history[..|history| - 1], after, k);
    } else {
      assert history[..k] == history;
    }
  }

  // ---------------------------------------------------------------- what the listings hold

  /** Which stored lines those are: by position in history, in its order, every one that decodes to
      a wire with a number above the cursor, whatever else the wire says. */
  lemma {:induction false} AfterMeaning(c: Codec, history: seq<string>, after: nat) returns (at: seq<nat>)
    ensures Picks(history, at, LinesAfter(c, history, after)) && Rises(at)
    ensures forall i :: 0 <= i < |history| ==>
              (i in at <==> c.unmarshal(history[i]).Some? && c.unmarshal(history[i]).value.seqno > after)
  {
    if history == [] {
      at := [];
    } else {
      var n := |history| - 1;
      var h := history[..n];
      var front := AfterMeaning(c, h, after);
      var keep := c.unmarshal(history[n]).Some? && c.unmarshal(history[n]).value.seqno > after;
      PicksMore(h, history[n], front, LinesAfter(c, h, after));
      assert h + [history[n]] == history;
      at := if keep then front + [n] else front;
      forall i | 0 <= i < |history|
        ensures i in at <==> c.unmarshal(history[i]).Some? && c.unmarshal(history[i]).value.seqno > after
      {
        InMore(front, n, i);
        assert i < n ==> h[i] == history[i];
        assert i == n ==> i !in front;
      }
    }
  }

  /** The same for a descending listing: the numbered wires below the cursor, last one first. */
  lemma {:induction false} BeforeMeaning(c: Codec, history: seq<string>, before: nat) returns (at: seq<nat>)
    ensures Picks(history, at, LinesBefore(c, history, before)) && Falls(at)
    ensures forall i :: 0 <= i < |history| ==>
              (i in at <==> c.unmarshal(history[i]).Some? && 0 < c.unmarshal(history[i]).value.seqno < before)
  {
    if history == [] {
      at := [];
    } else {
      var n := |history| - 1;
      var h := history[..n];
      var front := BeforeMeaning(c, h, before);
      var keep := c.unmarshal(history[n]).Some? && 0 < c.unmarshal(history[n]).value.seqno < before;
      PicksMore(h, history[n], front, LinesBefore(c, h, before));
      assert h + [history[n]] == history;
      at := if keep then [n] + front else front;
      forall i | 0 <= i < |history|
        ensures i in at <==> c.unmarshal(history[i]).Some? && 0 < c.unmarshal(history[i]).value.seqno < before
      {
        InMore(front, n, i);
        assert i < n ==> h[i] == history[i];
        assert i == n ==> i !in front;
      }
    }
  }

  /** What a page of it is: the first of those lines, up to the limit, and whether one follows. */
  lemma AfterPage(c: Codec, history: seq<string>, after: nat, limit: int, lines: seq<string>, more: bool, next: nat)
    returns (at: seq<nat>)
    requires IsPage(c, LinesAfter(c, history, after), limit, lines, more, next)
    ensures |at| == |lines| && forall j, k :: 0 <= j < k < |at| ==> at[j] < at[k]
    ensures forall k :: 0 <= k < |at| ==> at[k] < |history| && lines[k] == history[at[k]]
    ensures forall k :: 0 <= k < |at| ==>
              c.unmarshal(lines[k]).Some? && c.unmarshal(lines[k]).value.seqno > after
    ensures limit > 0 ==> forall i :: 0 <= i < |history| && c.unmarshal(history[i]).Some? ==>
              c.unmarshal(history[i]).value.seqno > after && (more ==> i <= at[limit - 1]) ==> i in at
    ensures more ==> |lines| == limit && next == c.unmarshal(lines[limit - 1]).value.seqno
    ensures more ==> exists i :: 0 <= i < |history| && at[limit - 1] < i && c.unmarshal(history[i]).Some?
                                 && c.unmarshal(history[i]).value.seqno > after
    ensures !more ==> next == 0
  {
    var all := AfterMeaning(c, history, after);
    at := if limit <= 0 then [] else FirstN(all, limit);
    forall k | 0 <= k < |at| ensures c.unmarshal(lines[k]).Some? && c.unmarshal(lines[k]).value.seqno > after {
      assert at[k] == all[k] && all[k] in all;
    }
    if more {
      assert all[limit] in all;
    }
    forall i | i in all && limit > 0 && (more ==> i <= at[limit - 1]) ensures i in at {
      var k :| 0 <= k < |all| && all[k] == i;
      assert k < |at| ==> at[k] == i;
    }
  }

  /** What a page of it is: the first of those lines, up to the limit, and whether one follows. */
  lemma BeforePage(c: Codec, history: seq<string>, before: nat, limit: int, lines: seq<string>, more: bool, next: nat)
    returns (at: seq<nat>)
    requires IsPage(c, LinesBefore(c, history, before), limit, lines, more, next)
    ensures |at| == |lines| && forall j, k :: 0 <= j < k < |at| ==> at[j] > at[k]
    ensures forall k :: 0 <= k < |at| ==> at[k] < |history| && lines[k] == history[at[k]]
    ensures forall k :: 0 <= k < |at| ==>
              c.unmarshal(lines[k]).Some? && 0 < c.unmarshal(lines[k]).value.seqno < before
    ensures limit > 0 ==> forall i :: 0 <= i < |history| && c.unmarshal(history[i]).Some? ==>
              0 < c.unmarshal(history[i]).value.seqno < before && (more ==> i >= at[limit - 1]) ==> i in at
    ensures more ==> |lines| == limit && next == c.unmarshal(lines[limit - 1]).value.seqno
    ensures more ==> exists i :: 0 <= i < |history| && at[limit - 1] > i && c.unmarshal(history[i]).Some?
                                 && 0 < c.unmarshal(history[i]).value.seqno < before
    ensures !more ==> next == 0
  {
    var all := BeforeMeaning(c, history, before);
    at := if limit <= 0 then [] else FirstN(all, limit);
    forall k | 0 <= k < |at| ensures c.unmarshal(lines[k]).Some? && 0 < c.unmarshal(lines[k]).value.seqno < before {
      assert at[k] == all[k] && all[k] in all;
    }
    if more {
      assert all[limit] in all;
    }
    forall i | i in all && limit > 0 && (more ==> i >= at[limit - 1]) ensures i in at {
      var k :| 0 <= k < |all| && all[k] == i;
      assert k < |at| ==> at[k] == i;
    }
  }

  /** One ascending page. What it holds, said of the stored lines alone: `at` are the positions of
      its lines in history. */
  method CollectAfterSeq(c: Codec, history: seq<string>, after: nat, limit: int)
    returns (lines: seq<string>, more: bool, next: nat, ghost at: seq<nat>)
    ensures IsPage(c, LinesAfter(c, history, after), limit, lines, more, next)
    ensures |at| == |lines| && forall j, k :: 0 <= j < k < |at| ==> at[j] < at[k]
    ensures forall k :: 0 <= k < |at| ==> at[k] < |history| && lines[k] == history[at[k]]
    ensures forall k :: 0 <= k < |at| ==>
              c.unmarshal(lines[k]).Some? && c.unmarshal(lines[k]).value.seqno > after
    ensures limit > 0 ==> forall i :: 0 <= i < |history| && c.unmarshal(history[i]).Some? ==>
              c.unmarshal(history[i]).value.seqno > after && (more ==> i <= at[limit - 1]) ==> i in at
    ensures more ==> |lines| == limit && next == c.unmarshal(lines[limit - 1]).value.seqno
    ensures more ==> exists i :: 0 <= i < |history| && at[limit - 1] < i && c.unmarshal(history[i]).Some?
                                 && c.unmarshal(history[i]).value.seqno > after
    ensures !more ==> next == 0
  {
    lines, more, next := [], false, 0;
    if limit <= 0 {
      at := AfterPage(c, history, after, limit, lines, more, next);
      return;
    }
    for i := 0 to |history|
      invariant lines == LinesAfter(c, history[..i], after) && |lines| <= limit && !more
      invariant lines != [] ==> next == SeqOf(c, lines[|lines| - 1])
    {
      assert history[..i + 1][..i] == history[..i];
      var line := history[i];
      var stored := c.unmarshal(line);
      if stored.None? || stored.value.seqno <= after {
        continue;
      }
      if |lines| == limit {
        AfterGrows(c, history, after, i + 1);
        more := true;
        at := AfterPage(c, history, after, limit, lines, more, next);
        return;
      }
      lines := lines + [line];
      next := stored.value.seqno;
    }
    assert history[..|history|] == history;
    next := 0;
    at := AfterPage(c, history, after, limit, lines, more, next);
  }

  lemma {:induction false} BeforeSplits(c: Codec, history: seq<string>, before: nat, k: nat)
    requires k <= |history|
    ensures LinesBefore(c, history, before)
         == LinesBefore(c, history[k..], before) + LinesBefore(c, history[..k], before)
    decreases |history|
  {
    if k < |history| {
      var n := |history| - 1;
      assert history[..n][..k] == history[..k];
      assert history[..n][k..] == history[k..][..n - k];
      BeforeSplits(c, history[..n], before, k);
    } else {
      assert history[..k] == history && history[k..] == [];
    }
  }

  /** One descending page, in the same terms; cursor 0 stands for the end. */
  method CollectBeforeSeq(c: Codec, history: seq<string>, beforeSeq: nat, limit: int)
    returns (lines: seq<string>, more: bool, next: nat, ghost at: seq<nat>)
    ensures IsPage(c, LinesBefore(c, history, Ceiling(beforeSeq)), limit, lines, more, next)
    ensures Ceiling(beforeSeq) == if beforeSeq == 0 then 0xFFFF_FFFF_FFFF_FFFF else beforeSeq
    ensures |at| == |lines| && forall j, k :: 0 <= j < k < |at| ==> at[j] > at[k]
    ensures forall k :: 0 <= k < |at| ==> at[k] < |history| && lines[k] == history[at[k]]
    ensures forall k :: 0 <= k < |at| ==>
              c.unmarshal(lines[k]).Some? && 0 < c.unmarshal(lines[k]).value.seqno < Ceiling(beforeSeq)
    ensures limit > 0 ==> forall i :: 0 <= i < |history| && c.unmarshal(history[i]).Some? ==>
              0 < c.unmarshal(history[i]).value.seqno < Ceiling(beforeSeq) && (more ==> i >= at[limit - 1]) ==> i in at
    ensures more ==> |lines| == limit && next == c.unmarshal(lines[limit - 1]).value.seqno
    ensures more ==> exists i :: 0 <= i < |history| && at[limit - 1] > i && c.unmarshal(history[i]).Some?
                                 && 0 < c.unmarshal(history[i]).value.seqno < Ceiling(beforeSeq)
    ensures !more ==> next == 0
  {
    var before := Ceiling(beforeSeq);
    lines, more, next := [], false, 0;
    if limit <= 0 {
      at := BeforePage(c, history, before, limit, lines, more, next);
      return;
    }
    var i := |history|;
    assert history[i..] == [];
    while i > 0
      invariant 0 <= i <= |history|
      invariant lines == LinesBefore(c, history[i..], before) && |lines| <= limit && !more
      invariant lines != [] ==> next == SeqOf(c, lines[|lines| - 1])
    {
      i := i - 1;
      var line := history[i];
      OneMoreBefore(c, history, before, i);
      var stored := c.unmarshal(line);
      if stored.None? || stored.value.seqno == 0 || stored.value.seqno >= before {
        continue;
      }
      if |lines| == limit {
        BeforeSplits(c, history, before, i);
        more := true;
        at := BeforePage(c, history, before, limit, lines, more, next);
        return;
      }
      lines := lines + [line];
      next := stored.value.seqno;
    }
    assert history[0..] == history;
    next := 0;
    at := BeforePage(c, history, before, limit, lines, more, next);
  }

  lemma OneMoreBefore(c: Codec, history: seq<string>, before: nat, i: nat)
    requires i < |history|
    ensures LinesBefore(c, history[i..], before)
         == LinesBefore(c, history[i + 1..], before) + if Below(c, history[i], before) then [history[i]] else []
  {
    var tail := history[i..];
    BeforeSplits(c, tail, before, 1);
    assert tail[1..] == history[i + 1..] && tail[..1] == [history[i]];
    assert [history[i]][..0] == [];
  }

  // ---------------------------------------------------------------- cursors

  /** Numbers rise from line to line; lines without one (seq 0) may stand anywhere. */
  predicate Rising(c: Codec, history: seq<string>) {
    forall i, j :: 0 <= i < j < |history| && SeqOf(c, history[i]) != 0 && SeqOf(c, history[j]) != 0 ==>
      SeqOf(c, history[i]) < SeqOf(c, history[j])
  }

  predicate Ascending(c: Codec, lines: seq<string>) {
    forall i, j :: 0 <= i < j < |lines| ==> SeqOf(c, lines[i]) < SeqOf(c, lines[j])
  }

  lemma {:induction false} AfterAscends(c: Codec, history: seq<string>, after: nat)
    requires Rising(c, history)
    ensures Ascending(c, LinesAfter(c, history, after))
    ensures forall i :: 0 <= i < |LinesAfter(c, history, after)| ==> LinesAfter(c, history, after)[i] in history
    ensures forall i :: 0 <= i < |LinesAfter(c, history, after)| ==> SeqOf(c, LinesAfter(c, history, after)[i]) > after
  {
    if history != [] {
      var n := |history| - 1;
      AfterAscends(c, history[..n], after);
      var front := LinesAfter(c, history[..n], after);
      forall i | 0 <= i < |front| && Above(c, history[n], after) ensures SeqOf(c, front[i]) < SeqOf(c, history[n]) {
        var k :| 0 <= k < n && history[..n][k] == front[i];
        assert SeqOf(c, history[k]) != 0;
      }
    }
  }

  /** Going on from a cursor means dropping what stands at or below it. */
  lemma {:induction false} AfterNext(c: Codec, history: seq<string>, after: nat, k: nat)
    requires Rising(c, history) && k < |LinesAfter(c, history, after)|
    ensures var all := LinesAfter(c, history, after);
            LinesAfter(c, history, SeqOf(c, all[k])) == all[k + 1..]
    decreases |history|
  {
    var n := |history| - 1;
    var front, all := LinesAfter(c, history[..n], after), LinesAfter(c, history, after);
    AfterAscends(c, history, after);
    if k < |front| {
      AfterNext(c, history[..n], after, k);
      assert all[k] == front[k];
      if Above(c, history[n], after) {
        assert all[|all| - 1] == history[n];
        assert all[k + 1..] == front[k + 1..] + [history[n]];
      }
    } else {
      assert all[k] == history[n] && all[k + 1..] == [];
      NoneAbove(c, history, SeqOf(c, history[n]), n, n + 1);
      assert history[..n + 1] == history;
    }
  }

  lemma {:induction false} NoneAbove(c: Codec, history: seq<string>, after: nat, n: nat, k: nat)
    requires Rising(c, history) && n < |history| && SeqOf(c, history[n]) == after != 0 && k <= n + 1
    ensures LinesAfter(c, history[..k], after) == []
    decreases k
  {
    if k > 0 {
      NoneAbove(c, history, after, n, k - 1);
      assert history[..k][..k - 1] == history[..k - 1];
      assert !Above(c, history[k - 1], after);
    }
  }

  lemma {:induction false} SameBelow(c: Codec, history: seq<string>, b1: nat, b2: nat)
    requires forall i :: 0 <= i < |history| ==> SeqOf(c, history[i]) < b1 && SeqOf(c, history[i]) < b2
    ensures LinesBefore(c, history, b1) == LinesBefore(c, history, b2)
  {
    if history != [] {
      SameBelow(c, history[..|history| - 1], b1, b2);
    }
  }

  lemma {:induction false} BeforeAreBelow(c: Codec, history: seq<string>, before: nat)
    ensures forall i :: 0 <= i < |LinesBefore(c, history, before)| ==>
              Below(c, LinesBefore(c, history, before)[i], before) && LinesBefore(c, history, before)[i] in history
  {
    if history != [] {
      BeforeAreBelow(c, history[..|history| - 1], before);
    }
  }

  lemma {:induction false} BeforeNext(c: Codec, history: seq<string>, before: nat, k: nat)
    requires Rising(c, history) && k < |LinesBefore(c, history, before)|
    ensures var all := LinesBefore(c, history, before);
            LinesBefore(c, history, SeqOf(c, all[k])) == all[k + 1..]
    decreases |history|
  {
    var n := |history| - 1;
    var front, last := history[..n], history[n];
    var rest, all := LinesBefore(c, front, before), LinesBefore(c, history, before);
    BeforeAreBelow(c, front, before);
    if Below(c, last, before) {
      if k == 0 {
        assert forall i :: 0 <= i < n ==> front[i] == history[i];
        SameBelow(c, front, before, SeqOf(c, last));
      } else {
        BeforeNext(c, front, before, k - 1);
        assert all[k] == rest[k - 1] && rest[k - 1] in front;
        var j :| 0 <= j < n && history[j] == rest[k - 1];
      }
    } else {
      BeforeNext(c, front, before, k);
    }
  }

  // ---------------------------------------------------------------- tiling

  /** All lines a client gets by following the cursors upwards, page by page. */
  function PagesUp(c: Codec, history: seq<string>, after: nat, limit: nat): seq<string>
    requires Rising(c, history) && limit > 0
    decreases |LinesAfter(c, history, after)|
  {
    var all := LinesAfter(c, history, after);
    if |all| <= limit then all
    else
      AfterNext(c, history, after, limit - 1);
      all[..limit] + PagesUp(c, history, SeqOf(c, all[limit - 1]), limit)
  }

  /** The same downwards. */
  function PagesDown(c: Codec, history: seq<string>, before: nat, limit: nat): seq<string>
    requires Rising(c, history) && limit > 0
    decreases |LinesBefore(c, history, before)|
  {
    var all := LinesBefore(c, history, before);
    if |all| <= limit then all
    else
      BeforeNext(c, history, before, limit - 1);
      all[..limit] + PagesDown(c, history, SeqOf(c, all[limit - 1]), limit)
  }

  /** Ascending pages tile the lines above the start, each once and in order. */
  lemma {:induction false} PagesUpTile(c: Codec, history: seq<string>, after: nat, limit: nat)
    requires Rising(c, history) && limit > 0
    ensures PagesUp(c, history, after, limit) == LinesAfter(c, history, after)
    ensures Ascending(c, PagesUp(c, history, after, limit))
    decreases |LinesAfter(c, history, after)|
  {
    var all := LinesAfter(c, history, after);
    AfterAscends(c, history, after);
    if |all| > limit {
      AfterNext(c, history, after, limit - 1);
      PagesUpTile(c, history, SeqOf(c, all[limit - 1]), limit);
    }
  }

  /** Descending pages tile the prefix below the start, newest first. */
  lemma {:induction false} PagesDownTile(c: Codec, history: seq<string>, before: nat, limit: nat)
    requires Rising(c, history) && limit > 0
    ensures PagesDown(c, history, before, limit) == LinesBefore(c, history, before)
    decreases |LinesBefore(c, history, before)|
  {
    var all := LinesBefore(c, history, before);
    if |all| > limit {
      BeforeNext(c, history, before, limit - 1);
      PagesDownTile(c, history, SeqOf(c, all[limit - 1]), limit);
    }
  }

  /** So what a client gets by following them upwards is every stored wire numbered above the
      start, by position in history and in its order. */
  lemma {:induction false} PagesUpHold(c: Codec, history: seq<string>, after: nat, limit: nat) returns (at: seq<nat>)
    requires Rising(c, history) && limit > 0
    ensures Picks(history, at, PagesUp(c, history, after, limit)) && Rises(at)
    ensures forall i :: 0 <= i < |history| ==>
              (i in at <==> c.unmarshal(history[i]).Some? && c.unmarshal(history[i]).value.seqno > after)
  {
    PagesUpTile(c, history, after, limit);
    at := AfterMeaning(c, history, after);
  }

  /** And downwards every numbered wire below it, last one first. */
  lemma {:induction false} PagesDownHold(c: Codec, history: seq<string>, before: nat, limit: nat) returns (at: seq<nat>)
    requires Rising(c, history) && limit > 0
    ensures Picks(history, at, PagesDown(c, history, before, limit)) && Falls(at)
    ensures forall i :: 0 <= i < |history| ==>
              (i in at <==> c.unmarshal(history[i]).Some? && 0 < c.unmarshal(history[i]).value.seqno < before)
  {
    PagesDownTile(c, history, before, limit);
    at := BeforeMeaning(c, history, before);
  }

  /** Up and down see the same lines: the two listings from end to end are reverses. */
  lemma {:induction false} DownIsUpReversed(c: Codec, history: seq<string>)
    requires forall i :: 0 <= i < |history| ==> SeqOf(c, history[i]) < NO_CURSOR
    ensures Reverse(LinesAfter(c, history, 0)) == LinesBefore(c, history, NO_CURSOR)
  {
    if history != [] {
      var n := |history| - 1;
      DownIsUpReversed(c, history[..n]);
      if SeqOf(c, history[n]) != 0 {
        ReverseAppend(LinesAfter(c, history[..n], 0), history[n]);
      }
    }
  }
}
