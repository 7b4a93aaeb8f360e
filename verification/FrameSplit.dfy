/** The receiving side of a batched frame: the client splits every frame on newlines and
    skips blank pieces. Doing so gives back the lines the server batched. */
module FrameSplit {
  import opened Basics
  import opened ReplayBatch

  /** The pieces between newlines; a final newline leaves an empty last piece. */
  function Split(s: string): (r: seq<string>)
    ensures |r| > 0
  {
    if s == "" then [""]
    else
      var front, last := Split(s[..|s| - 1]), s[|s| - 1];
      if last == '\n' then front + [""] else front[|front| - 1 := front[|front| - 1] + [last]]
  }

  function NonBlank(parts: seq<string>, blank: string -> bool): seq<string> {
    if parts == [] then []
    else
      var front, last := NonBlank(parts[..|parts| - 1], blank), parts[|parts| - 1];
      if blank(last) then front else front + [last]
  }

  /** The lines a frame shows to the client. */
  function Shown(frame: string, blank: string -> bool): seq<string> {
    NonBlank(Split(frame), blank)
  }

  function AllShown(frames: seq<string>, blank: string -> bool): seq<string> {
    if frames == [] then [] else AllShown(frames[..|frames| - 1], blank) + Shown(frames[|frames| - 1], blank)
  }

  /** The client's loop over one frame. */
  method ReadFrame(frame: string, blank: string -> bool) returns (lines: seq<string>)
    ensures lines == Shown(frame, blank)
  {
    lines := [];
    var parts := Split(frame);
    for i := 0 to |parts|
      invariant lines == NonBlank(parts[..i], blank)
    {
      assert parts[..i + 1][..i] == parts[..i];
      if blank(parts[i]) {
        continue;
      }
      lines := lines + [parts[i]];
    }
    assert parts[..|parts|] == parts;
  }

  lemma {:induction false} SplitAtNewline(a: string, b: string)
    ensures Split(a + "\n" + b) == Split(a) + Split(b)
  {
    if b == "" {
      SplitStep(a, '\n');
      assert a + "\n" + b == a + ['\n'];
    } else {
      var b', last := b[..|b| - 1], b[|b| - 1];
      SplitAtNewline(a, b');
      SplitStep(a + "\n" + b', last);
      SplitStep(b', last);
      SameText(a, b);
      PushBehind(Split(a), Split(b'), last);
    }
  }

  /** One more character ends the last piece or lengthens it. */
  function Push(parts: seq<string>, last: char): seq<string>
    requires parts != []
  {
    if last == '\n' then parts + [""] else parts[|parts| - 1 := parts[|parts| - 1] + [last]]
  }

  lemma SplitStep(s: string, last: char)
    ensures Split(s + [last]) == Push(Split(s), last)
  {
    assert (s + [last])[..|s|] == s;
  }

  lemma SameText(a: string, b: string)
    requires b != ""
    ensures var b', last := b[..|b| - 1], b[|b| - 1];
            b == b' + [last] && a + "\n" + b == (a + "\n" + b') + [last]
  {
  }

  lemma PushBehind(x: seq<string>, y: seq<string>, last: char)
    requires y != []
    ensures Push(x + y, last) == x + Push(y, last)
  {
  }

  lemma {:induction false} NonBlankConcat(a: seq<string>, b: seq<string>, blank: string -> bool)
    ensures NonBlank(a + b, blank) == NonBlank(a, blank) + NonBlank(b, blank)
  {
    if b == [] {
      assert a + b == a;
    } else {
      NonBlankConcat(a, b[..|b| - 1], blank);
      assert (a + b)[..|a + b| - 1] == a + b[..|b| - 1];
    }
  }

  /** A newline separates: what stands before and after it shows independently. */
  lemma ShownAtNewline(a: string, b: string, blank: string -> bool)
    ensures Shown(a + "\n" + b, blank) == Shown(a, blank) + Shown(b, blank)
  {
    SplitAtNewline(a, b);
    NonBlankConcat(Split(a), Split(b), blank);
  }

  /** A batch shows what its lines show, whatever follows it. */
  lemma {:induction false} BatchShows(lines: seq<string>, more: string, blank: string -> bool)
    ensures Shown(Joined(lines) + more, blank) == AllShown(lines, blank) + Shown(more, blank)
    decreases |lines|
  {
    if lines == [] {
      assert Joined(lines) + more == more;
    } else {
      var front, last := lines[..|lines| - 1], lines[|lines| - 1];
      assert Joined(lines) + more == Joined(front) + (last + "\n" + more);
      BatchShows(front, last + "\n" + more, blank);
      ShownAtNewline(last, more, blank);
    }
  }

  lemma GroupShows(g: Group, blank: string -> bool)
    requires blank("")
    ensures Shown(g.Bytes(), blank) == AllShown(g.Lines(), blank)
  {
    match g
    case Batch(lines) =>
      assert Joined(lines) + "" == Joined(lines);
      BatchShows(lines, "", blank);
      assert Split("") == [""] && [""][..0] == [];
      assert Shown("", blank) == [];
    case Alone(line) =>
      assert [line][..0] == [];
  }

  lemma {:induction false} AllShownConcat(a: seq<string>, b: seq<string>, blank: string -> bool)
    ensures AllShown(a + b, blank) == AllShown(a, blank) + AllShown(b, blank)
  {
    if b == [] {
      assert a + b == a;
    } else {
      var front, last := b[..|b| - 1], b[|b| - 1];
      AllShownConcat(a, front, blank);
      assert (a + b)[..|a + b| - 1] == a + front && (a + b)[|a + b| - 1] == last;
      ConcatAssoc(AllShown(a, blank), AllShown(front, blank), Shown(last, blank));
    }
  }

  lemma {:induction false} FramesShow(frames: seq<string>, groups: seq<Group>, blank: string -> bool)
    requires blank("") && FramesAre(frames, groups)
    ensures AllShown(frames, blank) == AllShown(AllLines(groups), blank)
  {
    if groups != [] {
      var n := |groups| - 1;
      FramesShow(frames[..n], groups[..n], blank);
      GroupShows(groups[n], blank);
      AllShownConcat(AllLines(groups[..n]), groups[n].Lines(), blank);
    }
  }

  /** A line without newlines that is not blank shows as itself. */
  lemma {:induction false} PlainLine(line: string)
    requires '\n' !in line
    ensures Split(line) == [line]
  {
    if line != "" {
      PlainLine(line[..|line| - 1]);
      assert line[..|line| - 1] + [line[|line| - 1]] == line;
    }
  }

  predicate OneLineEach(lines: seq<string>, blank: string -> bool) {
    forall i :: 0 <= i < |lines| ==> '\n' !in lines[i] && !blank(lines[i])
  }

  lemma PlainLineShows(line: string, blank: string -> bool)
    requires '\n' !in line && !blank(line)
    ensures Shown(line, blank) == [line]
  {
    PlainLine(line);
    assert [line][..0] == [];
  }

  lemma OneLineFront(lines: seq<string>, blank: string -> bool)
    requires OneLineEach(lines, blank) && lines != []
    ensures OneLineEach(lines[..|lines| - 1], blank)
    ensures lines == lines[..|lines| - 1] + [lines[|lines| - 1]]
    ensures '\n' !in lines[|lines| - 1] && !blank(lines[|lines| - 1])
  {
  }

  lemma {:induction false} PlainLinesShow(lines: seq<string>, blank: string -> bool)
    requires OneLineEach(lines, blank)
    ensures AllShown(lines, blank) == lines
  {
    if lines != [] {
      var front, last := lines[..|lines| - 1], lines[|lines| - 1];
      OneLineFront(lines, blank);
      PlainLinesShow(front, blank);
      PlainLineShows(last, blank);
    }
  }

  lemma {:induction false} KeptFrom<T>(s: seq<T>, mask: seq<bool>, i: nat)
    requires |s| == |mask| && i < |Kept(s, mask)|
    ensures exists j :: 0 <= j < |s| && mask[j] && s[j] == Kept(s, mask)[i]
  {
    var n := |s| - 1;
    if i < |Kept(s[..n], mask[..n])| {
      KeptFrom(s[..n], mask[..n], i);
      var j :| 0 <= j < n && mask[..n][j] && s[..n][j] == Kept(s[..n], mask[..n])[i];
      assert mask[j] && s[j] == Kept(s, mask)[i];
    } else {
      assert mask[n] && s[n] == Kept(s, mask)[i];
    }
  }

  /** What the client reads off the delivered frames is, in order, what the delivered lines
      show: all of it when nothing was dropped. */
  lemma {:induction false} DeliveredFramesShowTheirLines(frames: seq<string>, groups: seq<Group>, caps: Caps,
                                                         payloads: seq<string>, mask: seq<bool>, blank: string -> bool)
    requires Delivered(frames, groups, caps, payloads, mask) && blank("")
    ensures AllShown(frames, blank) == AllShown(Kept(payloads, mask), blank)
    ensures Count(mask, false) == 0 ==> AllShown(frames, blank) == AllShown(payloads, blank)
    ensures OneLineEach(payloads, blank) ==>
              AllShown(frames, blank) == Kept(payloads, mask)
              && |AllShown(frames, blank)| == |payloads| - Count(mask, false)
  {
    FramesShow(frames, groups, blank);
    MaskAddsUp(payloads, mask);
    if OneLineEach(payloads, blank) {
      forall i | 0 <= i < |Kept(payloads, mask)|
        ensures '\n' !in Kept(payloads, mask)[i] && !blank(Kept(payloads, mask)[i])
      {
        KeptFrom(payloads, mask, i);
      }
      PlainLinesShow(Kept(payloads, mask), blank);
    }
  }
}
