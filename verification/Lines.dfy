/** A log file is a byte string; a line is what stands before a newline byte, and
    whatever follows the last newline is a torn tail (an append in flight). */
module Lines {
  import opened Basics

  const NEWLINE: Byte := 10

  /** bytes.Split on newline: never empty, and the last part is the torn tail. */
  function Split(s: Bytes): (parts: seq<Bytes>)
    ensures |parts| >= 1
  {
    if s == [] then [[]] else PushByte(Split(s[..|s| - 1]), s[|s| - 1])
  }

  function PushByte(parts: seq<Bytes>, b: Byte): (r: seq<Bytes>)
    requires |parts| >= 1
    ensures |r| >= 1
  {
    if b == NEWLINE then parts + [[]]
    else parts[..|parts| - 1] + [parts[|parts| - 1] + [b]]
  }

  /** Two files' parts, with the seam in the middle of a line. */
  function Glue(fa: seq<Bytes>, fb: seq<Bytes>): (r: seq<Bytes>)
    requires |fa| >= 1 && |fb| >= 1
    ensures |r| == |fa| + |fb| - 1
  {
    fa[..|fa| - 1] + [fa[|fa| - 1] + fb[0]] + fb[1..]
  }

  function CompleteLines(s: Bytes): seq<Bytes> {
    Split(s)[..|Split(s)| - 1]
  }

  function TornTail(s: Bytes): Bytes {
    Split(s)[|Split(s)| - 1]
  }

  /** A file nothing is being appended to: empty, or ending in a newline. */
  predicate Terminated(s: Bytes) {
    TornTail(s) == []
  }

  predicate LineStart(s: Bytes, off: nat) {
    off <= |s| && (off == 0 || s[off - 1] == NEWLINE)
  }

  lemma GluePush(fa: seq<Bytes>, fb: seq<Bytes>, c: Byte)
    requires |fa| >= 1 && |fb| >= 1
    ensures Glue(fa, PushByte(fb, c)) == PushByte(Glue(fa, fb), c)
  {
    var x := fa[|fa| - 1];
    if c == NEWLINE {
      assert (fb + [[]])[1..] == fb[1..] + [[]];
    } else if |fb| == 1 {
      assert x + (fb[0] + [c]) == x + fb[0] + [c];
    }
  }

  /** Cutting a file anywhere cuts exactly one part in two. */
  lemma {:induction false} SplitConcat(a: Bytes, b: Bytes)
    ensures Split(a + b) == Glue(Split(a), Split(b))
    decreases |b|
  {
    if b == [] {
      assert a + b == a;
      assert TornTail(a) + [] == TornTail(a);
    } else {
      var last := |b| - 1;
      assert (a + b)[..|a + b| - 1] == a + b[..last];
      SplitConcat(a, b[..last]);
      GluePush(Split(a), Split(b[..last]), b[last]);
    }
  }

  lemma GlueTerminated(fa: seq<Bytes>, fb: seq<Bytes>)
    requires |fa| >= 1 && |fb| >= 1 && fa[|fa| - 1] == []
    ensures Glue(fa, fb) == fa[..|fa| - 1] + fb
    ensures Glue(fa, fb)[..|fa| + |fb| - 2] == fa[..|fa| - 1] + fb[..|fb| - 1]
  {
    assert [] + fb[0] == fb[0];
    assert [fb[0]] + fb[1..] == fb;
  }

  /** At a line start a file falls apart into independent halves. */
  lemma {:induction false} SplitAtLineStart(s: Bytes, off: nat)
    requires LineStart(s, off)
    ensures Terminated(s[..off])
    ensures Split(s) == CompleteLines(s[..off]) + Split(s[off..])
    ensures CompleteLines(s) == CompleteLines(s[..off]) + CompleteLines(s[off..])
  {
    assert Terminated(s[..off]) by {
      if off > 0 {
        assert s[..off][|s[..off]| - 1] == NEWLINE;
      }
    }
    assert s == s[..off] + s[off..];
    SplitConcat(s[..off], s[off..]);
    GlueTerminated(Split(s[..off]), Split(s[off..]));
  }

  lemma {:induction false} NewlineFree(s: Bytes)
    requires NEWLINE !in s
    ensures Split(s) == [s]
  {
    if s != [] {
      var last := |s| - 1;
      assert s[last] in s;
      NewlineFree(s[..last]);
      assert s[..last] + [s[last]] == s;
    }
  }

  lemma OneLine(line: Bytes)
    requires NEWLINE !in line
    ensures Split(line + [NEWLINE]) == [line, []]
  {
    NewlineFree(line);
    var s := line + [NEWLINE];
    assert s[..|s| - 1] == line;
  }

  /** The bytes up to the first newline are the first line. */
  lemma SplitFirstLine(s: Bytes, k: nat)
    requires k < |s| && s[k] == NEWLINE && NEWLINE !in s[..k]
    ensures Split(s) == [s[..k]] + Split(s[k + 1..])
  {
    assert s[..k + 1] == s[..k] + [NEWLINE];
    OneLineComplete(s[..k]);
    SplitAtLineStart(s, k + 1);
  }

  lemma OneLineComplete(line: Bytes)
    requires NEWLINE !in line
    ensures CompleteLines(line + [NEWLINE]) == [line]
  {
    OneLine(line);
  }

  lemma {:induction false} PartsHaveNoNewline(s: Bytes, i: nat)
    requires i < |Split(s)|
    ensures NEWLINE !in Split(s)[i]
  {
    if s != [] {
      var front := Split(s[..|s| - 1]);
      if i < |front| {
        PartsHaveNoNewline(s[..|s| - 1], i);
      }
    }
  }

  /** The parts with a newline (byte 10) between each two. */
  function Rejoined(parts: seq<Bytes>): Bytes
    requires |parts| >= 1
  {
    if |parts| == 1 then parts[0] else Rejoined(parts[..|parts| - 1]) + [10] + parts[|parts| - 1]
  }

  /** Splitting is what undoes that: the parts hold no newline, and put together again they are the
      file. */
  lemma {:induction false} SplitMeaning(s: Bytes)
    ensures Rejoined(Split(s)) == s && forall i :: 0 <= i < |Split(s)| ==> 10 !in Split(s)[i]
  {
    forall i | 0 <= i < |Split(s)| ensures 10 !in Split(s)[i] {
      PartsHaveNoNewline(s, i);
    }
    if s != [] {
      SplitMeaning(s[..|s| - 1]);
      RejoinPush(Split(s[..|s| - 1]), s[|s| - 1]);
      assert s == s[..|s| - 1] + [s[|s| - 1]];
    }
  }

  lemma RejoinLast(front: seq<Bytes>, last: Bytes)
    requires |front| >= 1
    ensures Rejoined(front + [last]) == Rejoined(front) + [10] + last
  {
    assert (front + [last])[..|front|] == front;
  }

  lemma RejoinPush(parts: seq<Bytes>, b: Byte)
    requires |parts| >= 1
    ensures Rejoined(PushByte(parts, b)) == Rejoined(parts) + [b]
  {
    var n := |parts| - 1;
    if b == NEWLINE {
      RejoinLast(parts, []);
    } else if n > 0 {
      RejoinLast(parts[..n], parts[n] + [b]);
      ConcatAssoc(Rejoined(parts[..n]) + [10], parts[n], [b]);
    }
  }

  lemma SplitEnded(s: Bytes, parts: seq<Bytes>)
    requires Split(s) == parts
    ensures Split(s + [10]) == parts + [[]]
  {
    assert (s + [10])[..|s|] == s;
  }

  lemma SplitOneMore(s: Bytes, parts: seq<Bytes>, last: Bytes)
    requires Split(s) == parts && 10 !in last
    ensures Split(s + [10] + last) == parts + [last]
  {
    SplitEnded(s, parts);
    NewlineFree(last);
    SplitConcat(s + [10], last);
    GlueTerminated(parts + [[]], [last]);
  }

  /** And the only way to do so. */
  lemma {:induction false} SplitIsOnlyWay(parts: seq<Bytes>)
    requires |parts| >= 1 && forall i :: 0 <= i < |parts| ==> 10 !in parts[i]
    ensures Split(Rejoined(parts)) == parts
  {
    var n := |parts| - 1;
    if n > 0 {
      SplitIsOnlyWay(parts[..n]);
      SplitOneMore(Rejoined(parts[..n]), parts[..n], parts[n]);
      assert parts == parts[..n] + [parts[n]];
    } else {
      NewlineFree(parts[0]);
    }
  }

  /** The torn tail is the end of the file, and a newline (or nothing) stands before it. */
  lemma {:induction false} TornTailAtEnd(s: Bytes)
    ensures |TornTail(s)| <= |s| && s[|s| - |TornTail(s)|..] == TornTail(s)
    ensures NEWLINE !in TornTail(s)
    ensures LineStart(s, |s| - |TornTail(s)|)
    ensures CompleteLines(s[..|s| - |TornTail(s)|]) == CompleteLines(s)
  {
    TailStandsAt(s);
    PartsHaveNoNewline(s, |Split(s)| - 1);
    SplitAtLineStart(s, |s| - |TornTail(s)|);
    NewlineFree(TornTail(s));
  }

  lemma {:induction false} TailStandsAt(s: Bytes)
    ensures |TornTail(s)| <= |s| && s[|s| - |TornTail(s)|..] == TornTail(s)
    ensures LineStart(s, |s| - |TornTail(s)|)
  {
    if s != [] && s[|s| - 1] != NEWLINE {
      var front := s[..|s| - 1];
      assert s == front + [s[|s| - 1]];
      TailStandsAt(front);
      TailGrows(front, s[|s| - 1]);
      EndMoves(front, s[|s| - 1], |front| - |TornTail(front)|);
    }
  }

  /** One more byte of an unfinished line. */
  lemma TailGrows(front: Bytes, b: Byte)
    requires b != NEWLINE
    ensures TornTail(front + [b]) == TornTail(front) + [b]
  {
    assert (front + [b])[..|front|] == front;
  }

  lemma EndMoves(front: Bytes, b: Byte, k: nat)
    requires k <= |front|
    ensures (front + [b])[k..] == front[k..] + [b]
    ensures LineStart(front, k) ==> LineStart(front + [b], k)
  {
  }

  /** Bytes taken by lines written with their newlines. */
  function Extent(lines: seq<Bytes>): nat {
    if lines == [] then 0 else Extent(lines[..|lines| - 1]) + |lines[|lines| - 1]| + 1
  }

  lemma {:induction false} ExtentOfFile(s: Bytes)
    ensures Extent(CompleteLines(s)) + |TornTail(s)| == |s|
  {
    if s != [] {
      var last := |s| - 1;
      ExtentOfFile(s[..last]);
      if s[last] == NEWLINE {
        assert CompleteLines(s) == Split(s[..last]);
      } else {
        assert CompleteLines(s) == CompleteLines(s[..last]);
      }
    }
  }

  /** One appended line adds exactly one complete line. */
  lemma AppendLine(s: Bytes, line: Bytes)
    requires Terminated(s) && NEWLINE !in line
    ensures CompleteLines(s + line + [NEWLINE]) == CompleteLines(s) + [line]
    ensures Terminated(s + line + [NEWLINE])
  {
    var n := |Split(s)| - 1;
    NewlineFree(line);
    SplitConcat(s, line);
    GlueTerminated(Split(s), [line]);
    SplitEnded(s + line, CompleteLines(s) + [line]);
  }
}
