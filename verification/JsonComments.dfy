/** Stripping comments from JSON with comments: line and block comments outside string
    literals go, everything else stays byte for byte. */
module JsonComments {
  import opened Basics

  const QUOTE: Byte := 34
  const STAR: Byte := 42
  const SLASH: Byte := 47
  const BACKSLASH: Byte := 92
  const LF: Byte := 10

  /** Where the scanner stands: outside strings, inside one, or just after a backslash. */
  datatype Mode = Code | Str | Escaped

  predicate LineComment(s: Bytes) {
    |s| > 1 && s[0] == SLASH && s[1] == SLASH
  }

  predicate BlockComment(s: Bytes) {
    |s| > 1 && s[0] == SLASH && s[1] == STAR
  }

  predicate BlockEnd(s: Bytes) {
    |s| > 1 && s[0] == STAR && s[1] == SLASH
  }

  /** What follows a line comment: its newline stays. */
  function AfterLine(s: Bytes): (r: Bytes)
    ensures |r| <= |s|
  {
    if s == [] || s[0] == LF then s else AfterLine(s[1..])
  }

  /** What follows the end of a block comment; nothing follows an unterminated one. */
  function AfterBlock(s: Bytes): (r: Bytes)
    ensures |r| <= |s|
  {
    if |s| < 2 then [] else if BlockEnd(s) then s[2..] else AfterBlock(s[1..])
  }

  /** The scanner's next mode after a byte that stays. */
  function Next(m: Mode, b: Byte): Mode {
    match m
    case Escaped => Str
    case Str => if b == BACKSLASH then Escaped else if b == QUOTE then Code else Str
    case Code => if b == QUOTE then Str else Code
  }

  function Strip(s: Bytes, m: Mode): (r: Bytes)
    decreases |s|
  {
    if s == [] then []
    else if m.Code? && LineComment(s) then
      assert AfterLine(s) == AfterLine(s[1..]);
      Strip(AfterLine(s), Code)
    else if m.Code? && BlockComment(s) then Strip(AfterBlock(s[2..]), Code)
    else [s[0]] + Strip(s[1..], Next(m, s[0]))
  }

  /** The rest of the data from an index that may have run past its end. */
  function From(data: Bytes, i: nat): Bytes {
    if i <= |data| then data[i..] else []
  }

  /** What is still to come, seen from an index and a mode. */
  predicate Stripping(data: Bytes, i: nat, m: Mode, out: Bytes) {
    Strip(data, Code) == out + Strip(From(data, i), m)
  }

  lemma EmitOne(data: Bytes, i: nat, m: Mode, out: Bytes)
    requires i < |data| && Stripping(data, i, m, out)
    requires !(m.Code? && (LineComment(data[i..]) || BlockComment(data[i..])))
    ensures Stripping(data, i + 1, Next(m, data[i]), out + [data[i]])
  {
    var rest := Strip(data[i + 1..], Next(m, data[i]));
    assert data[i..][1..] == data[i + 1..];
    assert Strip(data[i..], m) == [data[i]] + rest;
    ConcatAssoc(out, [data[i]], rest);
  }

  lemma DropComment(data: Bytes, i: nat, j: nat, out: Bytes)
    requires i < |data| && Stripping(data, i, Code, out)
    requires LineComment(data[i..]) ==> From(data, j) == AfterLine(data[i..])
    requires BlockComment(data[i..]) ==> From(data, j) == AfterBlock(data[i..][2..])
    requires LineComment(data[i..]) || BlockComment(data[i..])
    ensures Stripping(data, j, Code, out)
  {
  }

  method StripJsonComments(data: Bytes) returns (out: Bytes)
    ensures out == Strip(data, Code)
  {
    if |data| == 0 {
      return data;
    }
    out := [];
    var inString, escaped := false, false;
    var i := 0;
    while i < |data|
      invariant escaped ==> inString
      invariant Stripping(data, i, if escaped then Escaped else if inString then Str else Code, out)
      decreases |data| - i
    {
      var c := data[i];
      if inString {
        EmitOne(data, i, if escaped then Escaped else Str, out);
        out := out + [c];
        if escaped {
          escaped := false;
        } else if c == BACKSLASH {
          escaped := true;
        } else if c == QUOTE {
          inString := false;
        }
        i := i + 1;
        continue;
      }
      if c == SLASH && i + 1 < |data| && (data[i + 1] == SLASH || data[i + 1] == STAR) {
        i := SkipComment(data, i, out);
        continue;
      }
      EmitOne(data, i, Code, out);
      if c == QUOTE {
        inString := true;
      }
      out := out + [c];
      i := i + 1;
    }
  }

  method SkipComment(data: Bytes, from: nat, ghost out: Bytes) returns (i: nat)
    requires from + 1 < |data| && data[from] == SLASH && (data[from + 1] == SLASH || data[from + 1] == STAR)
    requires Stripping(data, from, Code, out)
    ensures from < i && Stripping(data, i, Code, out)
  {
    assert data[from..][2..] == data[from + 2..];
    if data[from + 1] == SLASH {
      i := SkipLine(data, from);
    } else {
      i := SkipBlock(data, from + 2);
    }
    DropComment(data, from, i, out);
  }

  method SkipLine(data: Bytes, from: nat) returns (i: nat)
    requires from + 1 < |data| && data[from] == SLASH
    ensures from < i <= |data| && data[i..] == AfterLine(data[from..])
  {
    i := from;
    while i < |data| && data[i] != LF
      invariant from <= i <= |data| && AfterLine(data[i..]) == AfterLine(data[from..])
    {
      assert data[i..][1..] == data[i + 1..];
      i := i + 1;
    }
  }

  method SkipBlock(data: Bytes, from: nat) returns (i: nat)
    requires from <= |data|
    ensures from < i && From(data, i) == AfterBlock(data[from..])
  {
    i := from;
    while i + 1 < |data| && !(data[i] == STAR && data[i + 1] == SLASH)
      invariant from <= i <= |data| && AfterBlock(data[i..]) == AfterBlock(data[from..])
    {
      assert data[i..][1..] == data[i + 1..];
      i := i + 1;
    }
    if i + 1 < |data| {
      assert data[i..][2..] == data[i + 2..];
    }
    i := i + 2;
  }

  // ---------------------------------------------------------------- what stripping leaves

  /** No comment starts outside a string. */
  predicate CommentFree(s: Bytes, m: Mode) {
    s == [] || (!(m.Code? && (LineComment(s) || BlockComment(s))) && CommentFree(s[1..], Next(m, s[0])))
  }

  lemma {:induction false} StripShrinks(s: Bytes, m: Mode)
    ensures |Strip(s, m)| <= |s|
    ensures !CommentFree(s, m) ==> |Strip(s, m)| < |s|
    decreases |s|
  {
    if s != [] {
      if m.Code? && LineComment(s) {
        assert AfterLine(s) == AfterLine(s[1..]);
        StripShrinks(AfterLine(s), Code);
      } else if m.Code? && BlockComment(s) {
        StripShrinks(AfterBlock(s[2..]), Code);
      } else {
        StripShrinks(s[1..], Next(m, s[0]));
      }
    }
  }

  lemma {:induction false} CommentFreeStays(s: Bytes, m: Mode)
    requires CommentFree(s, m)
    ensures Strip(s, m) == s
  {
    if s != [] {
      CommentFreeStays(s[1..], Next(m, s[0]));
    }
  }

  /** Stripping is the identity exactly on text with no comment outside strings. */
  lemma {:induction false} StripIsIdentityIff(s: Bytes, m: Mode)
    ensures Strip(s, m) == s <==> CommentFree(s, m)
  {
    StripShrinks(s, m);
    if CommentFree(s, m) {
      CommentFreeStays(s, m);
    }
  }

  /** An emitted slash is followed by the byte that followed it: no comment is ever made by
      closing the gap a comment left. */
  lemma {:induction false} StrippedIsCommentFree(s: Bytes, m: Mode)
    ensures CommentFree(Strip(s, m), m)
    decreases |s|
  {
    if s != [] {
      if m.Code? && LineComment(s) {
        assert AfterLine(s) == AfterLine(s[1..]);
        StrippedIsCommentFree(AfterLine(s), Code);
      } else if m.Code? && BlockComment(s) {
        StrippedIsCommentFree(AfterBlock(s[2..]), Code);
      } else {
        var rest := Strip(s[1..], Next(m, s[0]));
        StrippedIsCommentFree(s[1..], Next(m, s[0]));
        assert Strip(s, m) == [s[0]] + rest && ([s[0]] + rest)[1..] == rest;
        if m.Code? && s[0] == SLASH && |s| > 1 {
          assert s[1] != SLASH && s[1] != STAR;
          assert !LineComment(s[1..]) && !BlockComment(s[1..]);
          assert rest[0] == s[1];
        }
      }
    }
  }

  /** Stripping twice is stripping once, on every byte string. */
  lemma {:induction false} StripIsIdempotent(s: Bytes)
    ensures Strip(Strip(s, Code), Code) == Strip(s, Code)
  {
    StrippedIsCommentFree(s, Code);
    CommentFreeStays(Strip(s, Code), Code);
  }

  // ---------------------------------------------------------------- string literals

  /** The string literals of a text outside its comments, in order, quotes and escapes
      included; `cur` is the part of the current one already read. */
  function Literals(s: Bytes, m: Mode, cur: Bytes): seq<Bytes>
    decreases |s|
  {
    if s == [] then (if m.Code? then [] else [cur])
    else if m.Code? && LineComment(s) then
      assert AfterLine(s) == AfterLine(s[1..]);
      Literals(AfterLine(s), Code, [])
    else if m.Code? && BlockComment(s) then Literals(AfterBlock(s[2..]), Code, [])
    else
      var m' := Next(m, s[0]);
      if m.Code? then Literals(s[1..], m', if m'.Str? then [s[0]] else [])
      else if m'.Code? then [cur + [s[0]]] + Literals(s[1..], Code, [])
      else Literals(s[1..], m', cur + [s[0]])
  }

  /** Every string literal survives byte for byte, and none is added. */
  lemma {:induction false} LiteralsSurvive(s: Bytes, m: Mode, cur: Bytes)
    ensures Literals(Strip(s, m), m, cur) == Literals(s, m, cur)
    decreases |s|
  {
    if s != [] {
      if m.Code? && LineComment(s) {
        assert AfterLine(s) == AfterLine(s[1..]);
        LiteralsSurvive(AfterLine(s), Code, []);
        CodeIgnoresCur(Strip(s, m), cur);
      } else if m.Code? && BlockComment(s) {
        LiteralsSurvive(AfterBlock(s[2..]), Code, []);
        CodeIgnoresCur(Strip(s, m), cur);
      } else {
        var m', rest := Next(m, s[0]), Strip(s[1..], Next(m, s[0]));
        StrippedIsCommentFree(s, m);
        assert Strip(s, m) == [s[0]] + rest && ([s[0]] + rest)[1..] == rest;
        LiteralsSurvive(s[1..], m', if m.Code? then (if m'.Str? then [s[0]] else []) else if m'.Code? then []
                        else cur + [s[0]]);
      }
    }
  }

  lemma CodeIgnoresCur(s: Bytes, cur: Bytes)
    ensures Literals(s, Code, cur) == Literals(s, Code, [])
  {
  }

  // ---------------------------------------------------------------- comments vanish

  function EndMode(s: Bytes, m: Mode): Mode {
    if s == [] then m else EndMode(s[1..], Next(m, s[0]))
  }

  /** Text a comment may follow: no comment of its own, ended outside strings, not by a slash. */
  predicate Closed(a: Bytes, m: Mode) {
    CommentFree(a, m) && EndMode(a, m).Code? && (a == [] || a[|a| - 1] != SLASH)
  }

  lemma {:induction false} StripAfter(a: Bytes, m: Mode, x: Bytes)
    requires Closed(a, m)
    ensures Strip(a + x, m) == a + Strip(x, Code)
    decreases |a|
  {
    if a == [] {
      assert a + x == x;
    } else {
      assert (a + x)[1..] == a[1..] + x;
      StripAfter(a[1..], Next(m, a[0]), x);
    }
  }

  lemma {:induction false} LineSkipped(c: Bytes, b: Bytes)
    requires LF !in c && (b == [] || b[0] == LF)
    ensures AfterLine(c + b) == b
  {
    if c == [] {
      assert c + b == b;
    } else {
      assert (c + b)[1..] == c[1..] + b;
      LineSkipped(c[1..], b);
    }
  }

  lemma {:induction false} BlockSkipped(c: Bytes, b: Bytes)
    requires forall i :: 0 <= i < |c| ==> !BlockEnd(c[i..])
    ensures AfterBlock(c + [STAR, SLASH] + b) == b
  {
    var s := c + [STAR, SLASH] + b;
    if c == [] {
      assert s[2..] == b;
    } else {
      assert s[1..] == c[1..] + [STAR, SLASH] + b;
      assert !BlockEnd(c[0..]) && c[0..] == c;
      forall i | 0 <= i < |c[1..]| ensures !BlockEnd(c[1..][i..]) {
        assert c[1..][i..] == c[i + 1..];
      }
      BlockSkipped(c[1..], b);
    }
  }

  /** A line comment after closed text vanishes, its newline stays; a block comment vanishes
      whole. */
  lemma {:induction false} CommentsVanish(a: Bytes, c: Bytes, b: Bytes)
    requires Closed(a, Code)
    ensures LF !in c && (b == [] || b[0] == LF) ==>
              Strip(a + ([SLASH, SLASH] + c + b), Code) == a + Strip(b, Code)
    ensures (forall i :: 0 <= i < |c| ==> !BlockEnd(c[i..])) ==>
              Strip(a + ([SLASH, STAR] + (c + [STAR, SLASH] + b)), Code) == a + Strip(b, Code)
  {
    var line, block := [SLASH, SLASH] + c + b, [SLASH, STAR] + (c + [STAR, SLASH] + b);
    StripAfter(a, Code, line);
    StripAfter(a, Code, block);
    if LF !in c && (b == [] || b[0] == LF) {
      LineSkipped([SLASH, SLASH] + c, b);
    }
    if forall i :: 0 <= i < |c| ==> !BlockEnd(c[i..]) {
      BlockSkipped(c, b);
      assert block[2..] == c + [STAR, SLASH] + b;
    }
  }
}
