/** What a JSON text with comments is made of, said without a scanner, and what stripping does to
    each part: every text divides into such parts, so this says what is left of any text. */
module JsonGrammar {
  import opened Basics
  import opened JsonComments

  /** A byte outside literals, a string literal, a line comment without its newline, a block
      comment; or, at the very end, a literal or block comment that was never closed. */
  datatype Part =
    | Plain(b: Byte)
    | Literal(body: Bytes)
    | Line(body: Bytes)
    | Block(body: Bytes)
    | OpenLiteral(body: Bytes)
    | OpenBlock(body: Bytes)
  {
    /** The part as it stands in the text: quote 34, slash 47, star 42. */
    function Text(): Bytes {
      match this
      case Plain(b) => [b]
      case Literal(body) => [34] + (body + [34])
      case Line(body) => [47, 47] + body
      case Block(body) => [47, 42] + (body + [42, 47])
      case OpenLiteral(body) => [34] + body
      case OpenBlock(body) => [47, 42] + body
    }

    predicate Comment() {
      Line? || Block? || OpenBlock?
    }

    predicate Open() {
      OpenLiteral? || OpenBlock?
    }

    /** Literals hold escaped pairs and other bytes but quotes, line comments no newline (10), block
        comments no star followed by a slash. */
    predicate Proper() {
      match this
      case Plain(b) => b != 34
      case Literal(body) => Units(body)
      case Line(body) => 10 !in body
      case Block(body) => NoEnd(body)
      case OpenLiteral(body) => Units(body) || (body != [] && body[|body| - 1] == 92 && Units(body[..|body| - 1]))
      case OpenBlock(body) => NoEnd(body)
    }
  }

  /** Pairs of a backslash (92) and any byte, and bytes that are neither backslash nor quote. */
  predicate Units(s: Bytes) {
    if s == [] then true
    else if s[0] == 92 then |s| > 1 && Units(s[2..])
    else s[0] != 34 && Units(s[1..])
  }

  predicate NoEnd(s: Bytes) {
    forall i :: 0 <= i < |s| - 1 ==> !(s[i] == 42 && s[i + 1] == 47)
  }

  function TextOf(parts: seq<Part>): Bytes {
    if parts == [] then [] else parts[0].Text() + TextOf(parts[1..])
  }

  /** The text without its comments. */
  function KeptOf(parts: seq<Part>): Bytes {
    if parts == [] then []
    else (if parts[0].Comment() then [] else parts[0].Text()) + KeptOf(parts[1..])
  }

  /** Parts that stand next to each other as parts: only the last is open, a line comment ends at a
      newline or the end, and a slash that is no comment is not followed by what makes it one. */
  predicate Divides(parts: seq<Part>) {
    parts == [] ||
    (&& parts[0].Proper() && Divides(parts[1..])
     && (parts[0].Open() ==> |parts| == 1)
     && (parts[0].Line? ==> |parts| == 1 || parts[1] == Plain(10))
     && (parts[0] == Plain(47) && |parts| > 1 ==> parts[1].Text()[0] !in {47, 42}))
  }

  // ---------------------------------------------------------------- what is left

  lemma ByteStays(b: Byte, m: Mode, x: Bytes)
    requires !m.Code?
    ensures Strip([b] + x, m) == [b] + Strip(x, Next(m, b))
  {
    assert ([b] + x)[1..] == x;
  }

  lemma {:induction false} LiteralStays(body: Bytes, x: Bytes)
    requires Units(body)
    ensures Strip(body + x, Str) == body + Strip(x, Str)
    decreases |body|
  {
    if body == [] {
      assert body + x == x;
    } else if body[0] == 92 {
      LiteralStays(body[2..], x);
      PairStays(body[1], body[2..] + x);
      Regroup([92, body[1]], body, 2, x, Strip(x, Str));
    } else {
      LiteralStays(body[1..], x);
      ByteStays(body[0], Str, body[1..] + x);
      Regroup([body[0]], body, 1, x, Strip(x, Str));
    }
  }

  lemma Regroup(front: Bytes, body: Bytes, n: nat, x: Bytes, y: Bytes)
    requires n <= |body| && front == body[..n]
    ensures body + x == front + (body[n..] + x) && body + y == front + (body[n..] + y)
  {
    assert body == front + body[n..];
    ConcatAssoc(front, body[n..], x);
    ConcatAssoc(front, body[n..], y);
  }

  lemma PairStays(b: Byte, x: Bytes)
    ensures Strip([92, b] + x, Str) == [92, b] + Strip(x, Str)
  {
    ByteStays(92, Str, [b] + x);
    ByteStays(b, Escaped, x);
    assert [92, b] + x == [92] + ([b] + x);
    assert [92, b] + Strip(x, Str) == [92] + ([b] + Strip(x, Str));
  }

  lemma ClosedLiteral(body: Bytes, x: Bytes)
    requires Units(body)
    ensures Strip([34] + (body + [34]) + x, Code) == [34] + (body + [34]) + Strip(x, Code)
  {
    var s := [34] + (body + [34]) + x;
    assert s[1..] == body + ([34] + x);
    LiteralStays(body, [34] + x);
    assert ([34] + x)[1..] == x;
    assert Strip([34] + x, Str) == [34] + Strip(x, Code);
  }

  lemma EndlessLiteral(p: Part)
    requires p.OpenLiteral? && p.Proper()
    ensures Strip(p.Text(), Code) == p.Text()
  {
    var body := p.body;
    assert p.Text()[1..] == body;
    if Units(body) {
      LiteralStays(body, []);
      assert body + [] == body;
    } else {
      var n := |body| - 1;
      LiteralStays(body[..n], [92]);
      assert Strip([92], Str) == [92];
      assert body == body[..n] + [92];
    }
  }

  lemma {:induction false} EndlessBlock(body: Bytes)
    requires NoEnd(body)
    ensures AfterBlock(body) == []
  {
    if |body| >= 2 {
      EndlessBlock(body[1..]);
    }
  }

  lemma LineGoes(body: Bytes, x: Bytes)
    requires 10 !in body && (x == [] || x[0] == 10)
    ensures Strip([47, 47] + body + x, Code) == Strip(x, Code)
  {
    LineSkipped([47, 47] + body, x);
  }

  lemma BlockGoes(s: Bytes, rest: Bytes, x: Bytes)
    requires s == [47, 42] + rest && AfterBlock(rest) == x
    ensures Strip(s, Code) == Strip(x, Code)
  {
    assert s[2..] == rest;
  }

  lemma ClosedBlockGoes(body: Bytes, x: Bytes)
    requires NoEnd(body)
    ensures Strip([47, 42] + (body + [42, 47]) + x, Code) == Strip(x, Code)
  {
    var rest := body + [42, 47] + x;
    assert [47, 42] + (body + [42, 47]) + x == [47, 42] + rest;
    BlockSkipped(body, x);
    BlockGoes([47, 42] + rest, rest, x);
  }

  lemma OpenBlockGoes(body: Bytes)
    requires NoEnd(body)
    ensures Strip([47, 42] + body + [], Code) == Strip([], Code)
  {
    EndlessBlock(body);
    assert [47, 42] + body + [] == [47, 42] + body;
    BlockGoes([47, 42] + body, body, []);
  }

  lemma CommentGoes(p: Part, x: Bytes)
    requires p.Proper() && p.Comment() && (p.Line? ==> x == [] || x[0] == 10) && (p.OpenBlock? ==> x == [])
    ensures Strip(p.Text() + x, Code) == Strip(x, Code)
  {
    match p
    case Line(body) => LineGoes(body, x);
    case Block(body) => ClosedBlockGoes(body, x);
    case OpenBlock(body) => OpenBlockGoes(body);
  }

  lemma PlainStays(b: Byte, x: Bytes)
    requires b != 34 && (b == 47 && x != [] ==> x[0] !in {47, 42})
    ensures Strip([b] + x, Code) == [b] + Strip(x, Code)
  {
    assert ([b] + x)[1..] == x;
  }

  /** Stripping leaves the parts that are no comments, in order and byte for byte. */
  lemma {:induction false} StripKeepsParts(parts: seq<Part>)
    requires Divides(parts)
    ensures Strip(TextOf(parts), Code) == KeptOf(parts)
  {
    if parts != [] {
      var p, x := parts[0], TextOf(parts[1..]);
      StripKeepsParts(parts[1..]);
      if p.Comment() {
        CommentGoes(p, x);
      } else {
        match p
        case Plain(b) => PlainStays(b, x);
        case Literal(body) => ClosedLiteral(body, x);
        case OpenLiteral(body) =>
          EndlessLiteral(p);
          assert p.Text() + [] == p.Text();
      }
    }
  }

  // ---------------------------------------------------------------- every text divides

  /** Everything up to the quote that ends a literal, if one does. */
  lemma {:induction false} LiteralEnds(s: Bytes) returns (body: Bytes, closed: bool, rest: Bytes)
    ensures closed ==> Units(body) && s == body + [34] + rest
    ensures !closed ==> s == body && rest == [] && OpenLiteral(body).Proper()
    decreases |s|
  {
    if s == [] {
      body, closed, rest := [], false, [];
    } else if s[0] == 34 {
      body, closed, rest := [], true, s[1..];
    } else if s == [92] {
      body, closed, rest := s, false, [];
      assert s[..0] == [];
    } else {
      var n := if s[0] == 92 then 2 else 1;
      var tail;
      tail, closed, rest := LiteralEnds(s[n..]);
      body := s[..n] + tail;
      assert body[n..] == tail;
      assert s == s[..n] + s[n..];
      if !closed && !Units(tail) {
        assert body[..|body| - 1][n..] == tail[..|tail| - 1];
      }
    }
  }

  lemma {:induction false} LineEnds(s: Bytes) returns (body: Bytes, rest: Bytes)
    ensures s == body + rest && 10 !in body && (rest == [] || rest[0] == 10)
  {
    if s == [] || s[0] == 10 {
      body, rest := [], s;
    } else {
      var tail;
      tail, rest := LineEnds(s[1..]);
      body := [s[0]] + tail;
    }
  }

  lemma {:induction false} BlockEnds(s: Bytes) returns (body: Bytes, closed: bool, rest: Bytes)
    ensures NoEnd(body)
    ensures closed ==> s == body + [42, 47] + rest
    ensures !closed ==> s == body && rest == []
  {
    if |s| < 2 {
      body, closed, rest := s, false, [];
    } else if s[0] == 42 && s[1] == 47 {
      body, closed, rest := [], true, s[2..];
    } else {
      var tail;
      tail, closed, rest := BlockEnds(s[1..]);
      body := [s[0]] + tail;
      assert s == [s[0]] + s[1..];
    }
  }

  /** The first part of a text, and what follows it. */
  lemma FirstPart(s: Bytes) returns (p: Part, rest: Bytes)
    requires s != []
    ensures p.Proper() && s == p.Text() + rest && (p.Open() ==> rest == []) && (p.Line? ==> rest == [] || rest[0] == 10)
    ensures p == Plain(47) && rest != [] ==> rest[0] !in {47, 42}
    ensures |rest| < |s|
  {
    var body, closed;
    if s[0] == 34 {
      FirstBytes(s, 1);
      body, closed, rest := LiteralEnds(s[1..]);
      p := if closed then Literal(body) else OpenLiteral(body);
      ConcatAssoc([34], if closed then body + [34] else body, rest);
    } else if |s| > 1 && s[0] == 47 && s[1] == 47 {
      FirstBytes(s, 2);
      body, rest := LineEnds(s[2..]);
      p := Line(body);
      ConcatAssoc([47, 47], body, rest);
    } else if |s| > 1 && s[0] == 47 && s[1] == 42 {
      FirstBytes(s, 2);
      body, closed, rest := BlockEnds(s[2..]);
      p := if closed then Block(body) else OpenBlock(body);
      ConcatAssoc([47, 42], if closed then body + [42, 47] else body, rest);
    } else {
      FirstBytes(s, 1);
      p, rest := Plain(s[0]), s[1..];
    }
  }

  lemma FirstBytes(s: Bytes, n: nat)
    requires 1 <= n <= 2 && n <= |s|
    ensures s == (if n == 1 then [s[0]] else [s[0], s[1]]) + s[n..]
  {
  }

  /** Every byte string divides into parts, so what stripping leaves of it is settled. */
  lemma {:induction false} EveryTextDivides(s: Bytes) returns (parts: seq<Part>)
    ensures Divides(parts) && TextOf(parts) == s && Strip(s, Code) == KeptOf(parts)
    decreases |s|
  {
    if s == [] {
      parts := [];
    } else {
      var p, rest := FirstPart(s);
      var more := EveryTextDivides(rest);
      parts := [p] + more;
      assert parts[1..] == more;
      FirstOfNext(more);
      StripKeepsParts(parts);
    }
  }

  /** A text starts as its first part does, and only a newline starts with one. */
  lemma FirstOfNext(parts: seq<Part>)
    requires Divides(parts)
    ensures (parts == []) == (TextOf(parts) == [])
    ensures parts != [] ==> parts[0].Text() != [] && TextOf(parts)[0] == parts[0].Text()[0]
    ensures parts != [] && TextOf(parts)[0] == 10 ==> parts[0] == Plain(10)
  {
  }
}
