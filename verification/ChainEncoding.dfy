/** The bytes one link hashes: a domain tag, then length-prefixed fields. Within one version
    the encoding is injective; across versions the exact overlap is stated. */
module ChainEncoding {
  import opened Basics
  import opened WireModel

  /** The exact fields one link hashes. Version 1 has no reply target. */
  datatype Preimage =
    | V2(prev: Digest, height: nat, tmpID: nat, replyTo: nat, typ: string, time: string,
         display: string, text: string, sig: string)
    | V1(prev: Digest, height: nat, tmpID: nat, typ: string, time: string,
         display: string, text: string, sig: string)

  // ---------------------------------------------------------------- numbers

  /** Base-128 digits, lowest first, all but the last flagged. */
  function Uvarint(n: nat): (r: Bytes)
    ensures r != []
  {
    if n < 128 then [n as Byte] else [(n % 128 + 128) as Byte] + Uvarint(n / 128)
  }

  /** A number reads back from the front of whatever follows it. */
  lemma {:induction false} UvarintSplits(a: nat, x: Bytes, b: nat, y: Bytes)
    requires Uvarint(a) + x == Uvarint(b) + y
    ensures a == b && x == y
    decreases a
  {
    var s := Uvarint(a) + x;
    UvarintFront(a, x);
    UvarintFront(b, y);
    if a >= 128 {
      UvarintSplits(a / 128, x, b / 128, y);
    }
  }

  lemma UvarintFront(n: nat, x: Bytes)
    ensures (Uvarint(n) + x)[0] as int == n % 128 + (if n < 128 then 0 else 128)
    ensures (Uvarint(n) + x)[1..] == if n < 128 then x else Uvarint(n / 128) + x
  {
    if n < 128 {
      FrontOf(n as Byte, [], x);
      assert [] + x == x;
    } else {
      FrontOf((n % 128 + 128) as Byte, Uvarint(n / 128), x);
    }
  }

  lemma FrontOf(b: Byte, rest: Bytes, x: Bytes)
    ensures ([b] + rest + x)[0] == b && ([b] + rest + x)[1..] == rest + x
  {
  }

  /** The lowest n base-256 digits of a number. */
  function Digits(d: nat, n: nat): (r: Bytes)
    ensures |r| == n
  {
    if n == 0 then [] else Digits(d / 256, n - 1) + [(d % 256) as Byte]
  }

  function Pow256(n: nat): nat {
    if n == 0 then 1 else 256 * Pow256(n - 1)
  }

  lemma {:induction false} DigitsTell(a: nat, b: nat, n: nat)
    requires a < Pow256(n) && b < Pow256(n) && Digits(a, n) == Digits(b, n)
    ensures a == b
  {
    if n > 0 {
      var da, db := Digits(a, n), Digits(b, n);
      assert da[..n - 1] == Digits(a / 256, n - 1) && db[..n - 1] == Digits(b / 256, n - 1);
      assert da[n - 1] == db[n - 1];
      DigitsTell(a / 256, b / 256, n - 1);
    }
  }

  lemma DigestFits(d: Digest)
    ensures d < Pow256(32)
  {
    assert Pow256(8) == 0x1_0000_0000_0000_0000;
    assert Pow256(16) == 0x1_0000_0000_0000_0000 * Pow256(8);
    assert Pow256(24) == 0x1_0000_0000_0000_0000 * Pow256(16);
    assert Pow256(32) == 0x1_0000_0000_0000_0000 * Pow256(24);
  }

  // ---------------------------------------------------------------- texts

  /** The bytes of one character in UTF-8 (section 3 of RFC 3629). */
  function Utf8(ch: char): (r: Bytes)
    ensures 1 <= |r| <= 4
  {
    var c := ch as int;
    if c < 0x80 then [c as Byte]
    else if c < 0x800 then [(0xC0 + c / 64) as Byte, (0x80 + c % 64) as Byte]
    else if c < 0x1_0000 then [(0xE0 + c / 4096) as Byte, (0x80 + c / 64 % 64) as Byte, (0x80 + c % 64) as Byte]
    else [(0xF0 + c / 262144) as Byte, (0x80 + c / 4096 % 64) as Byte, (0x80 + c / 64 % 64) as Byte,
          (0x80 + c % 64) as Byte]
  }

  function TextBytes(s: string): Bytes {
    if s == "" then [] else Utf8(s[0]) + TextBytes(s[1..])
  }

  /** How many bytes a text takes; the program's byte caps count these. */
  function ByteSize(s: string): nat {
    |TextBytes(s)|
  }

  lemma {:induction false} TextBytesConcat(s: string, t: string)
    ensures TextBytes(s + t) == TextBytes(s) + TextBytes(t)
  {
    if s == "" {
      assert s + t == t;
    } else {
      assert (s + t)[1..] == s[1..] + t;
      TextBytesConcat(s[1..], t);
    }
  }

  /** A line with its newline takes one byte more. */
  lemma LineByteSize(s: string, line: string)
    ensures ByteSize(s + line + "\n") == ByteSize(s) + ByteSize(line) + 1
  {
    TextBytesConcat(s, line);
    TextBytesConcat(s + line, "\n");
    assert "\n"[1..] == "" && TextBytes("\n") == Utf8('\n') + [];
  }

  /** The first byte tells how many follow. */
  function Utf8Length(first: Byte): nat {
    if first < 0x80 then 1 else if first < 0xE0 then 2 else if first < 0xF0 then 3 else 4
  }

  lemma Utf8LengthIs(ch: char)
    ensures |Utf8(ch)| == Utf8Length(Utf8(ch)[0])
  {
  }

  /** The code point the bytes stand for. */
  function CodePoint(b: Bytes): int
    requires 1 <= |b| <= 4
  {
    if |b| == 1 then b[0] as int
    else if |b| == 2 then (b[0] as int - 0xC0) * 64 + (b[1] as int - 0x80)
    else if |b| == 3 then (b[0] as int - 0xE0) * 4096 + (b[1] as int - 0x80) * 64 + (b[2] as int - 0x80)
    else (b[0] as int - 0xF0) * 262144 + (b[1] as int - 0x80) * 4096 + (b[2] as int - 0x80) * 64 + (b[3] as int - 0x80)
  }

  lemma Utf8Decodes(ch: char)
    ensures CodePoint(Utf8(ch)) == ch as int
  {
    var c := ch as int;
    assert c / 64 == c / 4096 * 64 + c / 64 % 64;
    assert c / 4096 == c / 262144 * 64 + c / 4096 % 64;
  }

  /** One character reads back from the front of whatever follows it. */
  lemma Utf8Splits(a: char, x: Bytes, b: char, y: Bytes)
    requires Utf8(a) + x == Utf8(b) + y
    ensures a == b && x == y
  {
    var s, ua, ub := Utf8(a) + x, Utf8(a), Utf8(b);
    Utf8LengthIs(a);
    Utf8LengthIs(b);
    assert s[0] == ua[0] && s[0] == ub[0];
    SamePrefix(ua, x, ub, y);
    Utf8Decodes(a);
    Utf8Decodes(b);
  }

  lemma SamePrefix(a: Bytes, x: Bytes, b: Bytes, y: Bytes)
    requires a + x == b + y && |a| == |b|
    ensures a == b && x == y
  {
    var s := a + x;
    assert s[..|a|] == a && s[..|a|] == b && s[|a|..] == x && s[|a|..] == y;
  }

  lemma {:induction false} TextTells(s: string, t: string)
    requires TextBytes(s) == TextBytes(t)
    ensures s == t
  {
    if s != "" && t != "" {
      Utf8Splits(s[0], TextBytes(s[1..]), t[0], TextBytes(t[1..]));
      TextTells(s[1..], t[1..]);
      assert s == [s[0]] + s[1..] && t == [t[0]] + t[1..];
    }
  }

  // ---------------------------------------------------------------- fields

  /** A field and its length. */
  function Put(b: Bytes): Bytes {
    Uvarint(|b|) + b
  }

  lemma PutSplits(a: Bytes, x: Bytes, b: Bytes, y: Bytes)
    requires Put(a) + x == Put(b) + y
    ensures a == b && x == y
  {
    ConcatAssoc(Uvarint(|a|), a, x);
    ConcatAssoc(Uvarint(|b|), b, y);
    UvarintSplits(|a|, a + x, |b|, b + y);
    SamePrefix(a, x, b, y);
  }

  /** The tag "V2V-chain-v1" and a zero byte. */
  const DOMAIN: Bytes := [86, 50, 86, 45, 99, 104, 97, 105, 110, 45, 118, 49, 0]

  /** The four text fields both versions end with. */
  function LastFields(p: Preimage): Bytes {
    Put(TextBytes(p.time)) + (Put(TextBytes(p.display)) + (Put(TextBytes(p.text)) + Put(TextBytes(p.sig))))
  }

  function TextFields(p: Preimage): Bytes {
    Put(TextBytes(p.typ)) + LastFields(p)
  }

  /** What follows the numbers both versions start with. */
  function Body(p: Preimage): Bytes {
    match p
    case V2(_, _, _, replyTo, _, _, _, _, _) => Uvarint(replyTo) + TextFields(p)
    case V1(_, _, _, _, _, _, _, _) => TextFields(p)
  }

  /** The bytes the hash is taken of; the version itself is not among them. */
  function Encode(p: Preimage): Bytes {
    DOMAIN + (Put(Digits(p.prev, 32)) + (Uvarint(p.height) + (Uvarint(p.tmpID) + Body(p))))
  }

  lemma EncodeSplits(p: Preimage, q: Preimage)
    ensures Encode(p) == Encode(q) <==>
              p.prev == q.prev && p.height == q.height && p.tmpID == q.tmpID && Body(p) == Body(q)
  {
    if Encode(p) == Encode(q) {
      var ip, iq := Uvarint(p.tmpID) + Body(p), Uvarint(q.tmpID) + Body(q);
      var hp, hq := Uvarint(p.height) + ip, Uvarint(q.height) + iq;
      SamePrefix(DOMAIN, Put(Digits(p.prev, 32)) + hp, DOMAIN, Put(Digits(q.prev, 32)) + hq);
      PutSplits(Digits(p.prev, 32), hp, Digits(q.prev, 32), hq);
      DigestFits(p.prev);
      DigestFits(q.prev);
      DigitsTell(p.prev, q.prev, 32);
      UvarintSplits(p.height, ip, q.height, iq);
      UvarintSplits(p.tmpID, Body(p), q.tmpID, Body(q));
    }
  }

  lemma LastFieldsTell(p: Preimage, q: Preimage)
    requires LastFields(p) == LastFields(q)
    ensures p.time == q.time && p.display == q.display && p.text == q.text && p.sig == q.sig
  {
    var xp, xq := Put(TextBytes(p.text)) + Put(TextBytes(p.sig)), Put(TextBytes(q.text)) + Put(TextBytes(q.sig));
    PutSplits(TextBytes(p.time), Put(TextBytes(p.display)) + xp, TextBytes(q.time), Put(TextBytes(q.display)) + xq);
    PutSplits(TextBytes(p.display), xp, TextBytes(q.display), xq);
    PutSplits(TextBytes(p.text), Put(TextBytes(p.sig)), TextBytes(q.text), Put(TextBytes(q.sig)));
    assert Put(TextBytes(p.sig)) + [] == Put(TextBytes(q.sig)) + [];
    PutSplits(TextBytes(p.sig), [], TextBytes(q.sig), []);
    TextTells(p.time, q.time);
    TextTells(p.display, q.display);
    TextTells(p.text, q.text);
    TextTells(p.sig, q.sig);
  }

  /** Within one version the encoding is injective. */
  lemma {:induction false} SameVersionTells(p: Preimage, q: Preimage)
    requires p.V2? == q.V2? && Encode(p) == Encode(q)
    ensures p == q
  {
    EncodeSplits(p, q);
    if p.V2? {
      UvarintSplits(p.replyTo, TextFields(p), q.replyTo, TextFields(q));
    }
    PutSplits(TextBytes(p.typ), LastFields(p), TextBytes(q.typ), LastFields(q));
    TextTells(p.typ, q.typ);
    LastFieldsTell(p, q);
  }

  /** Across versions two records hash the same bytes exactly when they share start, height
      and sender id, and the reply height of the newer one is the length of the older one's
      type text, which swallows that many bytes of the newer one's fields. */
  lemma {:induction false} CrossVersionOverlap(p: Preimage, q: Preimage)
    requires p.V2? && q.V1?
    ensures Encode(p) == Encode(q) <==>
              && p.prev == q.prev && p.height == q.height && p.tmpID == q.tmpID
              && p.replyTo == |TextBytes(q.typ)|
              && TextFields(p) == TextBytes(q.typ) + LastFields(q)
  {
    EncodeSplits(p, q);
    var t, rest := TextBytes(q.typ), LastFields(q);
    ConcatAssoc(Uvarint(|t|), t, rest);
    if Body(p) == Body(q) {
      UvarintSplits(p.replyTo, TextFields(p), |t|, t + rest);
    }
  }

  /** One such pair, for every chain position and message: a reply to height 5 of type "chat",
      and an older record whose type text starts with the length byte 4. */
  lemma {:induction false} OneEncodingTwoVersions(prev: Digest, height: nat, tmpID: nat, time: string, display: string,
                                                  text: string, sig: string)
    ensures Encode(V2(prev, height, tmpID, 5, "chat", time, display, text, sig))
         == Encode(V1(prev, height, tmpID, "\U{4}chat", time, display, text, sig))
  {
    var p, q := V2(prev, height, tmpID, 5, "chat", time, display, text, sig),
        V1(prev, height, tmpID, "\U{4}chat", time, display, text, sig);
    CrossVersionOverlap(p, q);
    ChatBytes();
    var t: Bytes := [4, 99, 104, 97, 116];
    assert Put(TextBytes("chat")) == t;
  }

  lemma {:induction false} ChatBytes()
    ensures TextBytes("chat") == [99, 104, 97, 116] && TextBytes("\U{4}chat") == [4, 99, 104, 97, 116]
    ensures TextBytes("system")[..1] == [115] && |TextBytes("system")| == 6
  {
    assert "chat"[1..] == "hat" && "hat"[1..] == "at" && "at"[1..] == "t" && "t"[1..] == "";
    assert "\U{4}chat"[1..] == "chat";
    assert "system"[1..] == "ystem" && "ystem"[1..] == "stem" && "stem"[1..] == "tem" && "tem"[1..] == "em"
           && "em"[1..] == "m" && "m"[1..] == "";
  }

  /** The types the program ever links. */
  predicate LinkedType(t: string) {
    t == "chat" || t == "system"
  }

  /** The newer record's type has its length byte first, the older one's its first letter. */
  lemma FirstBytes(v2: Preimage, v1: Preimage)
    requires LinkedType(v2.typ) && LinkedType(v1.typ)
    ensures TextFields(v2) != TextBytes(v1.typ) + LastFields(v1)
  {
    ChatBytes();
    assert TextFields(v2)[0] == Uvarint(|TextBytes(v2.typ)|)[0];
    assert TextBytes("system")[0] == TextBytes("system")[..1][0];
    assert (TextBytes(v1.typ) + LastFields(v1))[0] == TextBytes(v1.typ)[0];
  }

  /** Records of those types never share their bytes across versions. */
  lemma {:induction false} LinkedTypesApart(p: Preimage, q: Preimage)
    requires LinkedType(p.typ) && LinkedType(q.typ) && Encode(p) == Encode(q)
    ensures p == q
  {
    if p.V2? == q.V2? {
      SameVersionTells(p, q);
    } else {
      var v2, v1 := if p.V2? then p else q, if p.V2? then q else p;
      CrossVersionOverlap(v2, v1);
      ChatBytes();
      FirstBytes(v2, v1);
    }
  }
}
