/** Messages, disk records, and the encodings between them. JSON itself is not
    modelled: its functions are parameters, bundled as a Codec with two laws. */
module WireModel {
  import opened Basics
  import opened Lines

  /** A 32-byte digest, read as a number; the zero digest is 0. */
  type Digest = d: nat
    | d < 0x1_0000_0000_0000_0000_0000_0000_0000_0000_0000_0000_0000_0000_0000_0000_0000_0000
    witness 0

  /** A hex digest field of a wire: empty, not 64 hex digits, or well formed. */
  datatype HashField = Absent | Malformed | Hex(digest: Digest) {
    function Parse(): Option<Digest> {
      if Hex? then Some(digest) else None
    }
  }

  datatype Wire = Wire(
    typ: string, time: string, display: string, text: string, tags: seq<string>,
    tripSig: string, tmpID: nat, replyTo: nat,
    prev: HashField, hash: HashField, height: nat, ver: nat,
    seqno: nat, sentAt: string)

  /** One disk record: a wire, or the plain text of a message older than wires. */
  datatype Record = Record(seqno: nat, ts: string, message: string, wire: Option<Wire>)

  const EMPTY_RECORD := Record(0, "", "", None)

  function SystemWire(text: string, seqno: nat): Wire {
    Wire("system", "", "", text, [], "", 0, 0, Absent, Absent, 0, 0, seqno, "")
  }

  datatype Codec = Codec(
    parse: Bytes -> Record,
    encode: Record -> Bytes,
    marshal: Wire -> string,
    unmarshal: string -> Option<Wire>)
  {
    /** Decoding undoes encoding, and encoded records hold no newline. */
    ghost predicate Laws() {
      && (forall w :: unmarshal(marshal(w)) == Some(w))
      && (forall r :: parse(encode(r)) == r)
      && (forall r :: NEWLINE !in encode(r))
    }

    /** The chained height a stored text line carries, 0 for none. */
    function TextHeight(text: string): nat {
      match unmarshal(text)
      case Some(w) => w.height
      case None => 0
    }

    /** A disk record in the text form RAM history uses. */
    function RecordLine(rec: Record): Option<string> {
      if rec.wire.Some? then Some(marshal(rec.wire.value))
      else if rec.message == "" then None
      else if rec.seqno == 0 then Some(rec.message)
      else Some(marshal(SystemWire(rec.message, rec.seqno)))
    }

    function LineText(line: Bytes): Option<string> {
      if line == [] then None else RecordLine(parse(line))
    }

    function LineHeight(line: Bytes): nat {
      if line == [] then 0
      else match parse(line).wire
           case Some(w) => w.height
           case None => 0
    }

    /** Plain legacy text is not itself the JSON of a chained wire. */
    ghost predicate PlainLegacy(line: Bytes) {
      parse(line).wire.None? && parse(line).seqno == 0 ==> TextHeight(parse(line).message) == 0
    }

    /** A rendered line carries the height of the record it came from. */
    lemma {:induction false} RenderKeepsHeight(line: Bytes)
      requires Laws() && PlainLegacy(line)
      ensures match LineText(line)
              case Some(t) => TextHeight(t) == LineHeight(line)
              case None => LineHeight(line) == 0
    {
      var rec := parse(line);
      if rec.wire.None? {
        assert unmarshal(marshal(SystemWire(rec.message, rec.seqno))) == Some(SystemWire(rec.message, rec.seqno));
      }
    }

    /** A stored wire is shown as it was sent, and counts at its own height. */
    lemma {:induction false} StoredWireShows(line: Bytes, seqno: nat, ts: string, message: string, w: Wire)
      requires Laws() && line == encode(Record(seqno, ts, message, Some(w))) && line != []
      ensures LineText(line) == Some(marshal(w)) && LineHeight(line) == w.height
    {
      assert parse(line) == Record(seqno, ts, message, Some(w));
    }

    /** A plain line from before wires is shown as it is; once numbered, as a notice of that
        number; an empty one not at all. */
    lemma {:induction false} StoredPlainShows(line: Bytes, seqno: nat, ts: string, message: string)
      requires Laws() && line == encode(Record(seqno, ts, message, None)) && line != []
      ensures LineHeight(line) == 0
      ensures message == "" ==> LineText(line) == None
      ensures message != "" && seqno == 0 ==> LineText(line) == Some(message)
      ensures message != "" && seqno != 0 ==>
                LineText(line) == Some(marshal(
                  Wire("system", "", "", message, [], "", 0, 0, Absent, Absent, 0, 0, seqno, "")))
    {
      assert parse(line) == Record(seqno, ts, message, None);
    }

    /** The renderable lines, as text. */
    function Texts(lines: seq<Bytes>): seq<string> {
      if lines == [] then []
      else
        var front := Texts(lines[..|lines| - 1]);
        match LineText(lines[|lines| - 1])
        case Some(t) => front + [t]
        case None => front
    }

    lemma {:induction false} TextsConcat(a: seq<Bytes>, b: seq<Bytes>)
      ensures Texts(a + b) == Texts(a) + Texts(b)
    {
      if b == [] {
        assert a + b == a;
      } else {
        assert (a + b)[..|a + b| - 1] == a + b[..|b| - 1];
        TextsConcat(a, b[..|b| - 1]);
      }
    }

    lemma {:induction false} TextsSkipEmpty(lines: seq<Bytes>)
      ensures Texts([[]] + lines) == Texts(lines) == Texts(lines + [[]])
    {
      TextsConcat([[]], lines);
    }
  }
}
