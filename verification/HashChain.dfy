/** The hash chain: every chained wire commits to the one before it. The hash is a
    parameter; nothing is assumed of it unless a lemma says so. */
module HashChain {
  import opened Basics
  import opened WireModel
  import opened ChainEncoding

  /** Hashing: of one link, of bytes, and the two starting digests. */
  datatype Hasher = Hasher(link: Preimage -> Digest, sum: Bytes -> Digest, genesis: Digest, anchor: string -> Digest) {
    /** A link hash is the hash of the encoded fields. */
    ghost predicate OverBytes() {
      forall p :: link(p) == sum(Encode(p))
    }
  }

  const CHAIN_VERSION := 2

  function PreimageOf(w: Wire, prev: Digest): Preimage {
    if w.ver >= 2
    then V2(prev, w.height, w.tmpID, w.replyTo, w.typ, w.time, w.display, w.text, w.tripSig)
    else V1(prev, w.height, w.tmpID, w.typ, w.time, w.display, w.text, w.tripSig)
  }

  predicate VerifyWire(hs: Hasher, prev: Digest, w: Wire, want: Digest) {
    hs.link(PreimageOf(w, prev)) == want
  }

  datatype LinkError = MalformedPrev | PrevMismatch | MalformedHash | HashMismatch

  datatype LinkResult = Tip(digest: Digest) | Broken(error: LinkError)

  /** Is the wire intact on its own, whatever tip it belongs to? */
  function VerifyWireContent(hs: Hasher, w: Wire): Option<LinkError> {
    match (w.hash.Parse(), w.prev.Parse())
    case (None, _) => Some(MalformedHash)
    case (_, None) => Some(MalformedPrev)
    case (Some(want), Some(prev)) => if VerifyWire(hs, prev, w, want) then None else Some(HashMismatch)
  }

  /** Does the wire continue this tip? */
  function VerifyWireLink(hs: Hasher, w: Wire, prev: Digest): LinkResult {
    match w.prev.Parse()
    case None => Broken(MalformedPrev)
    case Some(got) =>
      if got != prev then Broken(PrevMismatch)
      else match w.hash.Parse()
           case None => Broken(MalformedHash)
           case Some(want) =>
             match VerifyWireContent(hs, w)
             case Some(e) => Broken(e)
             case None => Tip(want)
  }

  // ---------------------------------------------------------------- runs of links

  /** The tip a run of wires ends at. */
  function EndTip(tip: Digest, ws: seq<Wire>): Digest {
    if ws == [] then tip
    else match ws[|ws| - 1].hash.Parse()
         case Some(d) => d
         case None => tip
  }

  /** Wires at consecutive heights, each verified against the tip before it. */
  predicate VerifiedRun(hs: Hasher, tip: Digest, height: nat, ws: seq<Wire>)
    decreases |ws|
  {
    ws == [] ||
    (var front, last := ws[..|ws| - 1], ws[|ws| - 1];
     && VerifiedRun(hs, tip, height, front)
     && last.height == height + |ws|
     && VerifyWireLink(hs, last, EndTip(tip, front)).Tip?)
  }

  /** What the i-th link of a run hashes. */
  function HashedAt(tip: Digest, ws: seq<Wire>, i: nat): Preimage
    requires i < |ws|
  {
    PreimageOf(ws[i], EndTip(tip, ws[..i]))
  }

  lemma {:induction false} RunAt(hs: Hasher, tip: Digest, height: nat, ws: seq<Wire>, i: nat)
    requires VerifiedRun(hs, tip, height, ws) && i < |ws|
    ensures ws[i].height == height + 1 + i
    ensures VerifyWireLink(hs, ws[i], EndTip(tip, ws[..i])) == Tip(hs.link(HashedAt(tip, ws, i)))
    ensures ws[i].prev == Hex(EndTip(tip, ws[..i])) && ws[i].hash == Hex(hs.link(HashedAt(tip, ws, i)))
  {
    if i < |ws| - 1 {
      RunAt(hs, tip, height, ws[..|ws| - 1], i);
      assert ws[..|ws| - 1][..i] == ws[..i];
    }
  }

  predicate SameHashed(tip1: Digest, ws1: seq<Wire>, tip2: Digest, ws2: seq<Wire>) {
    |ws1| == |ws2| && forall i :: 0 <= i < |ws1| ==> HashedAt(tip1, ws1, i) == HashedAt(tip2, ws2, i)
  }

  /** The bytes the i-th link of a run hashes. */
  function BytesAt(tip: Digest, ws: seq<Wire>, i: nat): Bytes
    requires i < |ws|
  {
    Encode(HashedAt(tip, ws, i))
  }

  predicate SameBytes(tip1: Digest, ws1: seq<Wire>, tip2: Digest, ws2: seq<Wire>) {
    |ws1| == |ws2| && forall i :: 0 <= i < |ws1| ==> BytesAt(tip1, ws1, i) == BytesAt(tip2, ws2, i)
  }

  /** The two runs themselves exhibit two different byte strings with one hash. */
  ghost predicate Collides(hs: Hasher, tip1: Digest, ws1: seq<Wire>, tip2: Digest, ws2: seq<Wire>) {
    exists i :: 0 <= i < |ws1| && i < |ws2| && CollidesAt(hs, tip1, ws1, tip2, ws2, i)
  }

  ghost predicate CollidesAt(hs: Hasher, tip1: Digest, ws1: seq<Wire>, tip2: Digest, ws2: seq<Wire>, i: nat)
    requires i < |ws1| && i < |ws2|
  {
    && BytesAt(tip1, ws1, i) != BytesAt(tip2, ws2, i)
    && hs.sum(BytesAt(tip1, ws1, i)) == hs.sum(BytesAt(tip2, ws2, i))
  }

  lemma PrefixHashed(tip: Digest, ws: seq<Wire>, n: nat, i: nat)
    requires i < n <= |ws|
    ensures BytesAt(tip, ws[..n], i) == BytesAt(tip, ws, i)
  {
    assert ws[..n][..i] == ws[..i];
  }

  /** Two verified runs that end at the same height and tip hashed the same bytes all the
      way back, from the same start, or they exhibit a collision of the hash. */
  lemma {:induction false} TamperEvidence(hs: Hasher, tip1: Digest, ws1: seq<Wire>, tip2: Digest, ws2: seq<Wire>,
                                          height: nat)
    requires hs.OverBytes() && |ws1| == |ws2|
    requires VerifiedRun(hs, tip1, height, ws1) && VerifiedRun(hs, tip2, height, ws2)
    requires EndTip(tip1, ws1) == EndTip(tip2, ws2)
    ensures (SameBytes(tip1, ws1, tip2, ws2) && tip1 == tip2) || Collides(hs, tip1, ws1, tip2, ws2)
    decreases |ws1|
  {
    if ws1 != [] {
      var n := |ws1| - 1;
      SumsMeet(hs, tip1, ws1, tip2, ws2, height, n);
      if BytesAt(tip1, ws1, n) != BytesAt(tip2, ws2, n) {
        assert CollidesAt(hs, tip1, ws1, tip2, ws2, n);
      } else {
        EncodeSplits(HashedAt(tip1, ws1, n), HashedAt(tip2, ws2, n));
        TamperEvidence(hs, tip1, ws1[..n], tip2, ws2[..n], height);
        if Collides(hs, tip1, ws1[..n], tip2, ws2[..n]) {
          CollisionGrows(hs, tip1, ws1, tip2, ws2, n);
        } else {
          SameGrows(tip1, ws1, tip2, ws2, n);
        }
      }
    }
  }

  /** Runs that end at one tip hashed their last bytes to one sum. */
  lemma SumsMeet(hs: Hasher, tip1: Digest, ws1: seq<Wire>, tip2: Digest, ws2: seq<Wire>, height: nat, n: nat)
    requires hs.OverBytes() && |ws1| == |ws2| == n + 1
    requires VerifiedRun(hs, tip1, height, ws1) && VerifiedRun(hs, tip2, height, ws2)
    requires EndTip(tip1, ws1) == EndTip(tip2, ws2)
    ensures hs.sum(BytesAt(tip1, ws1, n)) == hs.sum(BytesAt(tip2, ws2, n))
  {
    RunAt(hs, tip1, height, ws1, n);
    RunAt(hs, tip2, height, ws2, n);
    assert hs.link(HashedAt(tip1, ws1, n)) == hs.sum(BytesAt(tip1, ws1, n));
    assert hs.link(HashedAt(tip2, ws2, n)) == hs.sum(BytesAt(tip2, ws2, n));
  }

  lemma CollisionStays(hs: Hasher, tip1: Digest, ws1: seq<Wire>, tip2: Digest, ws2: seq<Wire>, n: nat, i: nat)
    requires |ws1| == |ws2| == n + 1 && i < n
    requires CollidesAt(hs, tip1, ws1[..n], tip2, ws2[..n], i)
    ensures CollidesAt(hs, tip1, ws1, tip2, ws2, i)
  {
    PrefixHashed(tip1, ws1, n, i);
    PrefixHashed(tip2, ws2, n, i);
  }

  lemma CollisionGrows(hs: Hasher, tip1: Digest, ws1: seq<Wire>, tip2: Digest, ws2: seq<Wire>, n: nat)
    requires |ws1| == |ws2| == n + 1 && Collides(hs, tip1, ws1[..n], tip2, ws2[..n])
    ensures Collides(hs, tip1, ws1, tip2, ws2)
  {
    var i :| 0 <= i < n && CollidesAt(hs, tip1, ws1[..n], tip2, ws2[..n], i);
    CollisionStays(hs, tip1, ws1, tip2, ws2, n, i);
  }

  lemma SameStays(tip1: Digest, ws1: seq<Wire>, tip2: Digest, ws2: seq<Wire>, n: nat, i: nat)
    requires |ws1| == |ws2| == n + 1 && i <= n && SameBytes(tip1, ws1[..n], tip2, ws2[..n])
    requires BytesAt(tip1, ws1, n) == BytesAt(tip2, ws2, n)
    ensures BytesAt(tip1, ws1, i) == BytesAt(tip2, ws2, i)
  {
    if i < n {
      PrefixHashed(tip1, ws1, n, i);
      PrefixHashed(tip2, ws2, n, i);
      assert BytesAt(tip1, ws1[..n], i) == BytesAt(tip2, ws2[..n], i);
    }
  }

  /** Bytes that agree on all links but the last, and on the last, agree on all. */
  lemma SameGrows(tip1: Digest, ws1: seq<Wire>, tip2: Digest, ws2: seq<Wire>, n: nat)
    requires |ws1| == |ws2| == n + 1 && SameBytes(tip1, ws1[..n], tip2, ws2[..n])
    requires BytesAt(tip1, ws1, n) == BytesAt(tip2, ws2, n)
    ensures SameBytes(tip1, ws1, tip2, ws2)
  {
    forall i | 0 <= i < |ws1| ensures BytesAt(tip1, ws1, i) == BytesAt(tip2, ws2, i) {
      SameStays(tip1, ws1, tip2, ws2, n, i);
    }
  }

  /** Same bytes are the same fields exactly where both records use one version of the
      encoding, which they do at every link of the types the program chains. */
  lemma {:induction false} BytesTellFields(tip1: Digest, ws1: seq<Wire>, tip2: Digest, ws2: seq<Wire>)
    requires SameBytes(tip1, ws1, tip2, ws2)
    ensures SameHashed(tip1, ws1, tip2, ws2) <==> forall i :: 0 <= i < |ws1| ==> (ws1[i].ver >= 2) == (ws2[i].ver >= 2)
    ensures (forall i :: 0 <= i < |ws1| ==> LinkedType(ws1[i].typ) && LinkedType(ws2[i].typ)) ==>
              SameHashed(tip1, ws1, tip2, ws2)
  {
    forall i | 0 <= i < |ws1|
      ensures HashedAt(tip1, ws1, i) == HashedAt(tip2, ws2, i) <==> (ws1[i].ver >= 2) == (ws2[i].ver >= 2)
      ensures LinkedType(ws1[i].typ) && LinkedType(ws2[i].typ) ==> HashedAt(tip1, ws1, i) == HashedAt(tip2, ws2, i)
    {
      var p, q := HashedAt(tip1, ws1, i), HashedAt(tip2, ws2, i);
      assert Encode(p) == BytesAt(tip1, ws1, i) == BytesAt(tip2, ws2, i) == Encode(q);
      if p.V2? == q.V2? {
        SameVersionTells(p, q);
      }
      if LinkedType(p.typ) && LinkedType(q.typ) {
        LinkedTypesApart(p, q);
      }
    }
  }

  /** Two wires whose hashed fields agree say the same, name the same place and the same link before. */
  predicate SaysTheSame(w1: Wire, w2: Wire) {
    && w1.text == w2.text && w1.display == w2.display && w1.typ == w2.typ && w1.time == w2.time
    && w1.tripSig == w2.tripSig && w1.tmpID == w2.tmpID && w1.height == w2.height
    && (w1.ver >= 2) == (w2.ver >= 2) && (w1.ver >= 2 ==> w1.replyTo == w2.replyTo)
  }

  lemma {:induction false} HashedFieldsAre(w1: Wire, p1: Digest, w2: Wire, p2: Digest)
    ensures PreimageOf(w1, p1) == PreimageOf(w2, p2) <==> p1 == p2 && SaysTheSame(w1, w2)
  {
  }

  /** So two runs of chat and system messages that end at the same height and tip say the same at
      every link, from the same start, or they exhibit a collision. */
  lemma {:induction false} SameTipSameMessages(hs: Hasher, tip1: Digest, ws1: seq<Wire>, tip2: Digest, ws2: seq<Wire>,
                                               height: nat)
    requires hs.OverBytes() && |ws1| == |ws2|
    requires VerifiedRun(hs, tip1, height, ws1) && VerifiedRun(hs, tip2, height, ws2)
    requires EndTip(tip1, ws1) == EndTip(tip2, ws2)
    requires forall i :: 0 <= i < |ws1| ==> LinkedType(ws1[i].typ) && LinkedType(ws2[i].typ)
    ensures Collides(hs, tip1, ws1, tip2, ws2)
            || (tip1 == tip2 && forall i :: 0 <= i < |ws1| ==> SaysTheSame(ws1[i], ws2[i]))
  {
    TamperEvidence(hs, tip1, ws1, tip2, ws2, height);
    if !Collides(hs, tip1, ws1, tip2, ws2) {
      BytesTellFields(tip1, ws1, tip2, ws2);
      SameFieldsSay(tip1, ws1, tip2, ws2);
    }
  }

  lemma SameFieldsSay(tip1: Digest, ws1: seq<Wire>, tip2: Digest, ws2: seq<Wire>)
    requires SameHashed(tip1, ws1, tip2, ws2)
    ensures forall i :: 0 <= i < |ws1| ==> SaysTheSame(ws1[i], ws2[i])
  {
    forall i | 0 <= i < |ws1| ensures SaysTheSame(ws1[i], ws2[i]) {
      assert HashedAt(tip1, ws1, i) == HashedAt(tip2, ws2, i);
      HashedFieldsAre(ws1[i], EndTip(tip1, ws1[..i]), ws2[i], EndTip(tip2, ws2[..i]));
    }
  }

  /** Conversely the tip depends on the hashed fields only: a run rewritten outside them
      still verifies and ends at the same tip. */
  lemma {:induction false} UnhashedFieldsAreFree(hs: Hasher, tip: Digest, height: nat, ws1: seq<Wire>, ws2: seq<Wire>)
    requires |ws1| == |ws2| && VerifiedRun(hs, tip, height, ws1)
    requires forall i :: 0 <= i < |ws1| ==>
               ws2[i] == ws1[i].(seqno := ws2[i].seqno, sentAt := ws2[i].sentAt, tags := ws2[i].tags)
    ensures VerifiedRun(hs, tip, height, ws2) && EndTip(tip, ws2) == EndTip(tip, ws1)
    decreases |ws1|
  {
    if ws1 != [] {
      var n := |ws1| - 1;
      UnhashedFieldsAreFree(hs, tip, height, ws1[..n], ws2[..n]);
      assert VerifyWireContent(hs, ws2[n]) == VerifyWireContent(hs, ws1[n]);
    }
  }

  // ---------------------------------------------------------------- the server's log

  /** A message linked after a tip, as the writer stamps it. */
  function LinkNext(hs: Hasher, tip: Digest, height: nat, seqno: nat, msg: Wire): Wire {
    var w := msg.(prev := Hex(tip), height := height + 1, ver := CHAIN_VERSION, seqno := seqno);
    w.(hash := Hex(hs.link(PreimageOf(w, tip))))
  }

  /** The wire is the message, linked next. */
  predicate IsNext(hs: Hasher, tip: Digest, height: nat, seqno: nat, msg: Wire, wire: Wire) {
    wire == LinkNext(hs, tip, height, seqno, msg)
  }

  /** Every field of a linked message: what it said is kept, and the link stands on the tip. */
  lemma {:induction false} LinkFields(hs: Hasher, tip: Digest, height: nat, seqno: nat, msg: Wire)
    ensures var w := LinkNext(hs, tip, height, seqno, msg);
            && w.typ == msg.typ && w.time == msg.time && w.display == msg.display && w.text == msg.text
            && w.tags == msg.tags && w.tripSig == msg.tripSig && w.tmpID == msg.tmpID && w.replyTo == msg.replyTo
            && w.sentAt == msg.sentAt
            && w.prev == Hex(tip) && w.height == height + 1 && w.ver == 2 && w.seqno == seqno
            && w.hash == Hex(hs.link(V2(tip, height + 1, msg.tmpID, msg.replyTo, msg.typ, msg.time, msg.display,
                                        msg.text, msg.tripSig)))
  {
  }

  /** The chain a server has written after a starting digest: heights from 1, each link
      intact. The start is the genesis, or the anchor of the history older than the chain. */
  ghost predicate ServerLog(hs: Hasher, start: Digest, log: seq<Wire>) {
    VerifiedRun(hs, start, 0, log)
  }

  /** Linking keeps the log a chain. */
  lemma {:induction false} LinkExtends(hs: Hasher, start: Digest, log: seq<Wire>, seqno: nat, msg: Wire)
    requires ServerLog(hs, start, log)
    ensures ServerLog(hs, start, log + [LinkNext(hs, EndTip(start, log), |log|, seqno, msg)])
  {
    var tip := EndTip(start, log);
    var w := LinkNext(hs, tip, |log|, seqno, msg);
    assert PreimageOf(w, tip) == PreimageOf(w.(hash := Absent), tip);
    assert (log + [w])[..|log|] == log;
  }
}
