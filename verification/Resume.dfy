/** Restarting the chain from stored history: which tip a scan of the log arrives at,
    when it reports a break, and which sequence numbers old records get. */
module Resume {
  import opened Basics
  import opened WireModel
  import opened HashChain

  /** The running state of the boot scan. */
  datatype Scan = Scan(tip: Digest, height: nat, anchor: string, anchored: bool, broken: bool, maxSeq: nat)

  function ScanStart(hs: Hasher): Scan {
    Scan(hs.genesis, 0, "", false, false, 0)
  }

  /** A well-formed chained wire: adopted as the tip whether or not it continues. */
  function ScanLink(hs: Hasher, s: Scan, w: Wire, prev: Digest, want: Digest): Scan {
    var expectPrev := if s.anchored then hs.anchor(s.anchor) else s.tip;
    var continues := prev == expectPrev && w.height == s.height + 1 && VerifyWire(hs, prev, w, want);
    s.(anchored := false, tip := want, height := w.height, broken := s.broken || !continues)
  }

  function ScanLine(c: Codec, hs: Hasher, s: Scan, line: string): Scan {
    match c.unmarshal(line)
    case None => s.(anchor := line, anchored := true)
    case Some(w) =>
      var s1 := if w.seqno > s.maxSeq then s.(maxSeq := w.seqno) else s;
      if w.hash.Absent? then
        if w.typ == "system" then s1 else s1.(anchor := line, anchored := true)
      else if w.prev.Hex? && w.hash.Hex? then ScanLink(hs, s1, w, w.prev.digest, w.hash.digest)
      else s1.(broken := true, anchored := false)
  }

  function ScanAll(c: Codec, hs: Hasher, lines: seq<string>): Scan {
    if lines == [] then ScanStart(hs)
    else ScanLine(c, hs, ScanAll(c, hs, lines[..|lines| - 1]), lines[|lines| - 1])
  }

  /** Tip and height the next link will continue. */
  function Resumed(c: Codec, hs: Hasher, lines: seq<string>): (Digest, nat) {
    var s := ScanAll(c, hs, lines);
    if s.anchored && s.height == 0 then (hs.anchor(s.anchor), 0) else (s.tip, s.height)
  }

  // ---------------------------------------------------------------- which tip is resumed

  /** The chained wires among stored lines. */
  function Links(c: Codec, lines: seq<string>): seq<Wire> {
    if lines == [] then []
    else
      var front := Links(c, lines[..|lines| - 1]);
      match c.unmarshal(lines[|lines| - 1])
      case Some(w) => if w.hash.Absent? then front else front + [w]
      case None => front
  }

  predicate WellFormed(ws: seq<Wire>) {
    forall i :: 0 <= i < |ws| ==> ws[i].prev.Hex? && ws[i].hash.Hex? && ws[i].height > 0
  }

  lemma {:induction false} ScanTip(c: Codec, hs: Hasher, lines: seq<string>)
    requires WellFormed(Links(c, lines))
    ensures var s, ws := ScanAll(c, hs, lines), Links(c, lines);
            if ws == [] then s.height == 0 && s.tip == hs.genesis
            else Hex(s.tip) == ws[|ws| - 1].hash && s.height == ws[|ws| - 1].height
  {
    if lines != [] {
      var front := lines[..|lines| - 1];
      var ws, ws' := Links(c, front), Links(c, lines);
      assert WellFormed(ws) by {
        assert forall i :: 0 <= i < |ws| ==> ws'[i] == ws[i];
      }
      ScanTip(c, hs, front);
    }
  }

  /** What is left of a written log after front eviction: a suffix of its links, with
      notices and legacy lines anywhere between them. */
  ghost predicate Remains(c: Codec, log: seq<Wire>, lines: seq<string>) {
    var ws := Links(c, lines);
    |ws| <= |log| && ws == log[|log| - |ws|..]
  }

  lemma ServerLogWellFormed(hs: Hasher, start: Digest, log: seq<Wire>)
    requires ServerLog(hs, start, log)
    ensures WellFormed(log)
    ensures log != [] ==> Hex(EndTip(start, log)) == log[|log| - 1].hash && log[|log| - 1].height == |log|
  {
    forall i | 0 <= i < |log| ensures log[i].prev.Hex? && log[i].hash.Hex? && log[i].height == i + 1 {
      RunAt(hs, start, 0, log, i);
    }
  }

  /** A restart continues the log exactly when one of its chained lines is still stored. */
  lemma {:induction false} RestartContinuity(c: Codec, hs: Hasher, start: Digest, log: seq<Wire>, lines: seq<string>)
    requires ServerLog(hs, start, log) && log != [] && Remains(c, log, lines)
    ensures Resumed(c, hs, lines) == (EndTip(start, log), |log|) <==> Links(c, lines) != []
  {
    ServerLogWellFormed(hs, start, log);
    var ws := Links(c, lines);
    assert WellFormed(ws) by {
      assert forall i :: 0 <= i < |ws| ==> ws[i] == log[|log| - |ws| + i];
    }
    ScanTip(c, hs, lines);
  }

  /** Old links and the next new one form one chain. */
  lemma {:induction false} OldAndNewAreOneChain(c: Codec, hs: Hasher, start: Digest, log: seq<Wire>,
                                                lines: seq<string>, seqno: nat, msg: Wire)
    requires ServerLog(hs, start, log) && Remains(c, log, lines) && Links(c, lines) != []
    ensures var (tip, height) := Resumed(c, hs, lines);
            ServerLog(hs, start, log + [LinkNext(hs, tip, height, seqno, msg)])
  {
    RestartContinuity(c, hs, start, log, lines);
    LinkExtends(hs, start, log, seqno, msg);
  }

  /** A line has a height exactly when it is a well-formed link. */
  predicate Tidy(c: Codec, lines: seq<string>) {
    forall i :: 0 <= i < |lines| ==>
      match c.unmarshal(lines[i])
      case Some(w) => if w.height == 0 then w.hash.Absent? else w.prev.Hex? && w.hash.Hex?
      case None => true
  }

  // ---------------------------------------------------------------- when a break is flagged

  /** No link and no notice: a line from before the chain, or one that carries no hash. */
  predicate Legacy(c: Codec, line: string) {
    match c.unmarshal(line)
    case Some(w) => w.hash.Absent? && w.typ != "system"
    case None => true
  }

  /** Legacy lines stand before every link. */
  predicate LegacyFirst(c: Codec, lines: seq<string>) {
    forall i :: 0 <= i < |lines| ==> Legacy(c, lines[i]) ==> Links(c, lines[..i]) == []
  }

  /** What the first link has to continue: the anchor of the last legacy line, or genesis. */
  function Beginning(c: Codec, hs: Hasher, lines: seq<string>): Digest {
    if lines == [] then hs.genesis
    else if Legacy(c, lines[|lines| - 1]) then hs.anchor(lines[|lines| - 1])
    else Beginning(c, hs, lines[..|lines| - 1])
  }

  lemma LegacyFirstStep(c: Codec, lines: seq<string>)
    requires LegacyFirst(c, lines) && lines != []
    ensures LegacyFirst(c, lines[..|lines| - 1])
    ensures Legacy(c, lines[|lines| - 1]) ==> Links(c, lines[..|lines| - 1]) == []
  {
    var front := lines[..|lines| - 1];
    assert forall i :: 0 <= i < |front| ==> front[i] == lines[i] && front[..i] == lines[..i];
  }

  lemma RunStep(hs: Hasher, start: Digest, ws: seq<Wire>, w: Wire)
    ensures VerifiedRun(hs, start, 0, ws + [w]) <==>
              VerifiedRun(hs, start, 0, ws) && w.height == |ws| + 1 && VerifyWireLink(hs, w, EndTip(start, ws)).Tip?
  {
    assert (ws + [w])[..|ws|] == ws;
  }

  /** The scan before the first link: it only remembers the anchor. */
  lemma {:induction false} ScanBeforeLinks(c: Codec, hs: Hasher, lines: seq<string>)
    requires Links(c, lines) == []
    ensures var s := ScanAll(c, hs, lines);
            && s.tip == hs.genesis && s.height == 0 && !s.broken
            && Beginning(c, hs, lines) == if s.anchored then hs.anchor(s.anchor) else hs.genesis
  {
    if lines != [] {
      ScanBeforeLinks(c, hs, lines[..|lines| - 1]);
    }
  }

  /** The digest the next link is held against. */
  function Expected(hs: Hasher, s: Scan): Digest {
    if s.anchored then hs.anchor(s.anchor) else s.tip
  }

  /** The scan has seen this chain: whole, standing at its end, or flagged as broken. */
  ghost predicate HasSeen(hs: Hasher, s: Scan, start: Digest, ws: seq<Wire>) {
    && (s.broken <==> !ServerLog(hs, start, ws))
    && (!s.broken ==> Expected(hs, s) == EndTip(start, ws) && s.height == |ws|)
  }

  lemma SeesLink(c: Codec, hs: Hasher, s: Scan, line: string, start: Digest, ws: seq<Wire>)
    requires HasSeen(hs, s, start, ws) && c.unmarshal(line).Some? && !c.unmarshal(line).value.hash.Absent?
    ensures HasSeen(hs, ScanLine(c, hs, s, line), start, ws + [c.unmarshal(line).value])
    ensures !ScanLine(c, hs, s, line).anchored
  {
    RunStep(hs, start, ws, c.unmarshal(line).value);
  }

  lemma {:induction false} ScanSees(c: Codec, hs: Hasher, lines: seq<string>)
    requires LegacyFirst(c, lines)
    ensures Links(c, lines) != [] ==> !ScanAll(c, hs, lines).anchored
    ensures HasSeen(hs, ScanAll(c, hs, lines), Beginning(c, hs, lines), Links(c, lines))
  {
    if Links(c, lines) == [] {
      ScanBeforeLinks(c, hs, lines);
    } else {
      var front, last := lines[..|lines| - 1], lines[|lines| - 1];
      LegacyFirstStep(c, lines);
      ScanSees(c, hs, front);
      if !c.unmarshal(last).value.hash.Absent? {
        SeesLink(c, hs, ScanAll(c, hs, front), last, Beginning(c, hs, front), Links(c, front));
      }
    }
  }

  /** A break is flagged if and only if some link does not continue the chain from its
      beginning; on an unbroken log the scan resumes at the chain's own tip and height. */
  lemma {:induction false} BreakIffBroken(c: Codec, hs: Hasher, lines: seq<string>)
    requires LegacyFirst(c, lines)
    ensures var s, ws, start := ScanAll(c, hs, lines), Links(c, lines), Beginning(c, hs, lines);
            && (s.broken <==> !ServerLog(hs, start, ws))
            && (!s.broken ==> Resumed(c, hs, lines) == (EndTip(start, ws), |ws|))
  {
    ScanSees(c, hs, lines);
    if Links(c, lines) == [] {
      ScanBeforeLinks(c, hs, lines);
    }
  }

  /** Where no link is stored yet, the next message starts a chain at that beginning. */
  lemma {:induction false} FirstLinkStartsChain(c: Codec, hs: Hasher, lines: seq<string>, seqno: nat, msg: Wire)
    requires Links(c, lines) == []
    ensures Resumed(c, hs, lines) == (Beginning(c, hs, lines), 0)
    ensures ServerLog(hs, Beginning(c, hs, lines),
                      [LinkNext(hs, Resumed(c, hs, lines).0, Resumed(c, hs, lines).1, seqno, msg)])
  {
    ScanBeforeLinks(c, hs, lines);
    var start := Beginning(c, hs, lines);
    LinkExtends(hs, start, [], seqno, msg);
    assert [] + [LinkNext(hs, start, 0, seqno, msg)] == [LinkNext(hs, start, 0, seqno, msg)];
  }

  // ---------------------------------------------------------------- sequence numbers

  /** The highest sequence number after loading records in order. */
  function LastSeq(records: seq<Record>): nat {
    if records == [] then 0
    else
      var before, own := LastSeq(records[..|records| - 1]), records[|records| - 1].seqno;
      if own == 0 then before + 1 else if own > before then own else before
  }

  function FillSeq(rec: Record, seqno: nat): Record {
    var filled := if rec.seqno == 0 then rec.(seqno := seqno) else rec;
    if filled.wire.Some? && filled.wire.value.seqno == 0
    then filled.(wire := Some(filled.wire.value.(seqno := filled.seqno)))
    else filled
  }

  /** Records from before sequence numbers get theirs from the load order. */
  function Backfilled(records: seq<Record>): (r: seq<Record>)
    ensures |r| == |records|
  {
    if records == [] then []
    else Backfilled(records[..|records| - 1]) + [FillSeq(records[|records| - 1], LastSeq(records))]
  }

  predicate SeqsRise(records: seq<Record>) {
    forall i, j :: 0 <= i < j < |records| ==> records[i].seqno < records[j].seqno
  }

  /** A record either has no number yet or one above everything loaded before it. */
  predicate Forward(records: seq<Record>) {
    forall i :: 0 <= i < |records| ==> records[i].seqno == 0 || records[i].seqno > LastSeq(records[..i])
  }

  /** The counter a restart continues from is the highest number handed out. */
  lemma {:induction false} LastSeqIsMax(records: seq<Record>)
    ensures forall i :: 0 <= i < |records| ==> 0 < Backfilled(records)[i].seqno <= LastSeq(records)
    ensures LastSeq(records) > 0 ==> exists i :: 0 <= i < |records| && Backfilled(records)[i].seqno == LastSeq(records)
  {
    if records != [] {
      var front := records[..|records| - 1];
      LastSeqIsMax(front);
      var out, out' := Backfilled(front), Backfilled(records);
      assert forall i :: 0 <= i < |front| ==> out'[i] == out[i];
      if LastSeq(records) == LastSeq(front) {
        var i :| 0 <= i < |front| && out[i].seqno == LastSeq(front);
        assert out'[i].seqno == LastSeq(records);
      } else {
        assert out'[|front|].seqno == LastSeq(records);
      }
    }
  }

  lemma ForwardStep(records: seq<Record>, rec: Record)
    ensures Forward(records + [rec]) <==> Forward(records) && (rec.seqno == 0 || rec.seqno > LastSeq(records))
  {
    var all, n := records + [rec], |records|;
    assert all[..n] == records;
    assert forall i :: 0 <= i < n ==> all[i] == records[i] && all[..i] == records[..i];
    if Forward(all) {
      assert all[n].seqno == 0 || all[n].seqno > LastSeq(all[..n]);
    }
  }

  lemma RisesStep(out: seq<Record>, rec: Record)
    ensures SeqsRise(out + [rec]) <==> SeqsRise(out) && forall i :: 0 <= i < |out| ==> out[i].seqno < rec.seqno
  {
    var all, n := out + [rec], |out|;
    assert forall i :: 0 <= i < n ==> all[i] == out[i];
    if SeqsRise(all) {
      forall i | 0 <= i < n ensures out[i].seqno < rec.seqno {
        assert all[i].seqno < all[n].seqno;
      }
    }
  }

  /** After backfilling, numbers rise strictly exactly when no stored number falls back. */
  lemma {:induction false} BackfillRises(records: seq<Record>)
    ensures SeqsRise(Backfilled(records)) <==> Forward(records)
  {
    if records != [] {
      var front, rec := records[..|records| - 1], records[|records| - 1];
      BackfillRises(front);
      LastSeqIsMax(front);
      assert records == front + [rec];
      ForwardStep(front, rec);
      RisesStep(Backfilled(front), FillSeq(rec, LastSeq(records)));
    }
  }

  lemma NumberedTail(front: seq<Record>, rec: Record, legacy: nat)
    requires legacy <= |front| && SeqsRise((front + [rec])[legacy..])
    ensures SeqsRise(front[legacy..])
    ensures legacy < |front| ==> front[|front| - 1].seqno < rec.seqno
  {
    var tail := front[legacy..];
    assert (front + [rec])[legacy..] == tail + [rec];
    RisesStep(tail, rec);
    if tail != [] {
      assert tail[|tail| - 1] == front[|front| - 1];
    }
  }

  /** Records from before sequence numbers, then numbered ones starting above them. */
  lemma {:induction false} LegacyThenNumbered(legacy: nat, records: seq<Record>)
    requires legacy <= |records|
    requires forall i :: 0 <= i < |records| ==> (records[i].seqno == 0 <==> i < legacy)
    requires SeqsRise(records[legacy..])
    requires legacy < |records| ==> records[legacy].seqno > legacy
    ensures SeqsRise(Backfilled(records))
    ensures LastSeq(records) == if legacy == |records| then legacy else records[|records| - 1].seqno
  {
    if records != [] {
      var front, rec := records[..|records| - 1], records[|records| - 1];
      assert records == front + [rec];
      if legacy == |records| {
        assert records[legacy - 1..] == [rec] && front[legacy - 1..] == [];
        LegacyThenNumbered(legacy - 1, front);
      } else {
        NumberedTail(front, rec, legacy);
        LegacyThenNumbered(legacy, front);
      }
      BackfillRises(front);
      ForwardStep(front, rec);
      BackfillRises(records);
    }
  }
}
