/** What a boot leaves behind: the numbers and heights of the lines in RAM, and counters
    that stand above all of them. */
module BootOrder {
  import opened Basics
  import opened WireModel
  import opened HashChain
  import opened Resume
  import opened ChainServices

  /** The sequence number a stored line carries. */
  function NumberOf(c: Codec, text: string): nat {
    match c.unmarshal(text)
    case Some(w) => w.seqno
    case None => 0
  }

  predicate NumbersRise(c: Codec, texts: seq<string>) {
    forall i, j :: 0 <= i < j < |texts| ==> NumberOf(c, texts[i]) < NumberOf(c, texts[j])
  }

  predicate NumbersUpTo(c: Codec, texts: seq<string>, top: nat) {
    forall i :: 0 <= i < |texts| ==> NumberOf(c, texts[i]) <= top
  }

  /** A record and its wire carry one number, as the writer stores them; the wire may have none. */
  predicate OneNumber(rec: Record) {
    rec.wire.Some? && rec.wire.value.seqno != 0 ==> rec.wire.value.seqno == rec.seqno
  }

  predicate Agree(records: seq<Record>) {
    forall i :: 0 <= i < |records| ==> OneNumber(records[i])
  }

  predicate Shown(c: Codec, rec: Record, accepts: Record -> bool) {
    BootText(c, rec, accepts) != []
  }

  /** A numbered record that is shown stands above every record shown before it. */
  predicate ShownForward(c: Codec, records: seq<Record>, accepts: Record -> bool) {
    forall i :: 0 <= i < |records| ==> ForwardAt(c, records, accepts, i)
  }

  predicate ForwardAt(c: Codec, records: seq<Record>, accepts: Record -> bool, i: nat)
    requires i < |records|
  {
    var filled := Backfilled(records);
    records[i].seqno != 0 && Shown(c, filled[i], accepts) ==>
      forall j :: 0 <= j < i && Shown(c, filled[j], accepts) ==> filled[j].seqno < records[i].seqno
  }

  // ---------------------------------------------------------------- numbers of the boot lines

  /** A filled record: numbered, and its wire with it. */
  predicate Full(rec: Record) {
    rec.seqno != 0 && (rec.wire.Some? ==> rec.wire.value.seqno == rec.seqno)
  }

  lemma FillIsFull(rec: Record, n: nat)
    requires OneNumber(rec) && n != 0
    ensures Full(FillSeq(rec, n))
  {
  }

  lemma FillNumber(rec: Record, n: nat)
    ensures FillSeq(rec, n).seqno == if rec.seqno == 0 then n else rec.seqno
  {
  }

  lemma {:induction false} BackfilledAt(records: seq<Record>, i: nat)
    requires i < |records|
    ensures Backfilled(records)[i] == FillSeq(records[i], LastSeq(records[..i + 1]))
    ensures Backfilled(records)[..i] == Backfilled(records[..i])
  {
    var n := |records| - 1;
    if i < n {
      BackfilledAt(records[..n], i);
      assert records[..n][..i] == records[..i] && records[..n][..i + 1] == records[..i + 1];
    } else {
      assert records[..i + 1] == records;
    }
  }

  lemma BackfilledIsFull(records: seq<Record>, i: nat)
    requires Agree(records) && i < |records|
    ensures Full(Backfilled(records)[i])
  {
    BackfilledAt(records, i);
    FillIsFull(records[i], LastSeq(records[..i + 1]));
  }

  /** Its number stands as stored, or comes from the counter and exceeds all before it. */
  lemma BackfilledNumber(records: seq<Record>, i: nat)
    requires i < |records|
    ensures records[i].seqno != 0 ==> Backfilled(records)[i].seqno == records[i].seqno
    ensures records[i].seqno == 0 ==>
              forall j :: 0 <= j < i ==> Backfilled(records)[j].seqno < Backfilled(records)[i].seqno
  {
    BackfilledAt(records, i);
    FillNumber(records[i], LastSeq(records[..i + 1]));
    LastSeqIsMax(records[..i]);
    var out := Backfilled(records);
    assert forall j :: 0 <= j < i ==> out[j] == Backfilled(records[..i])[j];
    assert records[..i + 1][..i] == records[..i];
  }

  /** The line of a full record carries the record's number. */
  lemma LineNumber(c: Codec, rec: Record, accepts: Record -> bool)
    requires c.Laws() && Full(rec)
    ensures Shown(c, rec, accepts) ==>
              |BootText(c, rec, accepts)| == 1 && NumberOf(c, BootText(c, rec, accepts)[0]) == rec.seqno
  {
    if rec.wire.None? {
      assert c.unmarshal(c.marshal(SystemWire(rec.message, rec.seqno))) == Some(SystemWire(rec.message, rec.seqno));
    } else {
      assert c.unmarshal(c.marshal(rec.wire.value)) == rec.wire;
    }
  }

  predicate ShownRise(c: Codec, filled: seq<Record>, accepts: Record -> bool) {
    forall i, j :: 0 <= j < i < |filled| && Shown(c, filled[i], accepts) && Shown(c, filled[j], accepts) ==>
      filled[j].seqno < filled[i].seqno
  }

  /** All numbers of the lines stay below this one exactly when all shown records do. */
  predicate TextsBelow(c: Codec, texts: seq<string>, n: nat) {
    forall i :: 0 <= i < |texts| ==> NumberOf(c, texts[i]) < n
  }

  predicate ShownBelow(c: Codec, filled: seq<Record>, accepts: Record -> bool, n: nat) {
    forall j :: 0 <= j < |filled| && Shown(c, filled[j], accepts) ==> filled[j].seqno < n
  }

  lemma {:induction false} BelowIffBelow(c: Codec, filled: seq<Record>, accepts: Record -> bool, n: nat)
    requires c.Laws() && forall i :: 0 <= i < |filled| ==> Full(filled[i])
    ensures TextsBelow(c, BootTexts(c, filled, accepts), n) <==> ShownBelow(c, filled, accepts, n)
  {
    if filled != [] {
      var front, last := filled[..|filled| - 1], filled[|filled| - 1];
      BelowIffBelow(c, front, accepts, n);
      LineNumber(c, last, accepts);
      BelowAppend(c, BootTexts(c, front, accepts), BootText(c, last, accepts), n);
      assert filled == front + [last];
    }
  }

  lemma BelowAppend(c: Codec, a: seq<string>, b: seq<string>, n: nat)
    ensures TextsBelow(c, a + b, n) <==> TextsBelow(c, a, n) && TextsBelow(c, b, n)
  {
    var all := a + b;
    assert forall i :: 0 <= i < |a| ==> all[i] == a[i];
    assert forall i :: 0 <= i < |b| ==> all[|a| + i] == b[i];
  }

  lemma RiseMore(c: Codec, texts: seq<string>, t: string)
    ensures NumbersRise(c, texts + [t]) <==> NumbersRise(c, texts) && TextsBelow(c, texts, NumberOf(c, t))
  {
    var all, n := texts + [t], |texts|;
    assert forall i :: 0 <= i < n ==> all[i] == texts[i];
    if NumbersRise(c, all) {
      forall i | 0 <= i < n ensures NumberOf(c, texts[i]) < NumberOf(c, t) {
        assert NumberOf(c, all[i]) < NumberOf(c, all[n]);
      }
    }
  }

  lemma ShownMore(c: Codec, front: seq<Record>, last: Record, accepts: Record -> bool)
    ensures ShownRise(c, front + [last], accepts) <==>
              ShownRise(c, front, accepts) && (Shown(c, last, accepts) ==> ShownBelow(c, front, accepts, last.seqno))
  {
    var all, n := front + [last], |front|;
    assert forall i :: 0 <= i < n ==> all[i] == front[i];
    assert all[n] == last;
    if ShownRise(c, all, accepts) && Shown(c, last, accepts) {
      forall j | 0 <= j < n && Shown(c, front[j], accepts) ensures front[j].seqno < last.seqno {
        assert Shown(c, all[j], accepts) && Shown(c, all[n], accepts);
      }
    }
  }

  lemma {:induction false} RiseIffShownRise(c: Codec, filled: seq<Record>, accepts: Record -> bool)
    requires c.Laws() && forall i :: 0 <= i < |filled| ==> Full(filled[i])
    ensures NumbersRise(c, BootTexts(c, filled, accepts)) <==> ShownRise(c, filled, accepts)
  {
    if filled != [] {
      var front, last := filled[..|filled| - 1], filled[|filled| - 1];
      RiseIffShownRise(c, front, accepts);
      BelowIffBelow(c, front, accepts, last.seqno);
      LineNumber(c, last, accepts);
      ShownMore(c, front, last, accepts);
      assert filled == front + [last];
      var texts := BootTexts(c, front, accepts);
      if Shown(c, last, accepts) {
        var t := BootText(c, last, accepts)[0];
        RiseMore(c, texts, t);
        assert texts + BootText(c, last, accepts) == texts + [t];
      } else {
        assert texts + [] == texts;
      }
    }
  }

  /** The numbers of the lines a boot produces rise if and only if no numbered record that is
      shown falls back behind one shown before it. */
  lemma {:induction false} BootLinesRise(c: Codec, records: seq<Record>, accepts: Record -> bool)
    requires c.Laws() && Agree(records)
    ensures NumbersRise(c, BootTexts(c, Backfilled(records), accepts)) <==> ShownForward(c, records, accepts)
  {
    var filled := Backfilled(records);
    forall i | 0 <= i < |filled| ensures Full(filled[i]) {
      BackfilledIsFull(records, i);
    }
    RiseIffShownRise(c, filled, accepts);
    forall i | 0 <= i < |records|
      ensures ForwardAt(c, records, accepts, i) <==>
                (Shown(c, filled[i], accepts) ==>
                   forall j :: 0 <= j < i && Shown(c, filled[j], accepts) ==> filled[j].seqno < filled[i].seqno)
    {
      BackfilledNumber(records, i);
    }
    if ShownForward(c, records, accepts) {
      forall i, j | 0 <= j < i < |filled| && Shown(c, filled[i], accepts) && Shown(c, filled[j], accepts)
        ensures filled[j].seqno < filled[i].seqno
      {
        assert ForwardAt(c, records, accepts, i);
      }
    }
  }

  /** Two stored wires, numbered 5 and then 3: their lines are shown in that order. */
  lemma {:induction false} BootLinesCanFall(c: Codec, w: Wire)
    requires c.Laws()
    ensures var records := [Record(5, "", "", Some(w.(seqno := 5))), Record(3, "", "", Some(w.(seqno := 3)))];
            Agree(records) && !NumbersRise(c, BootTexts(c, Backfilled(records), _ => true))
  {
    var records := [Record(5, "", "", Some(w.(seqno := 5))), Record(3, "", "", Some(w.(seqno := 3)))];
    var accepts := _ => true;
    var filled := Backfilled(records);
    BackfilledAt(records, 0);
    BackfilledAt(records, 1);
    FillNumber(records[0], LastSeq(records[..1]));
    BootLinesRise(c, records, accepts);
    assert Shown(c, filled[0], accepts) && Shown(c, filled[1], accepts);
    assert !ForwardAt(c, records, accepts, 1);
  }

  /** Records that never fall back are enough, and with every record shown they are needed. */
  lemma {:induction false} ForwardShows(c: Codec, records: seq<Record>, accepts: Record -> bool)
    ensures Forward(records) ==> ShownForward(c, records, accepts)
    ensures (forall i :: 0 <= i < |records| ==> Shown(c, Backfilled(records)[i], accepts)) ==>
              (ShownForward(c, records, accepts) <==> Forward(records))
  {
    var filled := Backfilled(records);
    forall i | 0 <= i < |records|
      ensures (records[i].seqno == 0 || records[i].seqno > LastSeq(records[..i])) <==>
                (records[i].seqno != 0 ==> forall j :: 0 <= j < i ==> filled[j].seqno < records[i].seqno)
    {
      BackfilledAt(records, i);
      LastSeqIsMax(records[..i]);
      assert forall j :: 0 <= j < i ==> filled[j] == Backfilled(records[..i])[j];
    }
    if Forward(records) {
      forall i | 0 <= i < |records| ensures ForwardAt(c, records, accepts, i) {
      }
    }
    if ShownForward(c, records, accepts) {
      forall i | 0 <= i < |records| && forall k :: 0 <= k < |records| ==> Shown(c, filled[k], accepts)
        ensures records[i].seqno == 0 || records[i].seqno > LastSeq(records[..i])
      {
        assert ForwardAt(c, records, accepts, i);
      }
    }
  }

  /** Records from before sequence numbers, then numbered ones starting above them: their
      lines rise. */
  lemma {:induction false} LegacyBootRises(c: Codec, legacy: nat, records: seq<Record>, accepts: Record -> bool)
    requires c.Laws() && Agree(records) && legacy <= |records|
    requires forall i :: 0 <= i < |records| ==> (records[i].seqno == 0 <==> i < legacy)
    requires SeqsRise(records[legacy..])
    requires legacy < |records| ==> records[legacy].seqno > legacy
    ensures NumbersRise(c, BootTexts(c, Backfilled(records), accepts))
  {
    LegacyThenNumbered(legacy, records);
    BackfillRises(records);
    ForwardShows(c, records, accepts);
    BootLinesRise(c, records, accepts);
  }

  // ---------------------------------------------------------------- the counter

  /** The scan's counter is the highest number any line carries. */
  lemma {:induction false} ScanCounts(c: Codec, hs: Hasher, lines: seq<string>, top: nat)
    ensures ScanAll(c, hs, lines).maxSeq <= top <==> NumbersUpTo(c, lines, top)
  {
    if lines != [] {
      var front, last := lines[..|lines| - 1], lines[|lines| - 1];
      ScanCounts(c, hs, front, top);
      var s := ScanAll(c, hs, front);
      assert ScanAll(c, hs, lines).maxSeq == if NumberOf(c, last) > s.maxSeq then NumberOf(c, last) else s.maxSeq;
      assert lines == front + [last];
      UpToMore(c, front, last, top);
    }
  }

  lemma UpToMore(c: Codec, front: seq<string>, last: string, top: nat)
    ensures NumbersUpTo(c, front + [last], top) <==> NumbersUpTo(c, front, top) && NumberOf(c, last) <= top
  {
    var all := front + [last];
    assert forall i :: 0 <= i < |front| ==> all[i] == front[i];
    assert all[|front|] == last;
  }

  /** The lines a boot produces stay within the loaded counter. */
  lemma {:induction false} BootUpToLastSeq(c: Codec, records: seq<Record>, accepts: Record -> bool)
    requires c.Laws() && Agree(records)
    ensures NumbersUpTo(c, BootTexts(c, Backfilled(records), accepts), LastSeq(records))
  {
    var filled := Backfilled(records);
    forall i | 0 <= i < |filled| ensures Full(filled[i]) {
      BackfilledIsFull(records, i);
    }
    LastSeqIsMax(records);
    BelowIffBelow(c, filled, accepts, LastSeq(records) + 1);
    assert TextsBelow(c, BootTexts(c, filled, accepts), LastSeq(records) + 1);
  }

  lemma TailNumbers(c: Codec, all: seq<string>, kept: seq<string>, top: nat)
    requires |kept| <= |all| && kept == all[|all| - |kept|..]
    ensures NumbersRise(c, all) ==> NumbersRise(c, kept)
    ensures NumbersUpTo(c, all, top) ==> NumbersUpTo(c, kept, top)
  {
    assert forall i :: 0 <= i < |kept| ==> kept[i] == all[|all| - |kept| + i];
  }

  /** RAM and counter after a boot: the counter stands at or above every number in RAM,
      whatever the disk held, and at the loaded one when records and wires agree; the numbers
      in RAM rise whenever those loaded do. */
  ghost predicate BootedWell(c: Codec, records: seq<Record>, accepts: Record -> bool, history: seq<string>, seqno: nat)
  {
    && NumbersUpTo(c, history, seqno) && seqno >= LastSeq(records)
    && (c.Laws() && Agree(records) ==> seqno == LastSeq(records))
    && (c.Laws() && Agree(records) && ShownForward(c, records, accepts) ==> NumbersRise(c, history))
  }

  lemma {:induction false} BootedIsWell(c: Codec, hs: Hasher, records: seq<Record>, accepts: Record -> bool,
                                        history: seq<string>, cap: nat, seqno: nat)
    requires LongestTailWithin(BootTexts(c, Backfilled(records), accepts), history, cap)
    requires seqno == if ScanAll(c, hs, history).maxSeq > LastSeq(records) then ScanAll(c, hs, history).maxSeq
             else LastSeq(records)
    ensures BootedWell(c, records, accepts, history, seqno)
  {
    var texts, top := BootTexts(c, Backfilled(records), accepts), LastSeq(records);
    ScanCounts(c, hs, history, seqno);
    TailNumbers(c, texts, history, top);
    if c.Laws() && Agree(records) {
      BootUpToLastSeq(c, records, accepts);
      ScanCounts(c, hs, history, top);
      BootLinesRise(c, records, accepts);
    }
  }

  /** A whole boot: load, then resume the chain. */
  method Boot(c: Codec, hs: Hasher, chain: ChainService, records: seq<Record>, accepts: Record -> bool)
    requires chain.Valid() && chain.history == [] && !chain.ready
    modifies chain
    ensures chain.Valid() && chain.ready && (chain.tip, chain.height) == Resumed(c, hs, chain.history)
    ensures LongestTailWithin(BootTexts(c, Backfilled(records), accepts), chain.history, chain.maxBytes)
    ensures BootedWell(c, records, accepts, chain.history, chain.seqno)
  {
    chain.LoadHistory(c, records, accepts);
    ghost var texts := BootTexts(c, Backfilled(records), accepts);
    assert [] + texts == texts;
    chain.InitChain(c, hs);
    BootedIsWell(c, hs, records, accepts, chain.history, chain.maxBytes, chain.seqno);
  }

  // ---------------------------------------------------------------- heights in RAM

  predicate RisingWires(ws: seq<Wire>, top: nat) {
    && (forall i, j :: 0 <= i < j < |ws| ==> ws[i].height < ws[j].height)
    && (forall i :: 0 <= i < |ws| ==> ws[i].height <= top)
  }

  predicate LineHeightsRise(c: Codec, lines: seq<string>, top: nat) {
    && (forall i, j :: 0 <= i < j < |lines| && c.TextHeight(lines[i]) != 0 && c.TextHeight(lines[j]) != 0 ==>
          c.TextHeight(lines[i]) < c.TextHeight(lines[j]))
    && (forall i :: 0 <= i < |lines| ==> c.TextHeight(lines[i]) <= top)
  }

  lemma {:induction false} LinkHeightsRise(c: Codec, lines: seq<string>, top: nat)
    requires Tidy(c, lines) && RisingWires(Links(c, lines), top)
    ensures LineHeightsRise(c, lines, top)
  {
    if lines != [] {
      var front, last := lines[..|lines| - 1], lines[|lines| - 1];
      assert forall i :: 0 <= i < |front| ==> front[i] == lines[i];
      var ws, ws', h := Links(c, front), Links(c, lines), c.TextHeight(last);
      if h == 0 {
        LinkHeightsRise(c, front, top);
      } else {
        assert ws' == ws + [c.unmarshal(last).value];
        assert forall i :: 0 <= i < |ws| ==> ws'[i] == ws[i];
        assert ws'[|ws|].height == h;
        assert forall i :: 0 <= i < |ws| ==> ws'[i].height < ws'[|ws|].height;
        LinkHeightsRise(c, front, h - 1);
      }
    }
  }

  /** The heights left in RAM of a written log rise, up to the height the chain resumes at. */
  lemma {:induction false} RemainingHeightsRise(c: Codec, hs: Hasher, start: Digest, log: seq<Wire>, lines: seq<string>)
    requires ServerLog(hs, start, log) && Remains(c, log, lines) && Tidy(c, lines)
    ensures LineHeightsRise(c, lines, Resumed(c, hs, lines).1)
  {
    var ws := Links(c, lines);
    var top := Resumed(c, hs, lines).1;
    ServerLogHeights(hs, start, log);
    assert forall i :: 0 <= i < |ws| ==> ws[i] == log[|log| - |ws| + i];
    if ws != [] {
      RestartContinuity(c, hs, start, log, lines);
    }
    LinkHeightsRise(c, lines, top);
  }

  lemma ServerLogHeights(hs: Hasher, start: Digest, log: seq<Wire>)
    requires ServerLog(hs, start, log)
    ensures forall i :: 0 <= i < |log| ==> log[i].height == i + 1
  {
    forall i | 0 <= i < |log| ensures log[i].height == i + 1 {
      RunAt(hs, start, 0, log, i);
    }
  }
}
