/** From a published wire to the page and the boot that show it again: what is written is read
    back as it was sent, and a boot from the records of a written log holds what is left of it. */
module StoredLines {
  import opened Basics
  import opened Lines
  import opened WireModel
  import opened WindowRings
  import opened DiskScan
  import opened GenIndexes
  import opened StoreIndex
  import opened HashChain
  import opened Resume
  import opened ChainServices
  import opened BootOrder
  import Hubs

  // ---------------------------------------------------------------- written, then scanned

  /** A line written whole is the last one a reader of the file sees. */
  lemma AppendShows(c: Codec, file: Bytes, line: Bytes)
    requires Terminated(file) && NEWLINE !in line
    ensures c.Texts(CompleteLines(file + line + [NEWLINE]))
         == c.Texts(CompleteLines(file)) + match c.LineText(line) case Some(t) => [t] case None => []
  {
    AppendLine(file, line);
    var lines, lines' := CompleteLines(file), CompleteLines(file + line + [NEWLINE]);
    assert lines' == lines + [line];
    c.TextsConcat(lines, [line]);
    OneText(c, line);
  }

  /** What a publication queues, once written, is shown by the active file as the last line: the
      very text that went into RAM. */
  lemma {:induction false} WrittenShows(c: Codec, s: Store, maxSize: nat, w: Wire, ts: string, reopenOk: bool,
                                        io: RotateIO)
    requires c.Laws() && Consistent(c, s) && c.encode(Record(w.seqno, ts, "", Some(w))) != []
    ensures var (s', ok) := WriteStep(c, s, maxSize, Record(w.seqno, ts, "", Some(w)), reopenOk, io, true);
            ok ==> s'.disk.active.Some? && EndsWith(c.Texts(CompleteLines(s'.disk.active.value)), c.marshal(w))
  {
    var rec := Record(w.seqno, ts, "", Some(w));
    var (ready, ok) := ReadyStep(c, s, maxSize, rec, reopenOk, io);
    ReadyStepKeeps(c, s, maxSize, rec, reopenOk, io);
    if ok && ready.disk.active.Some? {
      AppendShows(c, ready.disk.active.value, c.encode(rec));
      c.StoredWireShows(c.encode(rec), w.seqno, ts, "", w);
    }
  }

  predicate EndsWith(texts: seq<string>, data: string) {
    texts != [] && texts[|texts| - 1] == data
  }

  /** A page over such a file ends with that text, for every limit and every bound that cuts none
      of its lines. */
  lemma {:induction false} PageEndsWith(c: Codec, texts: seq<string>, data: string, bound: nat, limit: nat)
    requires EndsWith(texts, data) && limit > 0
    requires forall i :: 0 <= i < |texts| && bound != 0 ==> c.TextHeight(texts[i]) < bound
    ensures EndsWith(LastN(Upto(c, texts, bound), limit), data) && !Reached(c, texts, bound)
  {
    UptoClear(c, texts, bound);
  }

  /** Published, written and scanned: whatever the window, the newest line of the active file's
      page is the text that was published. */
  lemma {:induction false} PublishedIsPaged(c: Codec, s: Store, maxSize: nat, w: Wire, ts: string, reopenOk: bool,
                                            io: RotateIO, data: string, bound: nat, limit: int, lines: seq<string>,
                                            done: bool)
    requires c.Laws() && Consistent(c, s) && data == c.marshal(w) && limit > 0
    requires var rec := Record(w.seqno, ts, "", Some(w));
             var (s', ok) := WriteStep(c, s, maxSize, rec, reopenOk, io, true);
             && c.encode(rec) != [] && ok && s'.disk.active.Some?
             && ShowsWindow(c, s'.disk.active.value, bound, limit, lines, done)
             && forall t :: t in c.Texts(CompleteLines(s'.disk.active.value)) && bound != 0 ==> c.TextHeight(t) < bound
    ensures lines != [] && lines[|lines| - 1] == data && !done
  {
    WrittenShows(c, s, maxSize, w, ts, reopenOk, io);
    var s' := WriteStep(c, s, maxSize, Record(w.seqno, ts, "", Some(w)), reopenOk, io, true).0;
    PageEndsWith(c, c.Texts(CompleteLines(s'.disk.active.value)), data, bound, limit);
  }

  // ---------------------------------------------------------------- written, then booted

  function LinkOf(rec: Record): seq<Wire> {
    match rec.wire
    case Some(w) => if w.hash.Absent? then [] else [w]
    case None => []
  }

  /** The links among records, in order. */
  function LinkWires(records: seq<Record>): seq<Wire> {
    if records == [] then [] else LinkWires(records[..|records| - 1]) + LinkOf(records[|records| - 1])
  }

  /** Those the trip check lets through. */
  function AcceptedLinks(records: seq<Record>, accepts: Record -> bool): seq<Wire> {
    if records == [] then []
    else
      var last := records[|records| - 1];
      AcceptedLinks(records[..|records| - 1], accepts) + if accepts(last) then LinkOf(last) else []
  }

  predicate Numbered(records: seq<Record>) {
    forall i :: 0 <= i < |records| ==> forall w :: w in LinkOf(records[i]) ==> w.seqno != 0
  }

  lemma {:induction false} BackfillKeepsLinks(records: seq<Record>)
    requires Numbered(records)
    ensures LinkWires(Backfilled(records)) == LinkWires(records)
  {
    if records != [] {
      var front, last, out := records[..|records| - 1], records[|records| - 1], Backfilled(records);
      BackfillKeepsLinks(front);
      assert out[..|out| - 1] == Backfilled(front);
      assert forall w :: w in LinkOf(last) ==> w.seqno != 0;
      assert LinkOf(FillSeq(last, LastSeq(records))) == LinkOf(last);
    }
  }

  lemma LinksConcat(c: Codec, a: seq<string>, b: seq<string>)
    ensures Links(c, a + b) == Links(c, a) + Links(c, b)
    decreases |b|
  {
    if b == [] {
      assert a + b == a;
    } else {
      assert (a + b)[..|a + b| - 1] == a + b[..|b| - 1];
      LinksConcat(c, a, b[..|b| - 1]);
    }
  }

  /** A numbered record's line in RAM is its wire's, link and all. */
  lemma OneRecordBoots(c: Codec, rec: Record, accepts: Record -> bool)
    requires c.Laws() && rec.seqno != 0
    ensures Links(c, BootText(c, rec, accepts)) == if accepts(rec) then LinkOf(rec) else []
  {
    match c.RecordLine(rec)
    case Some(t) =>
      assert [t][..0] == [];
      assert Links(c, []) == [];
      if rec.wire.None? {
        assert c.unmarshal(t) == Some(SystemWire(rec.message, rec.seqno));
      } else {
        assert c.unmarshal(t) == rec.wire;
      }
    case None =>
  }

  lemma {:induction false} BootLinks(c: Codec, records: seq<Record>, accepts: Record -> bool)
    requires c.Laws() && forall i :: 0 <= i < |records| ==> records[i].seqno != 0
    ensures Links(c, BootTexts(c, records, accepts)) == AcceptedLinks(records, accepts)
  {
    if records != [] {
      var front, last := records[..|records| - 1], records[|records| - 1];
      BootLinks(c, front, accepts);
      OneRecordBoots(c, last, accepts);
      LinksConcat(c, BootTexts(c, front, accepts), BootText(c, last, accepts));
    }
  }

  predicate Rises(ws: seq<Wire>) {
    forall i, j :: 0 <= i < j < |ws| ==> ws[i].height < ws[j].height
  }

  lemma LastRises(ws: seq<Wire>, own: seq<Wire>)
    requires Rises(ws + own) && |own| <= 1
    ensures Rises(ws) && (own != [] ==> forall w :: w in ws ==> w.height < own[0].height)
  {
    var all := ws + own;
    assert forall i :: 0 <= i < |ws| ==> all[i] == ws[i];
    assert own != [] ==> all[|ws|] == own[0];
  }

  predicate IsLinkFrom(rec: Record, first: nat) {
    LinkOf(rec) != [] && LinkOf(rec)[0].height >= first
  }

  /** The trip check accepts every link from the oldest of these on. */
  predicate AcceptsFrom(records: seq<Record>, accepts: Record -> bool, kept: seq<Wire>) {
    kept != [] ==> forall i :: 0 <= i < |records| && IsLinkFrom(records[i], kept[0].height) ==> accepts(records[i])
  }

  lemma {:induction false} AcceptedAmong(records: seq<Record>, accepts: Record -> bool, w: Wire)
    requires w in AcceptedLinks(records, accepts)
    ensures w in LinkWires(records)
  {
    if w in AcceptedLinks(records[..|records| - 1], accepts) {
      AcceptedAmong(records[..|records| - 1], accepts, w);
    }
  }

  lemma {:induction false} LinkAmong(records: seq<Record>, i: nat, w: Wire)
    requires i < |records| && w in LinkOf(records[i])
    ensures w in LinkWires(records)
  {
    if i < |records| - 1 {
      LinkAmong(records[..|records| - 1], i, w);
    }
  }

  /** Where heights rise, a link is let through by its own record. */
  lemma {:induction false} AcceptedByItself(records: seq<Record>, accepts: Record -> bool, i: nat, w: Wire)
    requires Rises(LinkWires(records)) && i < |records| && w in LinkOf(records[i])
    requires w in AcceptedLinks(records, accepts)
    ensures accepts(records[i])
  {
    var front, last := records[..|records| - 1], records[|records| - 1];
    LastRises(LinkWires(front), LinkOf(last));
    if i == |front| {
      if w in AcceptedLinks(front, accepts) {
        AcceptedAmong(front, accepts, w);
      }
    } else {
      LinkAmong(front, i, w);
      AcceptedByItself(front, accepts, i, w);
    }
  }

  lemma LastNPushed(all: seq<Wire>, w: Wire, n: nat)
    requires 0 < n <= |all| + 1
    ensures LastN(all + [w], n) == LastN(all, n - 1) + [w]
  {
  }

  /** The n newest links let through are the n newest of all. */
  predicate NewestAre(records: seq<Record>, accepts: Record -> bool, n: nat) {
    n <= |LinkWires(records)| && LastN(AcceptedLinks(records, accepts), n) == LastN(LinkWires(records), n)
  }

  predicate LetsThrough(records: seq<Record>, accepts: Record -> bool, n: nat) {
    && n <= |AcceptedLinks(records, accepts)|
    && AcceptsFrom(records, accepts, LastN(AcceptedLinks(records, accepts), n))
  }

  lemma NoLinkMore(records: seq<Record>, accepts: Record -> bool, n: nat)
    requires records != [] && LinkOf(records[|records| - 1]) == [] && LetsThrough(records, accepts, n)
    ensures LetsThrough(records[..|records| - 1], accepts, n)
    ensures NewestAre(records[..|records| - 1], accepts, n) ==> NewestAre(records, accepts, n)
  {
    var front := records[..|records| - 1];
    assert AcceptedLinks(front, accepts) + [] == AcceptedLinks(front, accepts);
    assert LinkWires(front) + [] == LinkWires(front);
    FrontAccepts(records, accepts, LastN(AcceptedLinks(records, accepts), n));
  }

  lemma LinkMore(records: seq<Record>, accepts: Record -> bool, n: nat)
    requires records != [] && LinkOf(records[|records| - 1]) != [] && accepts(records[|records| - 1])
    requires n > 0 && LetsThrough(records, accepts, n)
    ensures LetsThrough(records[..|records| - 1], accepts, n - 1)
    ensures NewestAre(records[..|records| - 1], accepts, n - 1) ==> NewestAre(records, accepts, n)
  {
    var front, w := records[..|records| - 1], LinkOf(records[|records| - 1])[0];
    TakesLast(records, accepts, AcceptedLinks(front, accepts), w, n);
    if n - 1 <= |LinkWires(front)| {
      LastNPushed(LinkWires(front), w, n);
    }
  }

  lemma FrontRises(records: seq<Record>)
    requires records != [] && Rises(LinkWires(records))
    ensures Rises(LinkWires(records[..|records| - 1]))
  {
    LastRises(LinkWires(records[..|records| - 1]), LinkOf(records[|records| - 1]));
  }

  lemma FrontUnlinked(records: seq<Record>, accepts: Record -> bool, n: nat)
    requires records != [] && LinkOf(records[|records| - 1]) == []
    requires Rises(LinkWires(records)) && LetsThrough(records, accepts, n)
    ensures Rises(LinkWires(records[..|records| - 1])) && LetsThrough(records[..|records| - 1], accepts, n)
    ensures NewestAre(records[..|records| - 1], accepts, n) ==> NewestAre(records, accepts, n)
  {
    FrontRises(records);
    NoLinkMore(records, accepts, n);
  }

  lemma FrontLinked(records: seq<Record>, accepts: Record -> bool, n: nat)
    requires records != [] && LinkOf(records[|records| - 1]) != []
    requires n > 0 && Rises(LinkWires(records)) && LetsThrough(records, accepts, n)
    ensures Rises(LinkWires(records[..|records| - 1])) && LetsThrough(records[..|records| - 1], accepts, n - 1)
    ensures NewestAre(records[..|records| - 1], accepts, n - 1) ==> NewestAre(records, accepts, n)
  {
    FrontRises(records);
    LastAccepted(records, accepts, n);
    LinkMore(records, accepts, n);
  }

  /** So it is where every link from the oldest of them on is let through. */
  lemma {:induction false} NewestAccepted(records: seq<Record>, accepts: Record -> bool, n: nat)
    requires Rises(LinkWires(records)) && LetsThrough(records, accepts, n)
    ensures NewestAre(records, accepts, n)
  {
    if n > 0 {
      if LinkOf(records[|records| - 1]) == [] {
        FrontUnlinked(records, accepts, n);
        NewestAccepted(records[..|records| - 1], accepts, n);
      } else {
        FrontLinked(records, accepts, n);
        NewestAccepted(records[..|records| - 1], accepts, n - 1);
      }
    }
  }

  /** The last record's link stands above all others, so it is among those to be accepted. */
  lemma LastAccepted(records: seq<Record>, accepts: Record -> bool, n: nat)
    requires records != [] && LinkOf(records[|records| - 1]) != []
    requires n > 0 && Rises(LinkWires(records)) && LetsThrough(records, accepts, n)
    ensures accepts(records[|records| - 1])
  {
    var front, last := records[..|records| - 1], records[|records| - 1];
    if !accepts(last) {
      var shown := AcceptedLinks(front, accepts);
      assert shown + [] == shown;
      var oldest := LastN(shown, n)[0];
      AcceptedAmong(front, accepts, oldest);
      LastRises(LinkWires(front), LinkOf(last));
      assert false;
    }
  }

  lemma FrontAccepts(records: seq<Record>, accepts: Record -> bool, kept: seq<Wire>)
    requires records != [] && AcceptsFrom(records, accepts, kept)
    ensures AcceptsFrom(records[..|records| - 1], accepts, kept)
  {
    assert forall i :: 0 <= i < |records| - 1 ==> records[..|records| - 1][i] == records[i];
  }

  lemma TakesLast(records: seq<Record>, accepts: Record -> bool, shown: seq<Wire>, w: Wire, n: nat)
    requires records != [] && 0 < n <= |shown| + 1 && AcceptsFrom(records, accepts, LastN(shown + [w], n))
    ensures LastN(shown + [w], n) == LastN(shown, n - 1) + [w]
    ensures AcceptsFrom(records[..|records| - 1], accepts, LastN(shown, n - 1))
  {
    LastNPushed(shown, w, n);
    if n > 1 {
      assert LastN(shown, n - 1)[0] == LastN(shown + [w], n)[0];
      FrontAccepts(records, accepts, LastN(shown, n - 1));
    }
  }

  lemma LinksOfTail(c: Codec, texts: seq<string>, kept: seq<string>)
    requires |kept| <= |texts| && kept == texts[|texts| - |kept|..]
    ensures |Links(c, kept)| <= |Links(c, texts)| && Links(c, kept) == LastN(Links(c, texts), |Links(c, kept)|)
  {
    var front := texts[..|texts| - |kept|];
    assert texts == front + kept;
    LinksConcat(c, front, kept);
    LastNBehind(Links(c, front), Links(c, kept));
  }

  lemma LastNBehind<T>(front: seq<T>, tail: seq<T>)
    ensures LastN(front + tail, |tail|) == tail
  {
  }

  lemma LogRises(hs: Hasher, start: Digest, log: seq<Wire>)
    requires ServerLog(hs, start, log)
    ensures Rises(log) && forall i :: 0 <= i < |log| ==> log[i].height == i + 1
  {
    forall i | 0 <= i < |log| ensures log[i].height == i + 1 {
      RunAt(hs, start, 0, log, i);
    }
  }

  lemma FilledHasNumbers(records: seq<Record>)
    ensures forall i :: 0 <= i < |records| ==> Backfilled(records)[i].seqno != 0
  {
    LastSeqIsMax(records);
  }

  /** Booting from records that hold the links of a log leaves what is left of that log, a suffix
      of its very links, if and only if the trip check accepts every link from the oldest one in
      RAM on. */
  lemma {:induction false} BootLeavesIff(c: Codec, hs: Hasher, start: Digest, log: seq<Wire>, records: seq<Record>,
                                         accepts: Record -> bool, history: seq<string>, cap: nat)
    requires c.Laws() && ServerLog(hs, start, log) && LinkWires(records) == log && Numbered(records)
    requires LongestTailWithin(BootTexts(c, Backfilled(records), accepts), history, cap)
    ensures Remains(c, log, history) <==> AcceptsFrom(Backfilled(records), accepts, Links(c, history))
  {
    LogRises(hs, start, log);
    BackfillKeepsLinks(records);
    BootKeepsNewest(c, records, accepts, history, cap);
    TailIff(Backfilled(records), accepts, log, Links(c, history));
  }

  /** RAM after a boot holds the newest of the links let through. */
  lemma BootKeepsNewest(c: Codec, records: seq<Record>, accepts: Record -> bool, history: seq<string>, cap: nat)
    requires c.Laws() && LongestTailWithin(BootTexts(c, Backfilled(records), accepts), history, cap)
    ensures var shown, kept := AcceptedLinks(Backfilled(records), accepts), Links(c, history);
            |kept| <= |shown| && kept == LastN(shown, |kept|)
  {
    FilledHasNumbers(records);
    BootLinks(c, Backfilled(records), accepts);
    LinksOfTail(c, BootTexts(c, Backfilled(records), accepts), history);
  }

  /** The same about the links alone: the newest accepted ones are a suffix of all. */
  lemma TailIff(records: seq<Record>, accepts: Record -> bool, log: seq<Wire>, kept: seq<Wire>)
    requires Rises(log) && LinkWires(records) == log
    requires |kept| <= |AcceptedLinks(records, accepts)| && kept == LastN(AcceptedLinks(records, accepts), |kept|)
    ensures |kept| <= |log| && kept == log[|log| - |kept|..] <==> AcceptsFrom(records, accepts, kept)
  {
    if AcceptsFrom(records, accepts, kept) {
      NewestAccepted(records, accepts, |kept|);
    }
    if 0 < |kept| <= |log| && kept == log[|log| - |kept|..] {
      RemainsAccepts(records, accepts, log, kept);
    }
  }

  lemma RemainsAccepts(records: seq<Record>, accepts: Record -> bool, log: seq<Wire>, kept: seq<Wire>)
    requires Rises(log) && LinkWires(records) == log && 0 < |kept| <= |log| && kept == log[|log| - |kept|..]
    requires forall w :: w in kept ==> w in AcceptedLinks(records, accepts)
    ensures AcceptsFrom(records, accepts, kept)
  {
    forall i | 0 <= i < |records| && IsLinkFrom(records[i], kept[0].height) ensures accepts(records[i]) {
      var w := LinkOf(records[i])[0];
      LinkAmong(records, i, w);
      var k :| 0 <= k < |log| && log[k] == w;
      assert kept[0] == log[|log| - |kept|];
      assert k >= |log| - |kept|;
      assert kept[k - (|log| - |kept|)] == w;
      AcceptedByItself(records, accepts, i, w);
    }
  }

  /** A record the server writes: a wire under its own number, with a height only if it is a link. */
  predicate AsWritten(rec: Record) {
    match rec.wire
    case Some(w) => w.seqno == rec.seqno != 0 && (w.hash.Absent? ==> w.height == 0)
    case None => false
  }

  predicate WrittenLog(records: seq<Record>) {
    SeqsRise(records) && forall i :: 0 <= i < |records| ==> AsWritten(records[i])
  }

  lemma WrittenForward(c: Codec, records: seq<Record>, accepts: Record -> bool)
    requires WrittenLog(records)
    ensures Agree(records) && ShownForward(c, records, accepts) && Numbered(records)
  {
    forall i | 0 <= i < |records| ensures ForwardAt(c, records, accepts, i) {
      forall j | 0 <= j < i ensures Backfilled(records)[j].seqno < records[i].seqno {
        BackfilledNumber(records, j);
      }
    }
  }

  predicate TidyWire(w: Wire) {
    if w.height == 0 then w.hash.Absent? else w.prev.Hex? && w.hash.Hex?
  }

  /** Every link among the records is well formed. */
  predicate TidyRecords(records: seq<Record>) {
    forall i :: 0 <= i < |records| ==> AsWritten(records[i]) && TidyWire(records[i].wire.value)
  }

  lemma WrittenTidy(records: seq<Record>)
    requires WrittenLog(records) && WellFormed(LinkWires(records))
    ensures TidyRecords(records)
  {
    forall i | 0 <= i < |records| ensures AsWritten(records[i]) && TidyWire(records[i].wire.value) {
      var w := records[i].wire.value;
      if !w.hash.Absent? {
        LinkAmong(records, i, w);
      }
    }
  }

  lemma TidyMore(c: Codec, texts: seq<string>, more: seq<string>)
    requires Tidy(c, texts) && Tidy(c, more)
    ensures Tidy(c, texts + more)
  {
  }

  lemma OneTidy(c: Codec, rec: Record, accepts: Record -> bool)
    requires c.Laws() && AsWritten(rec) && TidyWire(rec.wire.value)
    ensures Tidy(c, BootText(c, rec, accepts))
  {
    assert c.unmarshal(c.marshal(rec.wire.value)) == rec.wire;
  }

  lemma {:induction false} BootTidy(c: Codec, records: seq<Record>, accepts: Record -> bool)
    requires c.Laws() && TidyRecords(records)
    ensures Tidy(c, BootTexts(c, records, accepts))
  {
    if records != [] {
      var front, last := records[..|records| - 1], records[|records| - 1];
      BootTidy(c, front, accepts);
      OneTidy(c, last, accepts);
      TidyMore(c, BootTexts(c, front, accepts), BootText(c, last, accepts));
    }
  }

  lemma {:induction false} WrittenStays(records: seq<Record>)
    requires WrittenLog(records)
    ensures Backfilled(records) == records
  {
    if records != [] {
      WrittenFront(records);
      WrittenStays(records[..|records| - 1]);
      FilledStays(records[|records| - 1], LastSeq(records));
    }
  }

  lemma WrittenFront(records: seq<Record>)
    requires WrittenLog(records) && records != []
    ensures WrittenLog(records[..|records| - 1]) && AsWritten(records[|records| - 1])
  {
    assert forall i :: 0 <= i < |records| - 1 ==> records[..|records| - 1][i] == records[i];
  }

  lemma FilledStays(rec: Record, n: nat)
    requires AsWritten(rec)
    ensures FillSeq(rec, n) == rec
  {
  }

  /** A boot from what a server wrote is sound, so a hub opened on it keeps every order, where the
      trip check accepts every link from the oldest one in RAM on. */
  lemma {:induction false} WrittenBootIsSound(c: Codec, hs: Hasher, start: Digest, log: seq<Wire>, records: seq<Record>,
                                              accepts: Record -> bool, history: seq<string>, cap: nat)
    requires c.Laws() && ServerLog(hs, start, log) && WrittenLog(records) && LinkWires(records) == log
    requires LongestTailWithin(BootTexts(c, Backfilled(records), accepts), history, cap)
    requires AcceptsFrom(records, accepts, Links(c, history))
    ensures Hubs.SoundBoot(c, hs, start, log, records, accepts, history)
  {
    WrittenForward(c, records, accepts);
    WrittenStays(records);
    BootLeavesIff(c, hs, start, log, records, accepts, history, cap);
    ServerLogWellFormed(hs, start, log);
    WrittenTidy(records);
    BootTidy(c, records, accepts);
    TailTidy(c, BootTexts(c, records, accepts), history);
  }

  lemma TailTidy(c: Codec, texts: seq<string>, kept: seq<string>)
    requires Tidy(c, texts) && |kept| <= |texts| && kept == texts[|texts| - |kept|..]
    ensures Tidy(c, kept)
  {
    assert forall i :: 0 <= i < |kept| ==> kept[i] == texts[|texts| - |kept| + i];
  }
}
