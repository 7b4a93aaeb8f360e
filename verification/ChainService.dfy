/** The chain writer: one object owns the tip, the counters, RAM history and the disk
    queue, and updates them together under its lock. */
module ChainServices {
  import opened Basics
  import opened Lines
  import opened WireModel
  import opened StoreIndex
  import opened HistoryStores
  import opened ChainEncoding
  import opened HashChain
  import opened Resume

  /** Bytes held, as the cap counts them. */
  function TotalSize(texts: seq<string>): nat {
    if texts == [] then 0 else ByteSize(texts[0]) + TotalSize(texts[1..])
  }

  lemma {:induction false} TotalSizeAppend(texts: seq<string>, t: string)
    ensures TotalSize(texts + [t]) == TotalSize(texts) + ByteSize(t)
  {
    if texts == [] {
      assert texts + [t] == [t] && [t][1..] == [];
    } else {
      assert (texts + [t])[1..] == texts[1..] + [t];
      TotalSizeAppend(texts[1..], t);
    }
  }

  /** `kept` is the longest tail of `all` within the byte cap. */
  predicate LongestTailWithin(all: seq<string>, kept: seq<string>, cap: nat) {
    && |kept| <= |all| && kept == all[|all| - |kept|..]
    && TotalSize(kept) <= cap
    && (|kept| < |all| ==> TotalSize(all[|all| - |kept| - 1..]) > cap)
  }

  class ChainService {
    const maxBytes: nat
    const store: HistoryStore?
    var tip: Digest
    var height: nat
    var seqno: nat
    var ready: bool
    var history: seq<string>
    var historySize: nat

    ghost predicate Valid()
      reads this
    {
      historySize == TotalSize(history) && historySize <= maxBytes
    }

    constructor (maxBytes: nat, store: HistoryStore?)
      ensures Valid() && this.maxBytes == maxBytes && this.store == store
      ensures history == [] && seqno == 0 && !ready
    {
      this.maxBytes, this.store := maxBytes, store;
      tip, height, seqno, ready, history, historySize := 0, 0, 0, false, [], 0;
    }

    /** Appends one line, then evicts from the front until the bytes fit. */
    method AppendMessage(msg: string)
      requires Valid()
      modifies this`history, this`historySize
      ensures Valid() && LongestTailWithin(old(history) + [msg], history, maxBytes)
    {
      ghost var all := history + [msg];
      TotalSizeAppend(history, msg);
      history := history + [msg];
      historySize := historySize + ByteSize(msg);
      while historySize > maxBytes && |history| > 0
        invariant |history| <= |all| && history == all[|all| - |history|..]
        invariant historySize == TotalSize(history)
        invariant |history| < |all| ==> TotalSize(all[|all| - |history| - 1..]) > maxBytes
      {
        assert all[|all| - |history|..][1..] == all[|all| - |history| + 1..];
        historySize := historySize - ByteSize(history[0]);
        history := history[1..];
      }
    }

    method AssignSeq() returns (s: nat)
      modifies this`seqno
      ensures s == seqno == old(seqno) + 1
    {
      seqno := seqno + 1;
      return seqno;
    }

    /** Resumes tip and height from stored history, in one pass over it. */
    method InitChain(c: Codec, hs: Hasher)
      modifies this`tip, this`height, this`ready, this`seqno
      ensures (tip, height) == Resumed(c, hs, history) && ready
      ensures var seen := ScanAll(c, hs, history).maxSeq;
              seqno == if seen > old(seqno) then seen else old(seqno)
    {
      var t, h: nat, maxSeq: nat := hs.genesis, 0, 0;
      var anchor, anchored, broken := "", false, false;
      assert history[..0] == [];
      for i := 0 to |history|
        invariant Scan(t, h, anchor, anchored, broken, maxSeq) == ScanAll(c, hs, history[..i])
      {
        assert history[..i + 1][..i] == history[..i];
        var line := history[i];
        var parsed := c.unmarshal(line);
        if parsed.None? {
          anchor, anchored := line, true;
          continue;
        }
        var w := parsed.value;
        if w.seqno > maxSeq {
          maxSeq := w.seqno;
        }
        if w.typ == "system" && w.hash.Absent? {
          continue;
        }
        if w.hash.Absent? {
          anchor, anchored := line, true;
          continue;
        }
        var prev, want := w.prev.Parse(), w.hash.Parse();
        if prev.None? || want.None? {
          broken, anchored := true, false;
          continue;
        }
        var expectPrev := t;
        if anchored {
          expectPrev, anchored := hs.anchor(anchor), false;
        }
        if prev.value != expectPrev || w.height != h + 1 {
          broken := true;
          t, h := want.value, w.height;
          continue;
        }
        if !VerifyWire(hs, prev.value, w, want.value) {
          broken := true;
        }
        t, h := want.value, w.height;
      }
      assert history[..|history|] == history;
      if anchored && h == 0 {
        t := hs.anchor(anchor);
      }
      tip, height, ready := t, h, true;
      if maxSeq > seqno {
        seqno := maxSeq;
      }
    }

    /** Where the next link goes: the live tip, or the resumed one on first use. */
    ghost function NextAt(c: Codec, hs: Hasher): (Digest, nat)
      reads this
    {
      if ready then (tip, height) else Resumed(c, hs, history)
    }

    ghost function NextSeq(c: Codec, hs: Hasher): nat
      reads this
    {
      var seen := ScanAll(c, hs, history).maxSeq;
      1 + if !ready && seen > seqno then seen else seqno
    }

    /** Queues one record for the disk writer, when there is one. */
    method QueueRecord(rec: Record)
      modifies if store == null then {} else {store}
      ensures store != null ==> Queued(old(store.queue), old(store.closed), store.queue, rec)
    {
      if store != null {
        store.Enqueue(rec);
      }
    }

    /** Puts one numbered wire into RAM history and the disk queue. */
    method Publish(c: Codec, wire: Wire, ts: string) returns (data: string)
      requires Valid()
      modifies this`history, this`historySize
      modifies if store == null then {} else {store}
      ensures Valid() && data == c.marshal(wire) && LongestTailWithin(old(history) + [data], history, maxBytes)
      ensures store != null ==> Queued(old(store.queue), old(store.closed), store.queue,
                                       Record(wire.seqno, ts, "", Some(wire)))
    {
      data := c.marshal(wire);
      AppendMessage(data);
      QueueRecord(Record(wire.seqno, ts, "", Some(wire)));
    }

    /** Stamps one message as the next link. */
    method Link(c: Codec, hs: Hasher, msg: Wire) returns (wire: Wire)
      modifies this`tip, this`height, this`ready, this`seqno
      ensures ready
      ensures IsNext(hs, old(NextAt(c, hs)).0, old(NextAt(c, hs)).1, old(NextSeq(c, hs)), msg, wire)
      ensures Hex(tip) == wire.hash && height == wire.height && seqno == wire.seqno
    {
      if !ready {
        InitChain(c, hs);
      }
      height := height + 1;
      var p := tip;
      wire := msg.(prev := Hex(p), height := height, ver := CHAIN_VERSION);
      var h := hs.link(PreimageOf(wire, p));
      var s := AssignSeq();
      wire := wire.(hash := Hex(h), seqno := s);
      tip := h;
    }

    /** Links, numbers, stores and queues one message, all under the lock. */
    method LinkAndStore(c: Codec, hs: Hasher, msg: Wire, ts: string) returns (wire: Wire, data: string)
      requires Valid()
      modifies this`tip, this`height, this`ready, this`seqno, this`history, this`historySize
      modifies if store == null then {} else {store}
      ensures Valid() && ready
      ensures IsNext(hs, old(NextAt(c, hs)).0, old(NextAt(c, hs)).1, old(NextSeq(c, hs)), msg, wire)
      ensures Hex(tip) == wire.hash && height == wire.height && seqno == wire.seqno
      ensures data == c.marshal(wire) && LongestTailWithin(old(history) + [data], history, maxBytes)
      ensures store != null ==> Queued(old(store.queue), old(store.closed), store.queue,
                                       Record(wire.seqno, ts, "", Some(wire)))
      ensures && wire.typ == msg.typ && wire.time == msg.time && wire.display == msg.display && wire.text == msg.text
              && wire.tags == msg.tags && wire.tripSig == msg.tripSig && wire.tmpID == msg.tmpID
              && wire.replyTo == msg.replyTo && wire.ver == 2 && wire.seqno == old(NextSeq(c, hs))
      ensures var p, n := old(NextAt(c, hs)).0, old(NextAt(c, hs)).1 + 1;
              && wire.prev == Hex(p) && wire.height == n
              && wire.hash == Hex(hs.link(V2(p, n, msg.tmpID, msg.replyTo, msg.typ, msg.time, msg.display, msg.text,
                                             msg.tripSig)))
    {
      wire := Link(c, hs, msg);
      LinkFields(hs, old(NextAt(c, hs)).0, old(NextAt(c, hs)).1, old(NextSeq(c, hs)), msg);
      data := Publish(c, wire, ts);
    }

    /** Numbers, stores and queues one unchained line under the same lock. */
    method StoreSystem(c: Codec, msg: Wire, ts: string) returns (wire: Wire, data: string)
      requires Valid()
      modifies this`seqno, this`history, this`historySize
      modifies if store == null then {} else {store}
      ensures Valid() && wire == msg.(seqno := old(seqno) + 1) && seqno == old(seqno) + 1
      ensures data == c.marshal(wire) && LongestTailWithin(old(history) + [data], history, maxBytes)
      ensures store != null ==> Queued(old(store.queue), old(store.closed), store.queue,
                                       Record(wire.seqno, ts, "", Some(wire)))
    {
      var s := AssignSeq();
      wire := msg.(seqno := s);
      data := Publish(c, wire, ts);
    }

    /** Keeps one loaded record in RAM if it renders and the trip check accepts it. */
    method KeepRecord(c: Codec, rec: Record, accepts: Record -> bool)
      requires Valid()
      modifies this`history, this`historySize
      ensures Valid()
      ensures Kept(BootText(c, rec, accepts), old(history), history, maxBytes)
    {
      var text := c.RecordLine(rec);
      if text.Some? && accepts(rec) {
        AppendMessage(text.value);
      }
    }

    /** One loaded record, numbered and kept. */
    method LoadRecord(c: Codec, records: seq<Record>, i: nat, lastSeq: nat, accepts: Record -> bool,
                      ghost start: seq<string>)
      returns (lastSeq': nat)
      requires Valid() && i < |records| && LoadedSoFar(c, start, records, i, accepts, lastSeq, history, maxBytes)
      modifies this`history, this`historySize
      ensures Valid() && LoadedSoFar(c, start, records, i + 1, accepts, lastSeq', history, maxBytes)
    {
      ghost var was := history;
      var rec;
      rec, lastSeq' := NumberRecord(records[i], lastSeq);
      KeepRecord(c, rec, accepts);
      LoadedOne(c, start, records, i, accepts, lastSeq, lastSeq', was, rec, history, maxBytes);
    }

    /** Every loaded record, in order. */
    method LoadEach(c: Codec, records: seq<Record>, accepts: Record -> bool) returns (lastSeq: nat)
      requires Valid()
      modifies this`history, this`historySize
      ensures Valid() && LoadedSoFar(c, old(history), records, |records|, accepts, lastSeq, history, maxBytes)
    {
      lastSeq := 0;
      NothingLoaded(c, history, records, accepts, maxBytes);
      for i := 0 to |records|
        invariant Valid() && LoadedSoFar(c, old(history), records, i, accepts, lastSeq, history, maxBytes)
      {
        lastSeq := LoadRecord(c, records, i, lastSeq, accepts, old(history));
      }
    }

    /** Boot: numbers the loaded records, keeps the longest tail of the renderable ones the
        trip check accepts that fits the byte cap, and leaves the counter at the highest
        number seen. */
    method LoadHistory(c: Codec, records: seq<Record>, accepts: Record -> bool)
      requires Valid()
      modifies this`history, this`historySize, this`seqno
      ensures Valid() && seqno == LastSeq(records)
      ensures LongestTailWithin(old(history) + BootTexts(c, Backfilled(records), accepts), history, maxBytes)
    {
      seqno := LoadEach(c, records, accepts);
      AllLoaded(c, old(history), records, accepts, seqno, history, maxBytes);
    }
  }

  predicate Kept(more: seq<string>, was: seq<string>, now: seq<string>, cap: nat) {
    if more == [] then now == was else LongestTailWithin(was + more, now, cap)
  }

  /** A record from before sequence numbers takes the next one; any other may raise the count. */
  method NumberRecord(rec: Record, lastSeq: nat) returns (rec': Record, lastSeq': nat)
    ensures NumberedFrom(rec, lastSeq, rec', lastSeq')
  {
    rec', lastSeq' := rec, lastSeq;
    if rec'.seqno == 0 {
      lastSeq' := lastSeq' + 1;
      rec' := rec'.(seqno := lastSeq');
    } else if rec'.seqno > lastSeq' {
      lastSeq' := rec'.seqno;
    }
    if rec'.wire.Some? && rec'.wire.value.seqno == 0 {
      rec' := rec'.(wire := Some(rec'.wire.value.(seqno := rec'.seqno)));
    }
  }

  lemma {:induction false} TotalSizeConcat(a: seq<string>, b: seq<string>)
    ensures TotalSize(a + b) == TotalSize(a) + TotalSize(b)
  {
    if a == [] {
      assert a + b == b;
    } else {
      assert (a + b)[1..] == a[1..] + b;
      TotalSizeConcat(a[1..], b);
    }
  }

  lemma DropConcat(a: seq<string>, b: seq<string>, k: nat)
    requires k <= |a|
    ensures (a + b)[k..] == a[k..] + b
  {
  }

  lemma DropTwice(s: seq<string>, k: nat, j: nat)
    requires k + j <= |s|
    ensures s[k..][j..] == s[k + j..]
  {
  }

  /** Fitting line by line keeps what fitting all at once would keep. */
  lemma {:induction false} TailsCompose(all: seq<string>, was: seq<string>, more: seq<string>, now: seq<string>,
                                        cap: nat)
    requires LongestTailWithin(all, was, cap) && LongestTailWithin(was + more, now, cap)
    ensures LongestTailWithin(all + more, now, cap)
  {
    var whole, k, j := all + more, |all| - |was|, |was| + |more| - |now|;
    DropConcat(all, more, k);
    DropTwice(whole, k, j);
    if j > 0 {
      DropTwice(whole, k, j - 1);
    } else if k > 0 {
      DropConcat(all, more, k - 1);
      TotalSizeConcat(all[k - 1..], more);
    }
  }

  /** Boot after the first i records. */
  predicate LoadedSoFar(c: Codec, start: seq<string>, records: seq<Record>, i: nat, accepts: Record -> bool,
                   lastSeq: nat, now: seq<string>, cap: nat)
  {
    && i <= |records| && lastSeq == LastSeq(records[..i])
    && LongestTailWithin(start + BootTexts(c, Backfilled(records[..i]), accepts), now, cap)
  }

  lemma NothingLoaded(c: Codec, start: seq<string>, records: seq<Record>, accepts: Record -> bool, cap: nat)
    requires TotalSize(start) <= cap
    ensures LoadedSoFar(c, start, records, 0, accepts, 0, start, cap)
  {
    assert records[..0] == [] && start + [] == start;
  }

  lemma AllLoaded(c: Codec, start: seq<string>, records: seq<Record>, accepts: Record -> bool, lastSeq: nat,
                  now: seq<string>, cap: nat)
    requires LoadedSoFar(c, start, records, |records|, accepts, lastSeq, now, cap)
    ensures lastSeq == LastSeq(records)
    ensures LongestTailWithin(start + BootTexts(c, Backfilled(records), accepts), now, cap)
  {
    assert records[..|records|] == records;
  }

  predicate NumberedFrom(rec: Record, lastSeq: nat, rec': Record, lastSeq': nat) {
    && lastSeq' == (if rec.seqno == 0 then lastSeq + 1 else if rec.seqno > lastSeq then rec.seqno else lastSeq)
    && rec' == FillSeq(rec, lastSeq')
  }

  lemma LoadedOne(c: Codec, start: seq<string>, records: seq<Record>, i: nat, accepts: Record -> bool, lastSeq: nat,
                  lastSeq': nat, was: seq<string>, rec: Record, now: seq<string>, cap: nat)
    requires i < |records| && LoadedSoFar(c, start, records, i, accepts, lastSeq, was, cap)
    requires NumberedFrom(records[i], lastSeq, rec, lastSeq') && Kept(BootText(c, rec, accepts), was, now, cap)
    ensures LoadedSoFar(c, start, records, i + 1, accepts, lastSeq', now, cap)
  {
    BootStep(c, records, i, accepts);
    BootKeeps(start, BootTexts(c, Backfilled(records[..i]), accepts), was, BootText(c, rec, accepts), now, cap);
  }

  lemma BootKeeps(a: seq<string>, b: seq<string>, was: seq<string>, more: seq<string>, now: seq<string>, cap: nat)
    requires LongestTailWithin(a + b, was, cap)
    requires Kept(more, was, now, cap)
    ensures LongestTailWithin(a + (b + more), now, cap)
  {
    assert a + (b + more) == (a + b) + more;
    if more == [] {
      assert b + more == b;
    } else {
      TailsCompose(a + b, was, more, now, cap);
    }
  }

  /** The history line one numbered record yields, if any. */
  function BootText(c: Codec, rec: Record, accepts: Record -> bool): seq<string> {
    match c.RecordLine(rec)
    case Some(t) => if accepts(rec) then [t] else []
    case None => []
  }

  /** The history lines boot produces from numbered records. */
  function BootTexts(c: Codec, records: seq<Record>, accepts: Record -> bool): seq<string> {
    if records == [] then []
    else BootTexts(c, records[..|records| - 1], accepts) + BootText(c, records[|records| - 1], accepts)
  }

  lemma BootStep(c: Codec, records: seq<Record>, i: nat, accepts: Record -> bool)
    requires i < |records|
    ensures var own := records[i].seqno;
            var before := LastSeq(records[..i]);
            LastSeq(records[..i + 1]) == if own == 0 then before + 1 else if own > before then own else before
    ensures BootTexts(c, Backfilled(records[..i + 1]), accepts)
         == BootTexts(c, Backfilled(records[..i]), accepts)
              + BootText(c, FillSeq(records[i], LastSeq(records[..i + 1])), accepts)
  {
    assert records[..i + 1][..i] == records[..i];
    var out := Backfilled(records[..i + 1]);
    assert out[..|out| - 1] == Backfilled(records[..i]);
  }

  /** The queue took the record, unless it was closed or full. */
  predicate Queued(before: seq<Record>, closed: bool, after: seq<Record>, rec: Record) {
    after == if !closed && |before| < QUEUE_SIZE then before + [rec] else before
  }
}
