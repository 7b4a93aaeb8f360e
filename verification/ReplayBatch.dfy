/** Sending a replay: stored lines coalesce into newline-separated frames under two caps,
    sends may be refused, and a trailer closes the window with what was queued. */
module ReplayBatch {
  import opened Basics
  import opened WireModel
  import opened ChainEncoding

  datatype Caps = Caps(lines: nat, bytes: nat)

  datatype PageMeta = PageMeta(direction: string, nextSeq: nat, more: bool)

  datatype Trailer = Trailer(minHeight: nat, maxHeight: nat, sent: nat, total: nat, dropped: nat,
                             firstSeq: nat, lastSeq: nat, page: PageMeta)

  const TAG_JOIN := "system.join"
  const TAG_LEAVE := "system.leave"

  /** Join and leave notices are left out unless the session asked for them. */
  predicate Skipped(c: Codec, wantJoins: bool, line: string) {
    match c.unmarshal(line)
    case Some(w) => w.typ == "system" && !wantJoins && (TAG_JOIN in w.tags || TAG_LEAVE in w.tags)
    case None => false
  }

  function Unfiltered(c: Codec, wantJoins: bool, lines: seq<string>): seq<string> {
    if lines == [] then []
    else
      var front, last := Unfiltered(c, wantJoins, lines[..|lines| - 1]), lines[|lines| - 1];
      if Skipped(c, wantJoins, last) then front else front + [last]
  }

  /** What is left out, and nothing else: system wires tagged as a join or a leave, for a session
      that did not ask for them. What stays keeps its order. */
  lemma {:induction false} UnfilteredMeaning(c: Codec, wantJoins: bool, lines: seq<string>) returns (at: seq<nat>)
    ensures Picks(lines, at, Unfiltered(c, wantJoins, lines)) && Rises(at)
    ensures forall i :: 0 <= i < |lines| ==>
              (i !in at <==>
                 match c.unmarshal(lines[i])
                 case Some(w) => !wantJoins && w.typ == "system"
                                 && ("system.join" in w.tags || "system.leave" in w.tags)
                 case None => false)
  {
    if lines == [] {
      at := [];
    } else {
      var n := |lines| - 1;
      var h := lines[..n];
      var front := UnfilteredMeaning(c, wantJoins, h);
      PicksMore(h, lines[n], front, Unfiltered(c, wantJoins, h));
      assert h + [lines[n]] == lines;
      at := if Skipped(c, wantJoins, lines[n]) then front else front + [n];
      forall i | 0 <= i < |lines|
        ensures i !in at <==> Skipped(c, wantJoins, lines[i])
      {
        InMore(front, n, i);
        assert i < n ==> h[i] == lines[i];
        assert i == n ==> i !in front;
      }
    }
  }

  /** What travels for a line: chat as stored, everything else cleaned. */
  function Payload(c: Codec, clean: string -> string, line: string): string {
    match c.unmarshal(line)
    case Some(w) => if w.typ == "chat" then line else clean(line)
    case None => clean(line)
  }

  function Payloads(c: Codec, clean: string -> string, lines: seq<string>): (r: seq<string>)
    ensures |r| == |lines|
    ensures forall i :: 0 <= i < |lines| ==> r[i] == Payload(c, clean, lines[i])
  {
    seq(|lines|, i requires 0 <= i < |lines| => Payload(c, clean, lines[i]))
  }

  /** So what travels, line by line: said of the stored lines alone. */
  lemma OfferedMeaning(c: Codec, clean: string -> string, wantJoins: bool, lines: seq<string>, offered: seq<string>)
    returns (at: seq<nat>)
    requires offered == Payloads(c, clean, Unfiltered(c, wantJoins, lines))
    ensures Rises(at) && |offered| == |at|
    ensures forall i :: 0 <= i < |lines| ==>
              (i !in at <==>
                 match c.unmarshal(lines[i])
                 case Some(w) => !wantJoins && w.typ == "system"
                                 && ("system.join" in w.tags || "system.leave" in w.tags)
                 case None => false)
    ensures forall k :: 0 <= k < |at| ==>
              && at[k] < |lines|
              && offered[k] == match c.unmarshal(lines[at[k]])
                               case Some(w) => if w.typ == "chat" then lines[at[k]] else clean(lines[at[k]])
                               case None => clean(lines[at[k]])
  {
    at := UnfilteredMeaning(c, wantJoins, lines);
    forall k | 0 <= k < |at| ensures at[k] < |lines| && offered[k] == Payload(c, clean, lines[at[k]]) {
    }
  }

  lemma PayloadsMore(c: Codec, clean: string -> string, lines: seq<string>, line: string)
    ensures Payloads(c, clean, lines + [line]) == Payloads(c, clean, lines) + [Payload(c, clean, line)]
  {
  }

  lemma UnfilteredMore(c: Codec, wantJoins: bool, lines: seq<string>, i: nat)
    requires i < |lines|
    ensures Unfiltered(c, wantJoins, lines[..i + 1])
         == Unfiltered(c, wantJoins, lines[..i]) + if Skipped(c, wantJoins, lines[i]) then [] else [lines[i]]
  {
    assert lines[..i + 1][..i] == lines[..i];
  }

  // ---------------------------------------------------------------- frames

  /** A batch of lines, each ended by a newline, or one legacy line on its own. */
  datatype Group = Batch(lines: seq<string>) | Alone(line: string) {
    function Bytes(): string {
      match this
      case Batch(lines) => Joined(lines)
      case Alone(line) => line
    }

    function Lines(): seq<string> {
      match this
      case Batch(lines) => lines
      case Alone(line) => [line]
    }

    /** Both caps hold, except that one line may be as long as it is. */
    predicate Fits(caps: Caps) {
      match this
      case Batch(lines) => |lines| == 1 || (1 < |lines| <= caps.lines && ByteSize(Joined(lines)) <= caps.bytes)
      case Alone(_) => true
    }
  }

  function Joined(lines: seq<string>): string {
    if lines == [] then "" else Joined(lines[..|lines| - 1]) + lines[|lines| - 1] + "\n"
  }

  lemma JoinedMore(lines: seq<string>, line: string)
    ensures Joined(lines + [line]) == Joined(lines) + line + "\n"
  {
    assert (lines + [line])[..|lines|] == lines;
  }

  /** A batch that stays within the caps takes one more line. */
  lemma BatchTakes(lines: seq<string>, batch: string, line: string, caps: Caps)
    requires batch == Joined(lines)
    requires lines != [] ==> |lines| < caps.lines && ByteSize(batch) + ByteSize(line) + 1 <= caps.bytes
    ensures batch + line + "\n" == Joined(lines + [line]) && Batch(lines + [line]).Fits(caps)
  {
    JoinedMore(lines, line);
    LineByteSize(batch, line);
  }

  function AllLines(groups: seq<Group>): seq<string> {
    if groups == [] then [] else AllLines(groups[..|groups| - 1]) + groups[|groups| - 1].Lines()
  }

  lemma AllLinesMore(groups: seq<Group>, g: Group)
    ensures AllLines(groups + [g]) == AllLines(groups) + g.Lines()
  {
    assert (groups + [g])[..|groups|] == groups;
  }

  /** The elements whose flag is set, in order. */
  function Kept<T>(s: seq<T>, mask: seq<bool>): seq<T>
    requires |s| == |mask|
  {
    if s == [] then []
    else
      var n := |s| - 1;
      Kept(s[..n], mask[..n]) + if mask[n] then [s[n]] else []
  }

  function Flags(n: nat, b: bool): (r: seq<bool>)
    ensures |r| == n && forall i :: 0 <= i < n ==> r[i] == b
  {
    seq(n, _ => b)
  }

  lemma {:induction false} KeptMore<T>(s: seq<T>, mask: seq<bool>, more: seq<T>, b: bool)
    requires |s| == |mask|
    ensures Kept(s + more, mask + Flags(|more|, b)) == Kept(s, mask) + if b then more else []
    decreases |more|
  {
    if more == [] {
      assert s + more == s && mask + Flags(0, b) == mask;
    } else {
      var n := |more| - 1;
      KeptMore(s, mask, more[..n], b);
      assert (s + more)[..|s| + n] == s + more[..n];
      assert (mask + Flags(|more|, b))[..|s| + n] == mask + Flags(n, b);
      assert more[..n] + [more[n]] == more;
    }
  }

  function Count(mask: seq<bool>, b: bool): nat {
    if mask == [] then 0 else Count(mask[..|mask| - 1], b) + if mask[|mask| - 1] == b then 1 else 0
  }

  lemma {:induction false} CountMore(mask: seq<bool>, n: nat, b: bool, x: bool)
    ensures Count(mask + Flags(n, b), x) == Count(mask, x) + if b == x then n else 0
  {
    if n == 0 {
      assert mask + Flags(0, b) == mask;
    } else {
      CountMore(mask, n - 1, b, x);
      assert (mask + Flags(n, b))[..|mask| + n - 1] == mask + Flags(n - 1, b);
    }
  }

  /** The flags add up; with nothing dropped everything is kept. */
  lemma {:induction false} MaskAddsUp<T>(s: seq<T>, mask: seq<bool>)
    requires |s| == |mask|
    ensures Count(mask, true) + Count(mask, false) == |s| && |Kept(s, mask)| == Count(mask, true)
    ensures Count(mask, false) == 0 ==> Kept(s, mask) == s
  {
    if s != [] {
      MaskAddsUp(s[..|s| - 1], mask[..|s| - 1]);
    }
  }

  // ---------------------------------------------------------------- window bounds

  /** The bounds a trailer reports: of chained heights, and of sequence numbers. */
  datatype Bounds = Bounds(minHeight: nat, maxHeight: nat, firstSeq: nat, lastSeq: nat)

  function BoundsOf(c: Codec, lines: seq<string>): Bounds {
    if lines == [] then Bounds(0, 0, 0, 0)
    else Widened(BoundsOf(c, lines[..|lines| - 1]), c.unmarshal(lines[|lines| - 1]))
  }

  function Widened(b: Bounds, w: Option<Wire>): Bounds {
    match w
    case None => b
    case Some(w) =>
      var b' := if w.height == 0 then b
                else b.(minHeight := if b.minHeight == 0 || w.height < b.minHeight then w.height else b.minHeight,
                        maxHeight := if w.height > b.maxHeight then w.height else b.maxHeight);
      if w.seqno == 0 then b'
      else b'.(firstSeq := if b.firstSeq == 0 then w.seqno else b.firstSeq, lastSeq := w.seqno)
  }

  function SeqOf(c: Codec, line: string): nat {
    match c.unmarshal(line)
    case Some(w) => w.seqno
    case None => 0
  }

  lemma BoundsMore(c: Codec, lines: seq<string>, line: string)
    ensures BoundsOf(c, lines + [line]) == Widened(BoundsOf(c, lines), c.unmarshal(line))
  {
    assert (lines + [line])[..|lines|] == lines;
  }

  /** The height bounds are the least and the greatest chained height of the lines. */
  lemma {:induction false} HeightBoundsMeaning(c: Codec, lines: seq<string>)
    ensures var b := BoundsOf(c, lines);
            && (forall i :: 0 <= i < |lines| && c.TextHeight(lines[i]) != 0 ==>
                  0 < b.minHeight <= c.TextHeight(lines[i]) <= b.maxHeight)
            && (b.minHeight == 0 <==> b.maxHeight == 0)
            && (b.minHeight != 0 ==> exists i, j :: 0 <= i < |lines| && 0 <= j < |lines|
                                       && c.TextHeight(lines[i]) == b.minHeight
                                       && c.TextHeight(lines[j]) == b.maxHeight)
  {
    if lines != [] {
      var n := |lines| - 1;
      HeightBoundsMeaning(c, lines[..n]);
      var b, b' := BoundsOf(c, lines[..n]), BoundsOf(c, lines);
      if b.minHeight != 0 {
        var i, j :| 0 <= i < n && 0 <= j < n && c.TextHeight(lines[..n][i]) == b.minHeight
            && c.TextHeight(lines[..n][j]) == b.maxHeight;
        assert c.TextHeight(lines[i]) == b.minHeight && c.TextHeight(lines[j]) == b.maxHeight;
      }
      assert b'.minHeight == b.minHeight || c.TextHeight(lines[n]) == b'.minHeight;
      assert b'.maxHeight == b.maxHeight || c.TextHeight(lines[n]) == b'.maxHeight;
    }
  }

  /** The sequence bounds are the numbers of the first and the last numbered line. */
  lemma {:induction false} FirstSeqMeaning(c: Codec, lines: seq<string>)
    ensures var b := BoundsOf(c, lines);
            && (b.firstSeq == 0 ==> forall i :: 0 <= i < |lines| ==> SeqOf(c, lines[i]) == 0)
            && (b.firstSeq != 0 ==> exists i :: 0 <= i < |lines| && SeqOf(c, lines[i]) == b.firstSeq
                                      && forall k :: 0 <= k < i ==> SeqOf(c, lines[k]) == 0)
  {
    if lines != [] {
      var n := |lines| - 1;
      var front := lines[..n];
      FirstSeqMeaning(c, front);
      assert forall k :: 0 <= k < n ==> front[k] == lines[k];
      if BoundsOf(c, front).firstSeq != 0 {
        var i :| 0 <= i < n && SeqOf(c, front[i]) == BoundsOf(c, front).firstSeq
            && forall k :: 0 <= k < i ==> SeqOf(c, front[k]) == 0;
        assert SeqOf(c, lines[i]) == BoundsOf(c, lines).firstSeq;
      } else {
        assert SeqOf(c, lines[n]) == BoundsOf(c, lines).firstSeq;
      }
    }
  }

  /** Line j is the last numbered one, and this is its number. */
  predicate LastNumbered(c: Codec, lines: seq<string>, j: nat, seqno: nat) {
    && j < |lines| && SeqOf(c, lines[j]) == seqno
    && forall k :: j < k < |lines| ==> SeqOf(c, lines[k]) == 0
  }

  lemma LastNumberedMore(c: Codec, front: seq<string>, last: string, j: nat, seqno: nat)
    requires LastNumbered(c, front, j, seqno) && SeqOf(c, last) == 0
    ensures LastNumbered(c, front + [last], j, seqno)
  {
  }

  lemma {:induction false} LastSeqMeaning(c: Codec, lines: seq<string>)
    ensures var b := BoundsOf(c, lines);
            && (b.lastSeq == 0 <==> b.firstSeq == 0)
            && (b.lastSeq != 0 ==> exists j :: LastNumbered(c, lines, j, b.lastSeq))
  {
    if lines != [] {
      var n := |lines| - 1;
      var front, last := lines[..n], lines[n];
      LastSeqMeaning(c, front);
      assert lines == front + [last];
      if SeqOf(c, last) != 0 {
        assert LastNumbered(c, lines, n, BoundsOf(c, lines).lastSeq);
      } else if BoundsOf(c, front).lastSeq != 0 {
        var j: nat :| LastNumbered(c, front, j, BoundsOf(c, front).lastSeq);
        LastNumberedMore(c, front, last, j, BoundsOf(c, front).lastSeq);
      }
    }
  }

  // ---------------------------------------------------------------- sending

  predicate FramesAre(frames: seq<string>, groups: seq<Group>) {
    |frames| == |groups| && forall i :: 0 <= i < |frames| ==> frames[i] == groups[i].Bytes()
  }

  predicate AllFit(groups: seq<Group>, caps: Caps) {
    forall i :: 0 <= i < |groups| ==> groups[i].Fits(caps)
  }

  /** What has been delivered of the lines settled so far: `mask` tells which. */
  predicate Delivered(frames: seq<string>, groups: seq<Group>, caps: Caps, done: seq<string>, mask: seq<bool>) {
    && |done| == |mask| && FramesAre(frames, groups) && AllFit(groups, caps)
    && AllLines(groups) == Kept(done, mask)
  }

  /** One more frame taken by the peer's queue. */
  lemma DeliverTaken(frames: seq<string>, groups: seq<Group>, caps: Caps, done: seq<string>, mask: seq<bool>, g: Group)
    requires Delivered(frames, groups, caps, done, mask) && g.Fits(caps)
    ensures Delivered(frames + [g.Bytes()], groups + [g], caps, done + g.Lines(), mask + Flags(|g.Lines()|, true))
  {
    KeptMore(done, mask, g.Lines(), true);
    AllLinesMore(groups, g);
  }

  /** One more frame refused. */
  lemma DeliverRefused(frames: seq<string>, groups: seq<Group>, caps: Caps, done: seq<string>, mask: seq<bool>,
                       g: Group)
    requires Delivered(frames, groups, caps, done, mask)
    ensures Delivered(frames, groups, caps, done + g.Lines(), mask + Flags(|g.Lines()|, false))
  {
    KeptMore(done, mask, g.Lines(), false);
  }

  /** A peer whose queue never fills. */
  ghost predicate TakesAll(accept: nat -> bool) {
    forall n: nat :: accept(n)
  }

  /** The counters of what was sent and dropped, beside what has been delivered. */
  ghost predicate Accounted(frames: seq<string>, groups: seq<Group>, caps: Caps, done: seq<string>, mask: seq<bool>,
                            sent: nat, dropped: nat, accept: nat -> bool)
  {
    && Delivered(frames, groups, caps, done, mask) && sent == Count(mask, true) && dropped == Count(mask, false)
    && (TakesAll(accept) ==> dropped == 0)
  }

  lemma AccountTaken(frames: seq<string>, groups: seq<Group>, caps: Caps, done: seq<string>, mask: seq<bool>,
                     sent: nat, dropped: nat, accept: nat -> bool, g: Group, frame: string, n: nat)
    requires Accounted(frames, groups, caps, done, mask, sent, dropped, accept) && g.Fits(caps)
    requires frame == g.Bytes() && n == |g.Lines()|
    ensures Accounted(frames + [frame], groups + [g], caps, done + g.Lines(), mask + Flags(n, true), sent + n, dropped,
                      accept)
  {
    DeliverTaken(frames, groups, caps, done, mask, g);
    CountMore(mask, n, true, true);
    CountMore(mask, n, true, false);
  }

  lemma AccountRefused(frames: seq<string>, groups: seq<Group>, caps: Caps, done: seq<string>, mask: seq<bool>,
                       sent: nat, dropped: nat, accept: nat -> bool, g: Group, n: nat)
    requires Accounted(frames, groups, caps, done, mask, sent, dropped, accept) && !TakesAll(accept) && n == |g.Lines()|
    ensures Accounted(frames, groups, caps, done + g.Lines(), mask + Flags(n, false), sent, dropped + n, accept)
  {
    DeliverRefused(frames, groups, caps, done, mask, g);
    CountMore(mask, n, false, true);
    CountMore(mask, n, false, false);
  }

  /** The peer's queue and the scratch batch during one replay. */
  class Sender {
    const caps: Caps
    const accept: nat -> bool
    var sends: nat
    var frames: seq<string>
    var batch: string
    var batchN: nat
    var sent: nat
    var dropped: nat

    ghost var pending: seq<string>
    ghost var done: seq<string>
    ghost var mask: seq<bool>
    ghost var groups: seq<Group>

    /** Everything settled so far is accounted for. */
    ghost predicate Settled()
      reads this
    {
      Accounted(frames, groups, caps, done, mask, sent, dropped, accept)
    }

    ghost predicate Valid()
      reads this
    {
      Settled() && batch == Joined(pending) && batchN == |pending| && (batchN > 0 ==> Batch(pending).Fits(caps))
    }

    constructor (caps: Caps, accept: nat -> bool)
      ensures Valid() && this.caps == caps && this.accept == accept && done == [] && pending == []
    {
      this.caps, this.accept := caps, accept;
      sends, frames, batch, batchN, sent, dropped := 0, [], "", 0, 0, 0;
      pending, done, mask, groups := [], [], [], [];
    }

    /** A non-blocking send: a full queue refuses the frame, and its lines are dropped. */
    method Send(frame: string, n: nat, ghost g: Group)
      requires Settled() && frame == g.Bytes() && n == |g.Lines()| && g.Fits(caps)
      modifies this`sends, this`frames, this`sent, this`dropped, this`done, this`mask, this`groups
      ensures Settled() && done == old(done) + g.Lines() && sends == old(sends) + 1
    {
      var ok := accept(sends);
      sends := sends + 1;
      if ok {
        Taken(frame, n, g);
      } else {
        Refused(n, g);
      }
    }

    method Taken(frame: string, n: nat, ghost g: Group)
      requires Settled() && frame == g.Bytes() && n == |g.Lines()| && g.Fits(caps)
      modifies this`frames, this`sent, this`done, this`mask, this`groups
      ensures Settled() && done == old(done) + g.Lines()
    {
      AccountTaken(frames, groups, caps, done, mask, sent, dropped, accept, g, frame, n);
      frames, sent := frames + [frame], sent + n;
      groups, done, mask := groups + [g], done + g.Lines(), mask + Flags(n, true);
    }

    method Refused(n: nat, ghost g: Group)
      requires Settled() && n == |g.Lines()| && !TakesAll(accept)
      modifies this`dropped, this`done, this`mask
      ensures Settled() && done == old(done) + g.Lines()
    {
      AccountRefused(frames, groups, caps, done, mask, sent, dropped, accept, g, n);
      dropped := dropped + n;
      done, mask := done + g.Lines(), mask + Flags(n, false);
    }

    method FlushBatch()
      requires Valid()
      modifies this
      ensures Valid() && pending == [] && done == old(done) + old(pending)
    {
      if |batch| == 0 {
        assert pending == [] by {
          assert pending != [] ==> |Joined(pending)| > 0;
        }
        return;
      }
      Send(batch, batchN, Batch(pending));
      batch, batchN, pending := "", 0, [];
    }

    /** Adds one line to the batch, flushing first when a cap would be passed. */
    method AddBatched(payload: string)
      requires Valid()
      modifies this
      ensures Valid() && done + pending == old(done + pending) + [payload]
    {
      if batchN > 0 && (batchN >= caps.lines || ByteSize(batch) + ByteSize(payload) + 1 > caps.bytes) {
        FlushBatch();
      }
      BatchTakes(pending, batch, payload, caps);
      assert done + (pending + [payload]) == done + pending + [payload];
      batch := batch + payload + "\n";
      batchN := batchN + 1;
      pending := pending + [payload];
    }

    /** A legacy line may hold newlines: it goes alone, after what is already batched. */
    method SendAlone(payload: string)
      requires Valid()
      modifies this
      ensures Valid() && done + pending == old(done + pending) + [payload]
    {
      FlushBatch();
      Send(payload, 1, Alone(payload));
      assert done + pending == old(done + pending) + [payload];
    }

    /** JSON lines batch; raw ones do not. */
    method Add(c: Codec, clean: string -> string, line: string)
      requires Valid()
      modifies this
      ensures Valid() && done + pending == old(done + pending) + [Payload(c, clean, line)]
    {
      var stored := c.unmarshal(line);
      if stored.Some? {
        if stored.value.typ == "chat" {
          AddBatched(line);
        } else {
          AddBatched(clean(line));
        }
      } else {
        SendAlone(clean(line));
      }
    }
  }

  /** Takes one line into the window bounds. */
  method Widen(b: Bounds, stored: Wire) returns (b': Bounds)
    ensures b' == Widened(b, Some(stored))
  {
    b' := b;
    if stored.height > 0 {
      var haveHeight := b.minHeight != 0;
      if !haveHeight || stored.height < b.minHeight {
        b' := b'.(minHeight := stored.height);
      }
      if stored.height > b.maxHeight {
        b' := b'.(maxHeight := stored.height);
      }
    }
    if stored.seqno > 0 {
      if b.firstSeq == 0 {
        b' := b'.(firstSeq := stored.seqno);
      }
      b' := b'.(lastSeq := stored.seqno);
    }
  }

  /** Replays lines to one peer and closes with the trailer. `at` are the positions of the lines that
      are not left out, `offered` what travels for them. */
  method SendReplayPage(c: Codec, clean: string -> string, wantJoins: bool, caps: Caps, accept: nat -> bool,
                        lines: seq<string>, page: PageMeta)
    returns (frames: seq<string>, trailer: Trailer, closed: bool, ghost groups: seq<Group>, ghost mask: seq<bool>,
             ghost at: seq<nat>, ghost offered: seq<string>)
    ensures var kept := Unfiltered(c, wantJoins, lines);
            && |mask| == |kept|
            && Delivered(frames, groups, caps, Payloads(c, clean, kept), mask)
            && var b := BoundsOf(c, kept);
            trailer == Trailer(b.minHeight, b.maxHeight, Count(mask, true), |lines|, Count(mask, false), b.firstSeq,
                               b.lastSeq, page)
    ensures Rises(at) && |offered| == |at| && Delivered(frames, groups, caps, offered, mask)
    ensures forall i :: 0 <= i < |lines| ==>
              (i !in at <==>
                 match c.unmarshal(lines[i])
                 case Some(w) => !wantJoins && w.typ == "system"
                                 && ("system.join" in w.tags || "system.leave" in w.tags)
                 case None => false)
    ensures forall k :: 0 <= k < |at| ==>
              && at[k] < |lines|
              && offered[k] == match c.unmarshal(lines[at[k]])
                               case Some(w) => if w.typ == "chat" then lines[at[k]] else clean(lines[at[k]])
                               case None => clean(lines[at[k]])
    ensures TakesAll(accept) ==> closed && trailer.dropped == 0
  {
    var sender := new Sender(caps, accept);
    var b := Bounds(0, 0, 0, 0);
    ghost var kept := [];
    for i := 0 to |lines|
      invariant sender.Valid() && sender.caps == caps && sender.accept == accept && fresh(sender)
      invariant kept == Unfiltered(c, wantJoins, lines[..i]) && b == BoundsOf(c, kept)
      invariant sender.done + sender.pending == Payloads(c, clean, kept)
    {
      var line := lines[i];
      var stored := c.unmarshal(line);
      UnfilteredMore(c, wantJoins, lines, i);
      if stored.Some? && stored.value.typ == "system" && !wantJoins
         && (TAG_JOIN in stored.value.tags || TAG_LEAVE in stored.value.tags) {
        continue;
      }
      BoundsMore(c, kept, line);
      if stored.Some? {
        b := Widen(b, stored.value);
      }
      sender.Add(c, clean, line);
      PayloadsMore(c, clean, kept, line);
      kept := kept + [line];
    }
    assert lines[..|lines|] == lines;
    sender.FlushBatch();
    assert sender.done == Payloads(c, clean, kept);
    frames, groups, mask, offered := sender.frames, sender.groups, sender.mask, sender.done;
    at := OfferedMeaning(c, clean, wantJoins, lines, offered);
    trailer := Trailer(b.minHeight, b.maxHeight, sender.sent, |lines|, sender.dropped, b.firstSeq, b.lastSeq, page);
    closed := accept(sender.sends);
  }
}
