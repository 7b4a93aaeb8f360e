/** The initial load: the client pages upwards from its start cursor, retrying a page that
    lost lines, while live output waits. It always ends, and without drops it has read every
    stored line from the start to where it stopped. */
module LoadLoop {
  import opened Basics
  import opened WireModel
  import opened Refill
  import opened ReplayBatch
  import opened Paging
  import opened FrameSplit
  import opened HashChain
  import T = Tracker

  datatype LoadConfig = LoadConfig(target: nat, retries: nat)

  /** The load's own fields. The cursor is the one in the request last sent. */
  datatype Load = Load(loading: bool, inSync: bool, hold: bool, maxSeq: nat, startSeq: nat,
                       loaded: nat, retried: nat, cursor: nat)

  function Finished(s: Load): Load {
    s.(loading := false, inSync := false, hold := false)
  }

  function Asked(s: Load, cursor: nat, sendOk: bool): Load {
    if sendOk then s.(cursor := cursor) else Finished(s.(cursor := cursor))
  }

  /** The cursor a load starts from. */
  function StartOf(cfg: LoadConfig, announced: nat): nat {
    if announced >= cfg.target then announced - cfg.target else 0
  }

  /** The load starts so that `target` lines end at the announced one. */
  function Started(cfg: LoadConfig, s: Load, maxSeq: nat, sendOk: bool): Load {
    if s.loading then s
    else
      var after := StartOf(cfg, maxSeq);
      Asked(Load(true, true, true, maxSeq, after + 1, 0, 0, after), after, sendOk)
  }

  /** A page's trailer: ask again for a page that lost lines, go on, or finish. */
  function Paged(cfg: LoadConfig, s: Load, t: Trailer, sendOk: bool): Load {
    if t.dropped > 0 && s.retried < cfg.retries then
      Asked(s.(retried := s.retried + 1), if t.firstSeq > 0 then t.firstSeq - 1 else 0, sendOk)
    else if t.page.more && s.loaded < cfg.target && t.page.nextSeq < s.maxSeq then
      Asked(s.(retried := 0), t.page.nextSeq, sendOk)
    else Finished(s.(retried := 0))
  }

  // ---------------------------------------------------------------- counting what arrives

  /** The height of the running tip, if there is one, and how many chained lines above it came. */
  datatype Counter = Counter(top: Option<nat>, loaded: nat)

  /** One checked wire: counted when it is chained and above the running tip, which it then
      becomes unless its link fields are malformed. */
  function Counted(n: Counter, w: Wire): Counter {
    if w.hash.Absent? || (n.top.Some? && w.height <= n.top.value) then n
    else Counter(if w.hash.Hex? && (n.top.Some? || w.prev.Hex?) then Some(w.height) else n.top, n.loaded + 1)
  }

  function CounterOf(s: T.State): Counter {
    Counter(if s.core.haveTip then Some(s.core.height) else None, s.loadLoaded)
  }

  /** The counter is what the chain tracker keeps while a load runs. */
  lemma {:induction false} CountsAsTracker(hs: Hasher, cfg: T.Config, s: T.State, msg: Wire, sendOk: bool)
    requires s.loading && s.inSync
    ensures CounterOf(T.CheckLink(hs, cfg, s, msg, sendOk)) == Counted(CounterOf(s), msg)
  {
    if !msg.hash.Absent? && !(s.core.haveTip && msg.height <= s.core.height) {
      JudgeCounts(hs, cfg, T.CountLoad(T.NoteSync(s, msg)), msg, sendOk);
    }
  }

  /** Judging moves the tip to the wire unless its link fields are malformed. */
  lemma JudgeCounts(hs: Hasher, cfg: T.Config, s: T.State, msg: Wire, sendOk: bool)
    requires s.inSync
    ensures var s', moved := T.Judge(hs, cfg, s, msg, sendOk), msg.hash.Hex? && (s.core.haveTip || msg.prev.Hex?);
            && s'.loadLoaded == s.loadLoaded
            && s'.core.haveTip == (moved || s.core.haveTip)
            && s'.core.height == if moved then msg.height else s.core.height
  {
    var verdict := T.LinkVerdict(hs, s.core, msg);
    assert verdict.Tip? ==> msg.hash.Hex? && msg.prev.Hex?;
  }

  predicate InWindow(lo: nat, hi: nat, w: Wire) {
    if w.seqno > 0 then lo <= w.seqno <= hi else w.height > 0
  }

  /** The wire a shown line makes the load check, if any: a chat or system line of the window
      that is neither a replay marker nor a vote total. */
  function CheckedWire(c: Codec, aside: Wire -> bool, lo: nat, hi: nat, line: string): Option<Wire> {
    match c.unmarshal(line)
    case Some(w) => if (w.typ == "chat" || w.typ == "system") && !aside(w) && InWindow(lo, hi, w) then Some(w) else None
    case None => None
  }

  function CountLine(c: Codec, aside: Wire -> bool, lo: nat, hi: nat, n: Counter, line: string): Counter {
    match CheckedWire(c, aside, lo, hi, line)
    case Some(w) => Counted(n, w)
    case None => n
  }

  function CountAll(c: Codec, aside: Wire -> bool, lo: nat, hi: nat, n: Counter, lines: seq<string>): Counter {
    if lines == [] then n
    else CountLine(c, aside, lo, hi, CountAll(c, aside, lo, hi, n, lines[..|lines| - 1]), lines[|lines| - 1])
  }

  lemma {:induction false} CountConcat(c: Codec, aside: Wire -> bool, lo: nat, hi: nat, n: Counter, a: seq<string>,
                                       b: seq<string>)
    ensures CountAll(c, aside, lo, hi, n, a + b) == CountAll(c, aside, lo, hi, CountAll(c, aside, lo, hi, n, a), b)
  {
    if b == [] {
      assert a + b == a;
    } else {
      var k := |b| - 1;
      CountConcat(c, aside, lo, hi, n, a, b[..k]);
      assert (a + b)[..|a| + k] == a + b[..k] && (a + b)[|a| + k] == b[k];
    }
  }

  /** The links among shown lines that the load checks. */
  function CheckedLinks(c: Codec, aside: Wire -> bool, lo: nat, hi: nat, lines: seq<string>): seq<Wire> {
    if lines == [] then []
    else
      var front := CheckedLinks(c, aside, lo, hi, lines[..|lines| - 1]);
      match CheckedWire(c, aside, lo, hi, lines[|lines| - 1])
      case Some(w) => if w.hash.Absent? then front else front + [w]
      case None => front
  }

  /** Well-formed links at rising heights above this one. */
  predicate RisingFrom(ws: seq<Wire>, top: nat) {
    && (forall i :: 0 <= i < |ws| ==> ws[i].prev.Hex? && ws[i].hash.Hex? && ws[i].height > top)
    && (forall i, j :: 0 <= i < j < |ws| ==> ws[i].height < ws[j].height)
  }

  /** Links that rise above the tip are all counted, each once. */
  lemma {:induction false} CountsEachLink(c: Codec, aside: Wire -> bool, lo: nat, hi: nat, n: Counter,
                                          lines: seq<string>)
    requires RisingFrom(CheckedLinks(c, aside, lo, hi, lines), if n.top.Some? then n.top.value else 0)
    ensures var ws, after := CheckedLinks(c, aside, lo, hi, lines), CountAll(c, aside, lo, hi, n, lines);
            && after.loaded == n.loaded + |ws|
            && after.top == if ws == [] then n.top else Some(ws[|ws| - 1].height)
  {
    if lines != [] {
      var front, last := lines[..|lines| - 1], lines[|lines| - 1];
      var ws, ws' := CheckedLinks(c, aside, lo, hi, front), CheckedLinks(c, aside, lo, hi, lines);
      assert forall i :: 0 <= i < |ws| ==> ws'[i] == ws[i];
      CountsEachLink(c, aside, lo, hi, n, front);
      if |ws'| > |ws| {
        assert ws'[|ws|] == CheckedWire(c, aside, lo, hi, last).value;
        assert ws != [] ==> ws'[|ws| - 1].height < ws'[|ws|].height;
      }
    }
  }

  // ---------------------------------------------------------------- termination

  /** What the server's trailer always satisfies for a page above `cursor`. */
  predicate Honest(t: Trailer, cursor: nat) {
    && (t.dropped > 0 ==> t.firstSeq > cursor)
    && (t.page.more ==> t.page.nextSeq > cursor)
  }

  function Left(s: Load): nat {
    if s.maxSeq > s.cursor then s.maxSeq - s.cursor else 0
  }

  predicate Ready(cfg: LoadConfig, s: Load) {
    s.retried <= cfg.retries
  }

  /** Every page that does not end the load brings it closer to its end: less is left below
      the announced window, or the same is left and a retry is used up. */
  lemma {:induction false} PageProgress(cfg: LoadConfig, s: Load, t: Trailer, sendOk: bool)
    requires Ready(cfg, s) && Honest(t, s.cursor)
    ensures var s' := Paged(cfg, s, t, sendOk);
            && Ready(cfg, s') && s'.cursor >= s.cursor
            && (s'.loading ==> Left(s') < Left(s) || (Left(s') <= Left(s) && s'.retried > s.retried))
  {
  }

  /** The most pages a load can still ask for. */
  function Budget(cfg: LoadConfig, s: Load): nat
    requires Ready(cfg, s)
  {
    Left(s) * (cfg.retries + 1) + (cfg.retries - s.retried)
  }

  lemma BudgetFalls(cfg: LoadConfig, s: Load, t: Trailer, sendOk: bool)
    requires Ready(cfg, s) && Honest(t, s.cursor) && Paged(cfg, s, t, sendOk).loading
    ensures Ready(cfg, Paged(cfg, s, t, sendOk)) && Budget(cfg, Paged(cfg, s, t, sendOk)) < Budget(cfg, s)
  {
    PageProgress(cfg, s, t, sendOk);
    var s' := Paged(cfg, s, t, sendOk);
    Scaled(Left(s'), Left(s), cfg.retries + 1);
  }

  lemma {:induction false} Scaled(a: nat, b: nat, r: nat)
    requires a <= b
    ensures a * r <= b * r && (a < b ==> a * r + r <= b * r)
    decreases b - a
  {
    if a < b {
      Scaled(a + 1, b, r);
      assert (a + 1) * r == a * r + r;
    }
  }

  /** One answered page of a run. */
  datatype Answer = Answer(trailer: Trailer, loaded: nat, sendOk: bool)

  function Answered(cfg: LoadConfig, s: Load, answers: seq<Answer>): Load {
    if answers == [] then s
    else
      var before, a := Answered(cfg, s, answers[..|answers| - 1]), answers[|answers| - 1];
      if before.loading then Paged(cfg, before.(loaded := a.loaded), a.trailer, a.sendOk) else before
  }

  /** Each trailer answers the request in flight when it arrives. */
  predicate HonestRun(cfg: LoadConfig, s: Load, answers: seq<Answer>) {
    forall i :: 0 <= i < |answers| ==> Honest(answers[i].trailer, Answered(cfg, s, answers[..i]).cursor)
  }

  /** Whatever is dropped, retried, loaded or refused: a load still going after n pages has
      spent n of its budget, so no run is longer than that. */
  lemma {:induction false} LoadEnds(cfg: LoadConfig, s: Load, answers: seq<Answer>)
    requires Ready(cfg, s) && HonestRun(cfg, s, answers)
    ensures var s' := Answered(cfg, s, answers);
            Ready(cfg, s') && (s'.loading ==> Budget(cfg, s') + |answers| <= Budget(cfg, s))
    ensures |answers| > Budget(cfg, s) ==> !Answered(cfg, s, answers).loading
  {
    if answers != [] {
      var n := |answers| - 1;
      var front, a := answers[..n], answers[n];
      forall i | 0 <= i < n ensures Honest(front[i].trailer, Answered(cfg, s, front[..i]).cursor) {
        assert front[..i] == answers[..i] && front[i] == answers[i];
      }
      LoadEnds(cfg, s, front);
      assert answers[..n] == front;
      var before := Answered(cfg, s, front);
      if before.loading {
        var counted := before.(loaded := a.loaded);
        assert Honest(a.trailer, counted.cursor);
        PageProgress(cfg, counted, a.trailer, a.sendOk);
        if Paged(cfg, counted, a.trailer, a.sendOk).loading {
          BudgetFalls(cfg, counted, a.trailer, a.sendOk);
        }
      }
    }
  }

  // ---------------------------------------------------------------- the server's trailers are honest

  lemma {:induction false} AllAbove(c: Codec, history: seq<string>, after: nat)
    ensures forall i :: 0 <= i < |LinesAfter(c, history, after)| ==> SeqOf(c, LinesAfter(c, history, after)[i]) > after
  {
    if history != [] {
      AllAbove(c, history[..|history| - 1], after);
    }
  }

  lemma {:induction false} UnfilteredFrom(c: Codec, wantJoins: bool, lines: seq<string>, i: nat)
    requires i < |Unfiltered(c, wantJoins, lines)|
    ensures exists k :: 0 <= k < |lines| && lines[k] == Unfiltered(c, wantJoins, lines)[i]
  {
    var n := |lines| - 1;
    var front := Unfiltered(c, wantJoins, lines[..n]);
    if i < |front| {
      UnfilteredFrom(c, wantJoins, lines[..n], i);
      var k :| 0 <= k < n && lines[..n][k] == front[i];
      assert lines[k] == Unfiltered(c, wantJoins, lines)[i];
    } else {
      assert lines[n] == Unfiltered(c, wantJoins, lines)[i];
    }
  }

  /** A page collected above a cursor and replayed, whatever is dropped, gets an honest
      trailer. */
  lemma {:induction false} PageTrailerIsHonest(c: Codec, history: seq<string>, cursor: nat, limit: int, wantJoins: bool,
                            lines: seq<string>, more: bool, next: nat, mask: seq<bool>, t: Trailer)
    requires IsPage(c, LinesAfter(c, history, cursor), limit, lines, more, next)
    requires |mask| == |Unfiltered(c, wantJoins, lines)|
    requires t.dropped == Count(mask, false) && t.firstSeq == BoundsOf(c, Unfiltered(c, wantJoins, lines)).firstSeq
    requires t.page.more == more && t.page.nextSeq == next
    ensures Honest(t, cursor)
  {
    var kept := Unfiltered(c, wantJoins, lines);
    AllAbove(c, history, cursor);
    if t.dropped > 0 {
      MaskAddsUp(kept, mask);
      forall i | 0 <= i < |kept| ensures SeqOf(c, kept[i]) > cursor {
        UnfilteredFrom(c, wantJoins, lines, i);
      }
      FirstSeqMeaning(c, kept);
      assert kept[0] == kept[0];
      assert SeqOf(c, kept[0]) != 0;
    }
  }

  // ---------------------------------------------------------------- nothing skipped

  /** One request as the server sees it: what is stored by then, how it replays, and whether
      the client's next request goes out. */
  datatype Round = Round(history: seq<string>, limit: int, accept: nat -> bool, sendOk: bool)

  /** Stored history only grows at its end while the load runs. */
  ghost predicate Growing(c: Codec, rounds: nat -> Round) {
    forall i: nat :: Rising(c, rounds(i).history) && rounds(i).history <= rounds(i + 1).history
  }

  /** No frame is refused and no request is lost. */
  ghost predicate Calm(rounds: nat -> Round) {
    forall i: nat :: rounds(i).limit > 0 && rounds(i).sendOk && TakesAll(rounds(i).accept)
  }

  lemma {:induction false} AfterConcat(c: Codec, a: seq<string>, b: seq<string>, after: nat)
    ensures LinesAfter(c, a + b, after) == LinesAfter(c, a, after) + LinesAfter(c, b, after)
  {
    if b == [] {
      assert a + b == a;
    } else {
      var n := |b| - 1;
      AfterConcat(c, a, b[..n], after);
      assert (a + b)[..|a| + n] == a + b[..n] && (a + b)[|a| + n] == b[n];
    }
  }

  lemma {:induction false} SameAbove(c: Codec, lines: seq<string>, lo: nat, hi: nat)
    requires lo <= hi && forall i :: 0 <= i < |lines| ==> SeqOf(c, lines[i]) == 0 || SeqOf(c, lines[i]) > hi
    ensures LinesAfter(c, lines, lo) == LinesAfter(c, lines, hi)
  {
    if lines != [] {
      SameAbove(c, lines[..|lines| - 1], lo, hi);
    }
  }

  /** Somewhere in history stands the cursor's own line, unless it is still the start. */
  predicate Reached(c: Codec, history: seq<string>, start: nat, cursor: nat) {
    start <= cursor && (cursor == start || exists i :: 0 <= i < |history| && SeqOf(c, history[i]) == cursor)
  }

  /** What was read so far and what is above the cursor make up everything above the start. */
  predicate NothingSkipped(c: Codec, history: seq<string>, start: nat, cursor: nat, read: seq<string>) {
    Reached(c, history, start, cursor) && read + LinesAfter(c, history, cursor) == LinesAfter(c, history, start)
  }

  /** Lines stored meanwhile do not disturb that. */
  lemma {:induction false} GrowthKeepsReading(c: Codec, h: seq<string>, h': seq<string>, start: nat, cursor: nat,
                                              read: seq<string>)
    requires NothingSkipped(c, h, start, cursor, read) && h <= h' && Rising(c, h')
    ensures NothingSkipped(c, h', start, cursor, read)
  {
    var more := h'[|h|..];
    assert h' == h + more;
    if cursor != start {
      var i :| 0 <= i < |h| && SeqOf(c, h[i]) == cursor;
      assert SeqOf(c, h'[i]) == cursor;
      forall k | 0 <= k < |more| ensures SeqOf(c, more[k]) == 0 || SeqOf(c, more[k]) > cursor {
        assert more[k] == h'[|h| + k];
      }
    }
    AfterConcat(c, h, more, start);
    AfterConcat(c, h, more, cursor);
    if cursor != start {
      SameAbove(c, more, start, cursor);
    }
    ConcatAssoc(read, LinesAfter(c, h, cursor), LinesAfter(c, more, cursor));
  }

  /** A page read in full moves the cursor past exactly its lines. */
  lemma {:induction false} PageKeepsReading(c: Codec, history: seq<string>, start: nat, cursor: nat, read: seq<string>,
                         limit: int, lines: seq<string>, more: bool, next: nat)
    requires NothingSkipped(c, history, start, cursor, read) && Rising(c, history) && limit > 0
    requires IsPage(c, LinesAfter(c, history, cursor), limit, lines, more, next)
    ensures more ==> NothingSkipped(c, history, start, next, read + lines)
    ensures !more ==> read + lines == LinesAfter(c, history, start)
  {
    var all := LinesAfter(c, history, cursor);
    if more {
      AfterNext(c, history, cursor, limit - 1);
      AfterAscends(c, history, cursor);
      assert all[limit - 1] in history;
      assert all == lines + all[limit..];
      ConcatAssoc(read, lines, all[limit..]);
    }
  }

  /** Where a load stopped: everything read, the target met, or the announced end passed. */
  predicate StoppedWell(c: Codec, cfg: LoadConfig, s: Load, history: seq<string>, start: nat, read: seq<string>,
                        rest: seq<string>)
  {
    && read + rest == LinesAfter(c, history, start)
    && (rest == [] || s.loaded >= cfg.target || forall i :: 0 <= i < |rest| ==> SeqOf(c, rest[i]) > s.maxSeq)
  }

  lemma {:induction false} UnfilteredConcat(c: Codec, wantJoins: bool, a: seq<string>, b: seq<string>)
    ensures Unfiltered(c, wantJoins, a + b) == Unfiltered(c, wantJoins, a) + Unfiltered(c, wantJoins, b)
  {
    if b == [] {
      assert a + b == a;
    } else {
      var n := |b| - 1;
      UnfilteredConcat(c, wantJoins, a, b[..n]);
      assert (a + b)[..|a| + n] == a + b[..n] && (a + b)[|a| + n] == b[n];
    }
  }

  /** What the lines of a listing show once they have travelled. */
  function Arriving(c: Codec, clean: string -> string, wantJoins: bool, lines: seq<string>,
                    blank: string -> bool): seq<string>
  {
    AllShown(Payloads(c, clean, Unfiltered(c, wantJoins, lines)), blank)
  }

  lemma ArrivingConcat(c: Codec, clean: string -> string, wantJoins: bool, a: seq<string>, b: seq<string>,
                       blank: string -> bool)
    ensures Arriving(c, clean, wantJoins, a + b, blank)
         == Arriving(c, clean, wantJoins, a, blank) + Arriving(c, clean, wantJoins, b, blank)
  {
    UnfilteredConcat(c, wantJoins, a, b);
    var ua, ub := Unfiltered(c, wantJoins, a), Unfiltered(c, wantJoins, b);
    assert Payloads(c, clean, ua + ub) == Payloads(c, clean, ua) + Payloads(c, clean, ub);
    AllShownConcat(Payloads(c, clean, ua), Payloads(c, clean, ub), blank);
  }

  // ---------------------------------------------------------------- the loop itself

  /** The client's load fields, updated as frames arrive. */
  class Loader {
    const cfg: LoadConfig
    var loading: bool
    var inSync: bool
    var catchupHold: bool
    var maxSeq: nat
    var startSeq: nat
    var loaded: nat
    var retried: nat
    var loadHold: seq<Wire>

    /** The cursor in the request last sent. */
    var cursor: nat

    /** The height of the running tip. */
    var top: Option<nat>

    /** The wires handed on so far. */
    ghost var shown: seq<Wire>

    function View(): Load
      reads this
    {
      Load(loading, inSync, catchupHold, maxSeq, startSeq, loaded, retried, cursor)
    }

    /** Only a running load holds live lines. */
    ghost predicate Valid()
      reads this
    {
      (loading ==> inSync) && (!loading ==> loadHold == [])
    }

    ghost function Count(): Counter
      reads this
    {
      Counter(top, loaded)
    }

    constructor (cfg: LoadConfig, top: Option<nat>)
      ensures Valid() && this.cfg == cfg && !loading && shown == [] && loadHold == [] && this.top == top && loaded == 0
    {
      this.cfg, this.top := cfg, top;
      loading, inSync, catchupHold, maxSeq, startSeq, loaded, retried := false, false, false, 0, 0, 0, 0;
      loadHold, cursor, shown := [], 0, [];
    }

    /** Leaves loading mode; what arrived live meanwhile is appended behind all that was loaded. */
    method FinishLoad()
      modifies this
      ensures top == old(top)
      ensures Valid() && View() == Finished(old(View())) && loadHold == [] && shown == old(shown + loadHold)
    {
      loading, inSync := false, false;
      shown, loadHold := shown + loadHold, [];
      catchupHold := false;
    }

    method SendLoadPage(after: nat, sendOk: bool)
      requires Valid()
      modifies this
      ensures top == old(top)
      ensures Valid() && View() == Asked(old(View()), after, sendOk) && shown + loadHold == old(shown + loadHold)
    {
      cursor := after;
      if !sendOk {
        FinishLoad();
      }
    }

    /** The server announces its window; a load already running ignores it. */
    method HandleHistoryInfo(announced: nat, sendOk: bool)
      requires Valid()
      modifies this
      ensures top == old(top)
      ensures Valid() && View() == Started(cfg, old(View()), announced, sendOk)
              && shown + loadHold == old(shown + loadHold)
      ensures !old(loading) ==>
                && cursor == (if announced > cfg.target then announced - cfg.target else 0)
                && startSeq == cursor + 1 && maxSeq == announced && loaded == 0 && loading == sendOk
    {
      if loading {
        return;
      }
      loading, inSync := true, true;
      loaded, retried, loadHold := 0, 0, [];
      maxSeq := announced;
      var after := 0;
      if announced >= cfg.target {
        after := announced - cfg.target;
      }
      startSeq := after + 1;
      catchupHold := true;
      SendLoadPage(after, sendOk);
    }

    method OnLoadPage(t: Trailer, sendOk: bool)
      requires Valid() && loading
      modifies this
      ensures top == old(top)
      ensures Valid() && View() == Paged(cfg, old(View()), t, sendOk) && shown + loadHold == old(shown + loadHold)
      ensures var again := t.dropped > 0 && old(retried) < cfg.retries;
              var on := t.page.more && loaded < cfg.target && t.page.nextSeq < maxSeq;
              && (loading <==> (again || on) && sendOk)
              && (again ==> cursor == if t.firstSeq > 0 then t.firstSeq - 1 else 0)
              && (!again && on ==> cursor == t.page.nextSeq)
              && retried == if again then old(retried) + 1 else 0
    {
      if t.dropped > 0 {
        if retried < cfg.retries {
          retried := retried + 1;
          var after := 0;
          if t.firstSeq > 0 {
            after := t.firstSeq - 1;
          }
          SendLoadPage(after, sendOk);
          return;
        }
      }
      retried := 0;
      if t.page.more && loaded < cfg.target && t.page.nextSeq < maxSeq {
        SendLoadPage(t.page.nextSeq, sendOk);
        return;
      }
      FinishLoad();
    }

    /** Does a wire belong to the window being loaded? */
    predicate IsLoadHistory(msg: Wire)
      reads this
    {
      InWindow(startSeq, maxSeq, msg)
    }

    /** A wire arrives: outside the window it waits for the load to end. Either way the lines
        outside it keep their order and none is lost. */
    method OnWire(msg: Wire)
      requires Valid()
      modifies this
      ensures Valid() && View() == old(View()) && top == old(top)
      ensures old(loading && !IsLoadHistory(msg)) || !loading ==> shown + loadHold == old(shown + loadHold) + [msg]
      ensures old(loading && IsLoadHistory(msg)) ==> shown == old(shown) + [msg] && loadHold == old(loadHold)
      ensures loading ==>
                (shown == old(shown) <==>
                   if msg.seqno > 0 then msg.seqno < startSeq || msg.seqno > maxSeq else msg.height == 0)
    {
      if loading && inSync && !IsLoadHistory(msg) {
        loadHold := loadHold + [msg];
        assert shown + loadHold == old(shown + loadHold) + [msg];
        return;
      }
      shown := shown + [msg];
      assert |shown| == |old(shown)| + 1;
    }

    /** A wire of the window is checked against the running tip. */
    method CheckLink(msg: Wire)
      modifies this`top, this`loaded
      ensures Count() == Counted(old(Count()), msg)
    {
      if msg.hash.Absent? || (top.Some? && msg.height <= top.value) {
        return;
      }
      loaded := loaded + 1;
      if msg.hash.Hex? && (top.Some? || msg.prev.Hex?) {
        top := Some(msg.height);
      }
    }

    /** One line of a frame while the load runs; a line that is no message is display only. */
    method TakeLine(c: Codec, aside: Wire -> bool, line: string)
      requires Valid() && loading
      modifies this
      ensures Valid() && View() == old(View()).(loaded := loaded)
      ensures Count() == CountLine(c, aside, startSeq, maxSeq, old(Count()), line)
      ensures match c.unmarshal(line)
              case Some(w) =>
                var inside := if w.seqno > 0 then startSeq <= w.seqno <= maxSeq else w.height > 0;
                Count() == if w.typ in {"chat", "system"} && !aside(w) && inside then Counted(old(Count()), w)
                           else old(Count())
              case None => Count() == old(Count())
    {
      var parsed := c.unmarshal(line);
      if parsed.None? || (parsed.value.typ != "chat" && parsed.value.typ != "system") || aside(parsed.value) {
        return;
      }
      OnWire(parsed.value);
      if IsLoadHistory(parsed.value) {
        CheckLink(parsed.value);
      }
    }

    /** One frame: split on newlines, blank pieces skipped. */
    method TakeFrame(c: Codec, aside: Wire -> bool, blank: string -> bool, frame: string)
      requires Valid() && loading
      modifies this
      ensures Valid() && View() == old(View()).(loaded := loaded)
      ensures Count() == CountAll(c, aside, startSeq, maxSeq, old(Count()), Shown(frame, blank))
    {
      var lines := FrameSplit.ReadFrame(frame, blank);
      assert lines[..0] == [];
      for i := 0 to |lines|
        invariant Valid() && View() == old(View()).(loaded := loaded)
        invariant Count() == CountAll(c, aside, startSeq, maxSeq, old(Count()), lines[..i])
      {
        assert lines[..i + 1][..i] == lines[..i];
        TakeLine(c, aside, lines[i]);
      }
      assert lines[..|lines|] == lines;
    }

    /** All frames of a page. */
    method TakeFrames(c: Codec, aside: Wire -> bool, blank: string -> bool, frames: seq<string>)
      requires Valid() && loading
      modifies this
      ensures Valid() && View() == old(View()).(loaded := loaded)
      ensures Count() == CountAll(c, aside, startSeq, maxSeq, old(Count()), AllShown(frames, blank))
    {
      assert frames[..0] == [];
      for i := 0 to |frames|
        invariant Valid() && View() == old(View()).(loaded := loaded)
        invariant Count() == CountAll(c, aside, startSeq, maxSeq, old(Count()), AllShown(frames[..i], blank))
      {
        CountFrame(c, aside, startSeq, maxSeq, old(Count()), frames, i, blank);
        TakeFrame(c, aside, blank, frames[i]);
      }
      assert frames[..|frames|] == frames;
    }
  }

  lemma CountFrame(c: Codec, aside: Wire -> bool, lo: nat, hi: nat, n: Counter, frames: seq<string>, i: nat,
                   blank: string -> bool)
    requires i < |frames|
    ensures CountAll(c, aside, lo, hi, n, AllShown(frames[..i + 1], blank))
         == CountAll(c, aside, lo, hi, CountAll(c, aside, lo, hi, n, AllShown(frames[..i], blank)),
                     Shown(frames[i], blank))
  {
    assert frames[..i + 1][..i] == frames[..i];
    CountConcat(c, aside, lo, hi, n, AllShown(frames[..i], blank), Shown(frames[i], blank));
  }

  /** A page without drops: either the load goes on with nothing skipped, or it stopped well. */
  lemma CalmPage(c: Codec, cfg: LoadConfig, b: Load, history: seq<string>, limit: int, lines: seq<string>,
                 more: bool, next: nat, t: Trailer, start: nat, read: seq<string>)
    requires NothingSkipped(c, history, start, b.cursor, read) && Rising(c, history) && limit > 0
    requires IsPage(c, LinesAfter(c, history, b.cursor), limit, lines, more, next)
    requires b.loading && t.dropped == 0 && t.page.more == more && t.page.nextSeq == next
    ensures var s := Paged(cfg, b, t, true);
            && (s.loading ==> NothingSkipped(c, history, start, s.cursor, read + lines))
            && (!s.loading ==>
                  StoppedWell(c, cfg, s, history, start, read + lines, if more then LinesAfter(c, history, next)
                              else []))
  {
    PageKeepsReading(c, history, start, b.cursor, read, limit, lines, more, next);
    if more {
      var rest := LinesAfter(c, history, next);
      AllAbove(c, history, next);
      assert (read + lines) + rest == LinesAfter(c, history, start);
      if next >= b.maxSeq {
        assert forall i :: 0 <= i < |rest| ==> SeqOf(c, rest[i]) > b.maxSeq;
      }
    } else {
      assert (read + lines) + [] == read + lines;
    }
  }

  /** The state of a calm load between pages. */
  predicate OnCourse(c: Codec, cfg: LoadConfig, s: Load, here: seq<string>, last: seq<string>, start: nat,
                     read: seq<string>, rest: seq<string>) {
    if s.loading then NothingSkipped(c, here, start, s.cursor, read)
    else StoppedWell(c, cfg, s, last, start, read, rest)
  }

  lemma CalmRound(c: Codec, cfg: LoadConfig, b: Load, round: Round, here: seq<string>, lines: seq<string>, t: Trailer,
                  start: nat, read: seq<string>)
    requires NothingSkipped(c, round.history, start, b.cursor, read) && round.limit > 0
    requires IsPage(c, LinesAfter(c, round.history, b.cursor), round.limit, lines, t.page.more, t.page.nextSeq)
    requires b.loading && t.dropped == 0 && Rising(c, round.history) && round.history <= here && Rising(c, here)
    ensures OnCourse(c, cfg, Paged(cfg, b, t, true), here, round.history, start, read + lines,
                     if t.page.more then LinesAfter(c, round.history, t.page.nextSeq) else [])
  {
    CalmPage(c, cfg, b, round.history, round.limit, lines, t.page.more, t.page.nextSeq, t, start, read);
    if Paged(cfg, b, t, true).loading {
      GrowthKeepsReading(c, round.history, here, start, t.page.nextSeq, read + lines);
    }
  }

  /** The frames of one page show what its lines show, when none is refused. */
  lemma CalmFrames(c: Codec, clean: string -> string, wantJoins: bool, lines: seq<string>, frames: seq<string>,
                   groups: seq<Group>, caps: Caps, mask: seq<bool>, blank: string -> bool)
    requires blank("") && Count(mask, false) == 0 && |mask| == |Unfiltered(c, wantJoins, lines)|
    requires Delivered(frames, groups, caps, Payloads(c, clean, Unfiltered(c, wantJoins, lines)), mask)
    ensures AllShown(frames, blank) == Arriving(c, clean, wantJoins, lines, blank)
  {
    DeliveredFramesShowTheirLines(frames, groups, caps, Payloads(c, clean, Unfiltered(c, wantJoins, lines)), mask,
                                  blank);
  }

  /** One page's worth of the arrival invariant. */
  lemma MoreArrives(c: Codec, clean: string -> string, wantJoins: bool, read: seq<string>, lines: seq<string>,
                    frames: seq<string>, more: seq<string>, blank: string -> bool)
    requires AllShown(frames, blank) == Arriving(c, clean, wantJoins, read, blank)
    requires AllShown(more, blank) == Arriving(c, clean, wantJoins, lines, blank)
    ensures AllShown(frames + more, blank) == Arriving(c, clean, wantJoins, read + lines, blank)
  {
    ArrivingConcat(c, clean, wantJoins, read, lines, blank);
    AllShownConcat(frames, more, blank);
  }

  /** The server's side of one round: the page above the cursor, replayed. */
  method ServePage(c: Codec, clean: string -> string, wantJoins: bool, caps: Caps, round: Round, cursor: nat)
    returns (lines: seq<string>, frames: seq<string>, t: Trailer, closed: bool)
    ensures IsPage(c, LinesAfter(c, round.history, cursor), round.limit, lines, t.page.more, t.page.nextSeq)
    ensures Honest(t, cursor)
    ensures TakesAll(round.accept) ==> closed && t.dropped == 0
    ensures TakesAll(round.accept) ==> forall blank: string -> bool :: blank("") ==>
              AllShown(frames, blank) == Arriving(c, clean, wantJoins, lines, blank)
  {
    var more, next;
    ghost var at;
    lines, more, next, at := CollectAfterSeq(c, round.history, cursor, round.limit);
    ghost var groups, mask, sentAt, offered;
    frames, t, closed, groups, mask, sentAt, offered := SendReplayPage(c, clean, wantJoins, caps, round.accept, lines,
                                                      PageMeta("after", next, more));
    PageTrailerIsHonest(c, round.history, cursor, round.limit, wantJoins, lines, more, next, mask, t);
    if TakesAll(round.accept) {
      forall blank: string -> bool | blank("")
        ensures AllShown(frames, blank) == Arriving(c, clean, wantJoins, lines, blank)
      {
        CalmFrames(c, clean, wantJoins, lines, frames, groups, caps, mask, blank);
      }
    }
  }

  /** One round: the request in flight is answered, or the hold timer ends the load. */
  method RunPage(c: Codec, clean: string -> string, wantJoins: bool, caps: Caps, aside: Wire -> bool,
                 blank: string -> bool, round: Round, loader: Loader)
    returns (lines: seq<string>, sent: seq<string>, t: Trailer)
    requires loader.Valid() && loader.loading && loader.retried <= loader.cfg.retries
    modifies loader
    ensures loader.Valid() && loader.retried <= loader.cfg.retries
    ensures loader.maxSeq == old(loader.maxSeq) && loader.startSeq == old(loader.startSeq)
    ensures loader.loading ==>
              || Left(loader.View()) < old(Left(loader.View()))
              || (Left(loader.View()) <= old(Left(loader.View())) && loader.retried > old(loader.retried))
    ensures loader.Count() == CountAll(c, aside, loader.startSeq, loader.maxSeq, old(loader.Count()),
                                       AllShown(sent, blank))
    ensures IsPage(c, LinesAfter(c, round.history, old(loader.cursor)), round.limit, lines, t.page.more, t.page.nextSeq)
    ensures round.limit > 0 && TakesAll(round.accept) && blank("") ==>
              && t.dropped == 0
              && loader.View() == Paged(loader.cfg, old(loader.View()).(loaded := loader.loaded), t, round.sendOk)
              && AllShown(sent, blank) == Arriving(c, clean, wantJoins, lines, blank)
  {
    var closed;
    lines, sent, t, closed := ServePage(c, clean, wantJoins, caps, round, loader.cursor);
    loader.TakeFrames(c, aside, blank, sent);
    PageProgress(loader.cfg, loader.View(), t, round.sendOk);
    if closed && round.limit > 0 {
      loader.OnLoadPage(t, round.sendOk);
    } else {
      loader.FinishLoad();
    }
  }

  /** One more page, and what the load has read, shown and counted with it. */
  method NextPage(c: Codec, clean: string -> string, wantJoins: bool, caps: Caps, aside: Wire -> bool,
                  blank: string -> bool,
                  rounds: nat -> Round, loader: Loader, pages: nat, read: seq<string>, frames: seq<string>,
                  ghost calm: bool, ghost start: nat, ghost top: Option<nat>, ghost rest: seq<string>)
    returns (read': seq<string>, frames': seq<string>, rest': seq<string>)
    requires loader.Valid() && loader.loading && loader.retried <= loader.cfg.retries
    requires CountedFrames(c, aside, blank, loader.startSeq, loader.maxSeq, top, frames, loader.Count())
    requires calm ==> Calm(rounds) && Growing(c, rounds) && blank("")
    requires calm ==> GoesWell(c, clean, wantJoins, blank, loader.cfg, rounds, loader.View(), pages, start, read,
                               frames, rest)
    modifies loader
    ensures loader.Valid() && loader.retried <= loader.cfg.retries
    ensures loader.maxSeq == old(loader.maxSeq) && loader.startSeq == old(loader.startSeq)
    ensures loader.loading ==>
              || Left(loader.View()) < old(Left(loader.View()))
              || (Left(loader.View()) <= old(Left(loader.View())) && loader.retried > old(loader.retried))
    ensures CountedFrames(c, aside, blank, loader.startSeq, loader.maxSeq, top, frames', loader.Count())
    ensures calm ==> GoesWell(c, clean, wantJoins, blank, loader.cfg, rounds, loader.View(), pages + 1, start, read',
                              frames', rest')
  {
    ghost var b := loader.View();
    var lines, sent, t := RunPage(c, clean, wantJoins, caps, aside, blank, rounds(pages), loader);
    MoreCounted(c, aside, loader.startSeq, loader.maxSeq, Counter(top, 0), frames, sent, blank);
    if calm {
      GoesOn(c, clean, wantJoins, blank, loader.cfg, rounds, b, loader.loaded, pages, start, read, frames, rest, lines,
             sent, t);
    }
    read', frames' := read + lines, frames + sent;
    rest' := if t.page.more then LinesAfter(c, rounds(pages).history, t.page.nextSeq) else [];
  }

  /** The counter after the lines these frames show. */
  predicate CountedFrames(c: Codec, aside: Wire -> bool, blank: string -> bool, lo: nat, hi: nat, top: Option<nat>,
                          frames: seq<string>, n: Counter)
  {
    n == CountAll(c, aside, lo, hi, Counter(top, 0), AllShown(frames, blank))
  }

  /** Page after page, until the load ends. */
  method LoadPages(c: Codec, clean: string -> string, wantJoins: bool, caps: Caps, aside: Wire -> bool,
                   blank: string -> bool,
                   rounds: nat -> Round, loader: Loader, ghost calm: bool, ghost start: nat, ghost top: Option<nat>)
    returns (read: seq<string>, frames: seq<string>, pages: nat, rest: seq<string>)
    requires loader.Valid() && loader.retried <= loader.cfg.retries
    requires CountedFrames(c, aside, blank, loader.startSeq, loader.maxSeq, top, [], loader.Count())
    requires calm ==> Calm(rounds) && Growing(c, rounds) && blank("")
    requires calm ==> GoesWell(c, clean, wantJoins, blank, loader.cfg, rounds, loader.View(), 0, start, [], [], [])
    modifies loader
    ensures !loader.loading && loader.maxSeq == old(loader.maxSeq) && loader.startSeq == old(loader.startSeq)
    ensures CountedFrames(c, aside, blank, loader.startSeq, loader.maxSeq, top, frames, loader.Count())
    ensures calm ==> GoesWell(c, clean, wantJoins, blank, loader.cfg, rounds, loader.View(), pages, start, read, frames,
                              rest)
  {
    read, frames, pages, rest := [], [], 0, [];
    while loader.loading
      invariant loader.Valid() && loader.retried <= loader.cfg.retries
      invariant loader.maxSeq == old(loader.maxSeq) && loader.startSeq == old(loader.startSeq)
      invariant CountedFrames(c, aside, blank, loader.startSeq, loader.maxSeq, top, frames, loader.Count())
      invariant calm ==> GoesWell(c, clean, wantJoins, blank, loader.cfg, rounds, loader.View(), pages, start, read,
                                  frames, rest)
      decreases if loader.loading then Left(loader.View()) + 1 else 0, loader.cfg.retries - loader.retried
    {
      read, frames, rest :=
        NextPage(c, clean, wantJoins, caps, aside, blank, rounds, loader, pages, read, frames, calm, start, top, rest);
      pages := pages + 1;
    }
  }

  /** The whole load against a server, page by page. `rounds` says what each request finds;
      `rest` is what the last page left unread. What it counts as loaded are the chained lines
      of its window, above the running tip, that the frames showed. `at` are the positions in
      history of what was read and what was left: every stored wire numbered above the start. */
  method InitialLoad(c: Codec, clean: string -> string, wantJoins: bool, caps: Caps, aside: Wire -> bool,
                     blank: string -> bool,
                     cfg: LoadConfig, top: Option<nat>, announced: nat, sendOk: bool, rounds: nat -> Round)
    returns (read: seq<string>, frames: seq<string>, pages: nat, s: Load, rest: seq<string>, ghost at: seq<nat>)
    ensures !s.loading && s.maxSeq == announced
    ensures s.loaded == CountAll(c, aside, StartOf(cfg, announced) + 1, announced, Counter(top, 0),
                                 AllShown(frames, blank)).loaded
    ensures Calm(rounds) && Growing(c, rounds) && blank("") && sendOk ==>
              && pages > 0
              && StoppedWell(c, cfg, s, rounds(pages - 1).history, StartOf(cfg, announced), read, rest)
              && AllShown(frames, blank) == Arriving(c, clean, wantJoins, read, blank)
    ensures Calm(rounds) && Growing(c, rounds) && blank("") && sendOk ==>
              && pages > 0 && Picks(rounds(pages - 1).history, at, read + rest) && Rises(at)
              && forall i :: 0 <= i < |rounds(pages - 1).history| ==>
                   (i in at <==>
                    && c.unmarshal(rounds(pages - 1).history[i]).Some?
                    && c.unmarshal(rounds(pages - 1).history[i]).value.seqno
                         > if announced > cfg.target then announced - cfg.target else 0)
  {
    at := [];
    ghost var calm := Calm(rounds) && Growing(c, rounds) && blank("") && sendOk;
    var loader := new Loader(cfg, top);
    loader.HandleHistoryInfo(announced, sendOk);
    read, frames, pages, rest :=
      LoadPages(c, clean, wantJoins, caps, aside, blank, rounds, loader, calm, StartOf(cfg, announced), top);
    s := loader.View();
    if calm {
      at := AfterMeaning(c, rounds(pages - 1).history, StartOf(cfg, announced));
    }
  }

  /** What was stored when the last page was served. */
  function LastServed(rounds: nat -> Round, pages: nat): seq<string> {
    if pages == 0 then [] else rounds(pages - 1).history
  }

  /** A calm load so far. */
  ghost predicate GoesWell(c: Codec, clean: string -> string, wantJoins: bool, blank: string -> bool, cfg: LoadConfig,
                           rounds: nat -> Round, s: Load, pages: nat, start: nat,
                           read: seq<string>, frames: seq<string>, rest: seq<string>)
  {
    && (s.loading || pages > 0)
    && OnCourse(c, cfg, s, rounds(pages).history, LastServed(rounds, pages), start, read, rest)
    && AllShown(frames, blank) == Arriving(c, clean, wantJoins, read, blank)
  }

  lemma GoesOn(c: Codec, clean: string -> string, wantJoins: bool, blank: string -> bool, cfg: LoadConfig,
               rounds: nat -> Round, b: Load, loaded: nat, pages: nat, start: nat,
               read: seq<string>, frames: seq<string>, rest: seq<string>, lines: seq<string>, sent: seq<string>,
               t: Trailer)
    requires Calm(rounds) && Growing(c, rounds) && b.loading
    requires GoesWell(c, clean, wantJoins, blank, cfg, rounds, b, pages, start, read, frames, rest)
    requires IsPage(c, LinesAfter(c, rounds(pages).history, b.cursor), rounds(pages).limit, lines, t.page.more,
                    t.page.nextSeq)
    requires t.dropped == 0 && AllShown(sent, blank) == Arriving(c, clean, wantJoins, lines, blank)
    ensures GoesWell(c, clean, wantJoins, blank, cfg, rounds, Paged(cfg, b.(loaded := loaded), t, rounds(pages).sendOk),
                     pages + 1,
                     start, read + lines, frames + sent,
                     if t.page.more then LinesAfter(c, rounds(pages).history, t.page.nextSeq) else [])
  {
    CalmRound(c, cfg, b.(loaded := loaded), rounds(pages), rounds(pages + 1).history, lines, t, start, read);
    MoreArrives(c, clean, wantJoins, read, lines, frames, sent, blank);
  }

  lemma MoreCounted(c: Codec, aside: Wire -> bool, lo: nat, hi: nat, n: Counter, frames: seq<string>,
                    more: seq<string>, blank: string -> bool)
    ensures CountAll(c, aside, lo, hi, n, AllShown(frames + more, blank))
         == CountAll(c, aside, lo, hi, CountAll(c, aside, lo, hi, n, AllShown(frames, blank)), AllShown(more, blank))
  {
    AllShownConcat(frames, more, blank);
    CountConcat(c, aside, lo, hi, n, AllShown(frames, blank), AllShown(more, blank));
  }
}
