/** The client session in the program's own shape: one object whose fields each frame,
    trailer and timer updates, and one window object per refill. Every method is tied to
    the tracker's state machine, where the properties are proved. */
module Sessions {
  import opened Basics
  import opened WireModel
  import opened HashChain
  import opened Refill
  import opened Tracker

  /** One outstanding refill. Timers hold a reference to it; the ghost number stands for
      that reference in the state machine. */
  class RecoverWindow {
    ghost const id: nat
    var missing: set<nat>
    var known: map<nat, Digest>
    var live: set<nat>
    var maxMissing: nat
    var received: nat
    var attempts: nat
    var failed: bool

    constructor (ghost id: nat)
      ensures View() == NewWindow(id)
    {
      this.id := id;
      missing, known, live, maxMissing, received, attempts, failed := {}, map[], {}, 0, 0, 0, false;
    }

    ghost function View(): Window
      reads this
    {
      Window(id, missing, known, live, maxMissing, received, attempts, failed)
    }

    /** Takes the heights of one run out of the window. */
    method DropHeights(lo: nat, hi: nat)
      modifies this`missing, this`live
      ensures View() == Taken(old(View()), Heights(lo, hi))
    {
      var h := lo;
      while h <= hi
        invariant lo <= h && (h <= hi + 1 || h == lo)
        invariant forall x :: x in missing <==> x in old(missing) && !(lo <= x < h)
        invariant forall x :: x in live <==> x in old(live) && !(lo <= x < h)
      {
        missing, live := missing - {h}, live - {h};
        h := h + 1;
      }
      assert missing == old(missing) - Heights(lo, hi) && live == old(live) - Heights(lo, hi);
    }

    /** Drops the missing heights whose run starts next to nothing known. (How many were
        dropped is not reported: no caller reads it.) */
    method PruneMissing()
      modifies this`missing, this`live
      ensures View() == Pruned(old(View()))
    {
      ghost var start, kept := View(), Recoverable(missing, known);
      var runs := MissingRuns(missing);
      forall k: nat | k < |runs| ensures WholeRun(kept, known, runs, k) {
        RunIsWhole(missing, known, kept, runs, k);
      }
      DropRuns(runs, kept);
      AllRunsLost(start.missing, kept, runs);
      PrunedIs(start);
    }

    /** Takes out, run by run, those that start next to nothing known. */
    method DropRuns(runs: seq<HeightRange>, ghost kept: set<nat>)
      requires forall k: nat :: k < |runs| ==> WholeRun(kept, known, runs, k)
      modifies this`missing, this`live
      ensures View() == Taken(old(View()), Lost(kept, runs, |runs|))
    {
      NothingTaken(View());
      for k := 0 to |runs|
        invariant known == old(known) && View() == Taken(old(View()), Lost(kept, runs, k))
      {
        var run := runs[k];
        assert WholeRun(kept, known, runs, k);
        if run.from > 0 && run.from - 1 in known {
          continue;
        }
        TakenTwice(old(View()), Lost(kept, runs, k), Heights(run.from, run.to));
        DropHeights(run.from, run.to);
      }
    }

    /** Adds a gap's heights one by one, and the anchor below it. */
    method AddGap(lo: nat, hi: nat, anchorHeight: nat, anchorHash: Digest)
      requires lo <= hi
      modifies this`missing, this`live, this`maxMissing, this`known
      ensures View() == WithGap(old(View()), lo, hi, anchorHeight, anchorHash)
    {
      for h := lo to hi + 1
        invariant forall x :: x in missing <==> x in old(missing) || lo <= x < h
        invariant forall x :: x in live <==> x in old(live) || lo <= x < h
        invariant known == old(known) && (h == lo ==> maxMissing == old(maxMissing))
        invariant h > lo ==> maxMissing == if h - 1 > old(maxMissing) then h - 1 else old(maxMissing)
      {
        missing, live := missing + {h}, live + {h};
        if h > maxMissing {
          maxMissing := h;
        }
      }
      known := known[anchorHeight := anchorHash];
      assert missing == old(missing) + Heights(lo, hi) && live == old(live) + Heights(lo, hi);
    }
  }

  /** The window without some of its heights. */
  function Taken(w: Window, lost: set<nat>): Window {
    w.(missing := w.missing - lost, live := w.live - lost)
  }

  lemma NothingTaken(w: Window)
    ensures Taken(w, {}) == w
  {
    assert w.missing - {} == w.missing && w.live - {} == w.live;
  }

  lemma TakenTwice(w: Window, a: set<nat>, b: set<nat>)
    ensures Taken(Taken(w, a), b) == Taken(w, a + b)
  {
    assert (w.missing - a) - b == w.missing - (a + b);
    assert (w.live - a) - b == w.live - (a + b);
  }

  lemma PrunedIs(w: Window)
    ensures Taken(w, w.missing - Recoverable(w.missing, w.known)) == Pruned(w)
  {
    var kept := Recoverable(w.missing, w.known);
    assert w.missing - (w.missing - kept) == kept;
  }

  /** What the first k runs lose. */
  function Lost(kept: set<nat>, runs: seq<HeightRange>, k: nat): set<nat>
    requires k <= |runs|
  {
    if k == 0 then {}
    else Lost(kept, runs, k - 1) + (Heights(runs[k - 1].from, runs[k - 1].to) - kept)
  }

  lemma {:induction false} LostBefore(kept: set<nat>, runs: seq<HeightRange>, k: nat, h: nat)
    requires k <= |runs|
    ensures h in Lost(kept, runs, k) <==> h !in kept && exists i :: 0 <= i < k && InRange(runs[i], h)
  {
    if k > 0 {
      LostBefore(kept, runs, k - 1, h);
      assert InRange(runs[k - 1], h) <==> h in Heights(runs[k - 1].from, runs[k - 1].to);
    }
  }

  lemma AllRunsLost(missing: set<nat>, kept: set<nat>, runs: seq<HeightRange>)
    requires kept <= missing && forall h :: h in missing <==> InRanges(runs, h)
    ensures Lost(kept, runs, |runs|) == missing - kept
  {
    forall h: nat ensures h in Lost(kept, runs, |runs|) <==> h in missing - kept {
      LostBefore(kept, runs, |runs|, h);
    }
  }

  predicate WholeRun(kept: set<nat>, known: map<nat, Digest>, runs: seq<HeightRange>, k: nat)
    requires k < |runs|
  {
    if runs[k].from > 0 && runs[k].from - 1 in known then Lost(kept, runs, k + 1) == Lost(kept, runs, k)
    else Lost(kept, runs, k + 1) == Lost(kept, runs, k) + Heights(runs[k].from, runs[k].to)
  }

  /** A run is kept or lost as a whole. */
  lemma RunIsWhole(missing: set<nat>, known: map<nat, Digest>, kept: set<nat>, runs: seq<HeightRange>, k: nat)
    requires Separated(runs) && (forall h :: h in missing <==> InRanges(runs, h)) && k < |runs|
    requires kept == Recoverable(missing, known)
    ensures WholeRun(kept, known, runs, k)
  {
    var from := runs[k].from;
    assert from > 0 ==> from - 1 !in missing by {
      forall i | 0 <= i < |runs| && from > 0 ensures !InRange(runs[i], from - 1) {
        assert i < k ==> runs[i].to + 1 < runs[k].from;
        assert k < i ==> runs[k].to + 1 < runs[i].from;
      }
    }
    forall h | h in Heights(from, runs[k].to)
      ensures h in kept <==> from > 0 && from - 1 in known
    {
      forall x | from <= x <= h ensures x in missing {
        assert InRange(runs[k], x);
      }
      RunStartOf(missing, from, h);
    }
  }

  lemma JumpedIs(cfg: Config, s: State, lo: nat, hi: nat, at: nat, tip: Digest, sendOk: bool)
    requires lo == s.core.height + 1 && at == hi + 1
    ensures Jumped(cfg, s, tip, hi, sendOk)
         == Landed(GapFiled(cfg, s, lo, hi, sendOk), tip, at, NowPending(cfg, s, lo, hi, sendOk))
  {
  }

  predicate JumpDone(cfg: Config, s: State, tip: Digest, at: nat, sendOk: bool, s': State)
    requires at > 0
  {
    s' == JumpJudged(cfg, s, tip, at - 1, sendOk)
  }

  predicate BreakDone(s: State, msg: Wire, s': State) {
    s' == BreakJudged(s, msg)
  }

  lemma JumpIsJudged(hs: Hasher, cfg: Config, s: State, msg: Wire, tip: Digest, at: nat, sendOk: bool, s': State)
    requires LinkVerdict(hs, s.core, msg) == Broken(PrevMismatch) && ForwardJump(s.core, msg, PrevMismatch)
    requires tip == msg.hash.digest && at == msg.height && JumpDone(cfg, s, tip, at, sendOk, s')
    ensures s' == Judge(hs, cfg, s, msg, sendOk)
  {
    assert Adopted(cfg, s, msg, Broken(PrevMismatch), sendOk) == JumpJudged(cfg, s, tip, at - 1, sendOk);
  }

  lemma BreakIsJudged(hs: Hasher, cfg: Config, s: State, msg: Wire, error: LinkError, sendOk: bool, s': State)
    requires LinkVerdict(hs, s.core, msg) == Broken(error) && !ForwardJump(s.core, msg, error)
    requires BreakDone(s, msg, s')
    ensures s' == Judge(hs, cfg, s, msg, sendOk)
  {
  }

  class Session {
    const cfg: Config
    var connected: bool
    var haveTip: bool
    var tip: Digest
    var height: nat
    var recoverPending: RecoverWindow?
    var recoverGen: nat
    var liveRecovered: nat
    var warned: bool
    var gapWarned: bool
    var inSync: bool
    var loading: bool
    var inOlder: bool
    var inRecover: bool
    var loadLoaded: nat
    var syncHeights: map<nat, Digest>

    /** Every window ever made, by number, and what has happened so far. */
    ghost var windows: seq<RecoverWindow>
    ghost var trail: Trail

    ghost predicate Valid()
      reads this`windows, this`recoverPending
    {
      && (forall i :: 0 <= i < |windows| ==> windows[i].id == i)
      && (recoverPending != null ==> Known(recoverPending))
    }

    ghost predicate Known(p: RecoverWindow)
      reads this`windows
    {
      p.id < |windows| && windows[p.id] == p
    }

    ghost function Pending(): Option<Window>
      reads this`recoverPending, recoverPending
    {
      if recoverPending == null then None else Some(recoverPending.View())
    }

    ghost function CoreView(): Core
      reads this, recoverPending
    {
      Core(haveTip, tip, height, Pending(), recoverGen, |windows|, liveRecovered, trail)
    }

    ghost function View(): State
      reads this, recoverPending
    {
      State(CoreView(), connected, warned, gapWarned, inSync, loading, inOlder, inRecover, loadLoaded, syncHeights)
    }

    constructor (cfg: Config, connected: bool)
      ensures Valid() && this.cfg == cfg && View() == Fresh(connected)
    {
      this.cfg, this.connected := cfg, connected;
      haveTip, tip, height, recoverPending, recoverGen, liveRecovered := false, 0, 0, null, 0, 0;
      warned, gapWarned, inSync, loading, inOlder, inRecover := false, false, false, false, false, false;
      loadLoaded, syncHeights, windows := 0, map[], [];
      trail := Trail(map[], map[], [], {});
    }

    method NoteChainTip(tip: Digest, height: nat)
      requires Valid()
      modifies this`haveTip, this`tip, this`height, this`trail
      ensures Valid() && CoreView() == NoteTip(old(CoreView()), tip, height)
    {
      this.tip, this.height, haveTip := tip, height, true;
      trail := trail.(tips := trail.tips[height := tip]);
    }

    /** Asks for exactly what is still missing, as ranges, and arms the settle timer. */
    method SendRecover(sendOk: bool) returns (sent: bool, ranges: seq<HeightRange>)
      requires Valid()
      modifies this`inRecover, this`recoverGen, this`trail, recoverPending
      ensures Valid()
      ensures (CoreView(), sent) == Tracker.SendRecover(old(CoreView()), connected, sendOk)
      ensures inRecover == (old(inRecover) || sent)
      ensures sent ==> recoverPending != null && Separated(ranges)
                       && forall h :: h in recoverPending.missing <==> InRanges(ranges, h)
    {
      var p := recoverPending;
      ranges := [];
      if p == null || !connected {
        return false, ranges;
      }
      p.PruneMissing();
      ghost var pruned := CoreView();
      assert pruned == old(CoreView()).(pending := Some(Pruned(old(Pending()).value)));
      if p.missing == {} {
        NothingSent(old(CoreView()), connected, sendOk);
        return false, ranges;
      }
      ranges := MissingRuns(p.missing);
      if !sendOk {
        NothingSent(old(CoreView()), connected, sendOk);
        return false, ranges;
      }
      RequestSent(old(CoreView()), connected, pruned);
      MarkSent(p);
      sent := true;
    }

    /** A request went out: it is counted, and its settle timer armed. */
    method MarkSent(p: RecoverWindow)
      requires Valid() && p == recoverPending
      modifies this`inRecover, this`recoverGen, this`trail, p`attempts, p`received, p`failed
      ensures Valid() && inRecover && CoreView() == Requested(old(CoreView()))
    {
      inRecover := true;
      p.attempts, p.received, p.failed := p.attempts + 1, 0, false;
      recoverGen := recoverGen + 1;
      trail := trail.(requests := trail.requests + [p.id], armed := trail.armed + {Settle(recoverGen, p.id)});
    }

    /** The window a gap joins: the pending one, or a fresh one. */
    method JoinWindow() returns (p: RecoverWindow)
      requires Valid()
      modifies this`recoverPending, this`windows
      ensures Valid() && p == recoverPending && CoreView() == Joined(old(CoreView()))
      ensures if old(recoverPending) == null then fresh(p) else p == old(recoverPending)
    {
      if recoverPending == null {
        recoverPending := new RecoverWindow(|windows|);
        windows := windows + [recoverPending];
      }
      p := recoverPending;
    }

    /** Files a refill for a live gap; reports whether the heights are now pending. */
    method MaybeRequestRecovery(lo: nat, hi: nat, anchorHeight: nat, anchorHash: Digest, sendOk: bool)
      returns (filed: bool)
      requires Valid()
      modifies this`inRecover, this`recoverGen, this`trail, this`recoverPending, this`windows, recoverPending
      ensures Valid()
      ensures CoreView() == MaybeRequest(cfg, old(CoreView()), connected, lo, hi, anchorHeight, anchorHash, sendOk)
      ensures inRecover == (old(inRecover)
                            || WentOut(cfg, old(CoreView()), connected, lo, hi, anchorHeight, anchorHash, sendOk))
      ensures filed == (WentOut(cfg, old(CoreView()), connected, lo, hi, anchorHeight, anchorHash, sendOk)
                        || FilingOf(cfg, old(CoreView()), connected, lo, hi).Queued?)
      ensures recoverPending == null || recoverPending == old(recoverPending) || fresh(recoverPending)
    {
      if !connected || lo == 0 || hi < lo {
        RefusedStays(cfg, CoreView(), connected, lo, hi, anchorHeight, anchorHash, sendOk);
        return false;
      }
      var p := JoinWindow();
      var gap := hi - lo + 1;
      if cfg.recoverCap > 0 && liveRecovered + |p.live| + gap > cfg.recoverCap {
        TooManyDrops(cfg, old(CoreView()), connected, lo, hi, anchorHeight, anchorHash, sendOk);
        if p.missing == {} {
          recoverPending := null;
        }
        return false;
      }
      FiledJoins(cfg, old(CoreView()), connected, lo, hi, anchorHeight, anchorHash, sendOk);
      filed := AddAndAsk(p, lo, hi, anchorHeight, anchorHash, sendOk);
    }

    /** Adds the gap to the window, and asks for it when no attempt is in flight: otherwise it
        rides the next retry. */
    method AddAndAsk(p: RecoverWindow, lo: nat, hi: nat, anchorHeight: nat, anchorHash: Digest, sendOk: bool)
      returns (filed: bool)
      requires Valid() && p == recoverPending && lo <= hi
      modifies this`inRecover, this`recoverGen, this`trail, p
      ensures Valid()
      ensures var added := old(CoreView()).(pending := Some(WithGap(old(p.View()), lo, hi, anchorHeight, anchorHash)));
              var asked := Tracker.SendRecover(added, connected, sendOk);
              if old(p.attempts) == 0
              then CoreView() == asked.0 && filed == asked.1 && inRecover == (old(inRecover) || asked.1)
              else CoreView() == added && filed && inRecover == old(inRecover)
    {
      p.AddGap(lo, hi, anchorHeight, anchorHash);
      assert CoreView() == old(CoreView()).(pending := Some(WithGap(old(p.View()), lo, hi, anchorHeight, anchorHash)));
      if p.attempts == 0 {
        var sent, _ := SendRecover(sendOk);
        return sent;
      }
      filed := true;
    }

    /** One wire against the running tip. */
    method CheckChainLink(hs: Hasher, msg: Wire, sendOk: bool)
      requires Valid()
      modifies this, recoverPending
      ensures Valid() && View() == CheckLink(hs, cfg, old(View()), msg, sendOk)
      ensures recoverPending == null || recoverPending == old(recoverPending) || fresh(recoverPending)
    {
      if msg.hash.Absent? {
        return;
      }
      if inSync && msg.hash.Hex? {
        syncHeights := syncHeights[msg.height := msg.hash.digest];
      }
      if haveTip && msg.height <= height {
        return;
      }
      if loading && inSync {
        loadLoaded := loadLoaded + 1;
      }
      assert View() == CountLoad(NoteSync(old(View()), msg));
      JudgeLink(hs, msg, sendOk);
    }

    /** Verifies a wire the tip does not cover, and moves the tip as the verdict says. */
    method JudgeLink(hs: Hasher, msg: Wire, sendOk: bool)
      requires Valid() && !msg.hash.Absent? && (haveTip ==> msg.height > height)
      modifies this, recoverPending
      ensures Valid() && View() == Judge(hs, cfg, old(View()), msg, sendOk)
      ensures recoverPending == null || recoverPending == old(recoverPending) || fresh(recoverPending)
    {
      var verdict := VerifyWireLink(hs, msg, tip);
      if verdict.Broken? && !haveTip && msg.prev.Hex? {
        verdict := VerifyWireLink(hs, msg, msg.prev.digest);
      }
      assert verdict == LinkVerdict(hs, CoreView(), msg);
      match verdict {
        case Tip(newTip) => NoteChainTip(newTip, msg.height);
        case Broken(error) =>
          ghost var s := View();
          if msg.hash.Hex? && haveTip && error == PrevMismatch && msg.height > height + 1 {
            AdoptJump(msg.hash.digest, msg.height, sendOk);
            JumpIsJudged(hs, cfg, s, msg, msg.hash.digest, msg.height, sendOk, View());
          } else {
            AdoptBroken(msg);
            BreakIsJudged(hs, cfg, s, msg, error, sendOk, View());
          }
      }
    }

    /** A forward jump: adopted silently during a join replay, re-anchored otherwise. */
    method AdoptJump(newTip: Digest, at: nat, sendOk: bool)
      requires Valid() && haveTip && at > height + 1
      modifies this, recoverPending
      ensures Valid() && JumpDone(cfg, old(View()), newTip, at, sendOk, View())
      ensures recoverPending == null || recoverPending == old(recoverPending) || fresh(recoverPending)
    {
      if inSync {
        NoteChainTip(newTip, at);
      } else {
        Reanchor(newTip, at, sendOk);
      }
    }

    /** Any other broken link: warns, and adopts the hash when it is well formed. */
    method AdoptBroken(msg: Wire)
      requires Valid()
      modifies this`warned, this`haveTip, this`tip, this`height, this`trail
      ensures Valid() && BreakDone(old(View()), msg, View())
    {
      warned := true;
      if msg.hash.Hex? && (haveTip || msg.prev.Hex?) {
        NoteChainTip(msg.hash.digest, msg.height);
      }
    }

    /** A forward jump: the frames in between were lost on the way, not rewritten. */
    method Reanchor(newTip: Digest, at: nat, sendOk: bool)
      requires Valid() && haveTip && at > height + 1
      modifies this, recoverPending
      ensures Valid()
      ensures View() == Jumped(cfg, old(View()), newTip, at - 1, sendOk)
      ensures recoverPending == null || recoverPending == old(recoverPending) || fresh(recoverPending)
    {
      var lo, hi := height + 1, at - 1;
      JumpedIs(cfg, View(), lo, hi, at, newTip, sendOk);
      var filed := FileGap(lo, hi, sendOk);
      Land(newTip, at, filed);
    }

    method FileGap(lo: nat, hi: nat, sendOk: bool) returns (filed: bool)
      requires Valid()
      modifies this`inRecover, this`recoverGen, this`trail, this`recoverPending, this`windows, recoverPending
      ensures Valid()
      ensures View() == GapFiled(cfg, old(View()), lo, hi, sendOk)
      ensures filed == NowPending(cfg, old(View()), lo, hi, sendOk)
      ensures recoverPending == null || recoverPending == old(recoverPending) || fresh(recoverPending)
    {
      filed := MaybeRequestRecovery(lo, hi, height, tip, sendOk);
    }

    /** Adopts the tip above a gap, warning once when the gap is not pending. */
    method Land(newTip: Digest, at: nat, filed: bool)
      requires Valid()
      modifies this`haveTip, this`tip, this`height, this`trail, this`gapWarned
      ensures Valid() && View() == Landed(old(View()), newTip, at, filed)
    {
      if !filed {
        gapWarned := true;
      }
      NoteChainTip(newTip, at);
    }

    /** One wire while a refill answer is arriving. */
    method CheckRecoverWire(hs: Hasher, msg: Wire, sendOk: bool)
      requires Valid()
      modifies this, recoverPending
      ensures Valid() && View() == CheckRecover(hs, cfg, old(View()), msg, sendOk)
      ensures recoverPending == null || recoverPending == old(recoverPending) || fresh(recoverPending)
    {
      var p := recoverPending;
      if p == null || msg.hash.Absent? || msg.height > p.maxMissing {
        inRecover := false;
        CheckChainLink(hs, msg, sendOk);
        return;
      }
      RecoverWire(hs, p, msg);
    }

    /** A wire inside the refill window: verified against the height below it. */
    method RecoverWire(hs: Hasher, p: RecoverWindow, msg: Wire)
      requires Valid() && p == recoverPending
      modifies this`liveRecovered, this`trail, p
      ensures Valid() && CoreView() == RecoverInto(hs, old(CoreView()), old(p.View()), msg)
    {
      if msg.height !in p.missing {
        return;
      }
      if msg.height == 0 || msg.height - 1 !in p.known {
        p.failed := true;
        return;
      }
      var verdict := VerifyWireLink(hs, msg, p.known[msg.height - 1]);
      if verdict.Broken? {
        p.failed := true;
        return;
      }
      TakeRecovered(p, msg, verdict.digest);
    }

    /** Renders a verified refill wire: one height less is missing, one more is known. */
    method TakeRecovered(p: RecoverWindow, msg: Wire, h: Digest)
      requires Valid() && p == recoverPending
      modifies this`liveRecovered, this`trail, p
      ensures CoreView() == Recovered(old(CoreView()), old(p.View()), msg, h)
    {
      p.missing := p.missing - {msg.height};
      p.known := p.known[msg.height := h];
      if msg.height in p.live {
        liveRecovered := liveRecovered + 1;
        p.live := p.live - {msg.height};
      }
      p.received := p.received + 1;
      trail := trail.(recovered := trail.recovered[msg.height := msg]);
      assert p.live == old(p.live) - {msg.height};
    }

    /** A frame of the live stream or of a replay, by the window flags. */
    method OnWire(hs: Hasher, msg: Wire, older: bool, sendOk: bool)
      requires Valid()
      modifies this, recoverPending
      ensures Valid() && View() == OnFrame(hs, cfg, old(View()), msg, older, sendOk)
      ensures recoverPending == null || recoverPending == old(recoverPending) || fresh(recoverPending)
    {
      var wasOlder := inOlder;
      if wasOlder && older {
        return;
      }
      inOlder := false;
      assert View() == old(View()).(inOlder := false);
      CheckWire(hs, msg, sendOk);
      inOlder := wasOlder;
    }

    /** A frame outside older windows: part of a refill answer, or a link to follow. */
    method CheckWire(hs: Hasher, msg: Wire, sendOk: bool)
      requires Valid()
      modifies this, recoverPending
      ensures Valid() && View() == Checked(hs, cfg, old(View()), msg, sendOk)
      ensures recoverPending == null || recoverPending == old(recoverPending) || fresh(recoverPending)
    {
      if inRecover {
        CheckRecoverWire(hs, msg, sendOk);
      } else {
        CheckChainLink(hs, msg, sendOk);
      }
    }

    /** Gives the pending refill up, when it is still this one. */
    method AbandonRecovery(p: RecoverWindow)
      requires Valid()
      modifies this`recoverPending, this`inRecover
      ensures Valid()
      ensures recoverPending == if old(recoverPending) == p then null else old(recoverPending)
      ensures inRecover == (old(inRecover) && old(recoverPending) != p)
    {
      if recoverPending != p {
        return;
      }
      recoverPending, inRecover := null, false;
    }

    /** Settles one attempt: done, retry later, or give up. */
    method FinishRecovery()
      requires Valid()
      modifies this`recoverPending, this`inRecover, this`recoverGen, this`trail
      ensures Valid() && View() == Finish(cfg, old(View()))
    {
      var p := recoverPending;
      if p == null {
        inRecover := false;
        return;
      }
      if p.missing == {} && !p.failed {
        recoverPending, inRecover := null, false;
        return;
      }
      if p.attempts <= cfg.retries {
        recoverGen := recoverGen + 1;
        trail := trail.(armed := trail.armed + {Retry(recoverGen, p.id)});
        return;
      }
      AbandonRecovery(p);
    }

    /** A settle timer armed for this generation and window fires. */
    method SettleFires(gen: nat, p: RecoverWindow, sendOk: bool)
      requires Valid() && Known(p)
      modifies this`recoverPending, this`inRecover, this`recoverGen, this`trail
      ensures Valid() && View() == Fire(cfg, old(View()), Settle(gen, p.id), sendOk)
    {
      if recoverGen == gen && recoverPending == p {
        FinishRecovery();
      }
    }

    /** A retry timer fires: send again, or give the refill up. */
    method RetryFires(gen: nat, p: RecoverWindow, sendOk: bool)
      requires Valid() && Known(p)
      modifies this`recoverPending, this`inRecover, this`recoverGen, this`trail, p
      ensures Valid() && View() == Fire(cfg, old(View()), Retry(gen, p.id), sendOk)
    {
      if recoverGen == gen && recoverPending == p {
        var sent, _ := SendRecover(sendOk);
        if !sent {
          AbandonRecovery(p);
        }
      }
    }

    /** A replay trailer outside the initial load. */
    method OnTrailer(recover: bool)
      requires Valid()
      modifies this`recoverPending, this`inRecover, this`inOlder, this`recoverGen, this`trail
      ensures Valid() && View() == Trailer(cfg, old(View()), recover)
    {
      if inOlder {
        inOlder := false;
        if recoverPending != null {
          FinishRecovery();
        }
        return;
      }
      if inRecover || recoverPending != null || recover {
        inRecover := false;
        FinishRecovery();
      }
    }
  }
}
