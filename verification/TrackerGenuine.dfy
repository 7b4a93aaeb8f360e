/** The chain tracker fed by an honest server over a network that may drop, repeat and
    reorder: it never cries tamper, its tip is always a real link, and a complete refill
    answer empties the window. */
module TrackerGenuine {
  import opened Basics
  import opened WireModel
  import opened HashChain
  import opened Refill
  import opened Tracker
  import opened TrackerSafety

  /** The hash of the log's link at a height. */
  function LinkHash(hs: Hasher, start: Digest, log: seq<Wire>, height: nat): Digest
    requires height <= |log|
  {
    EndTip(start, log[..height])
  }

  /** Unchained, or exactly the log's wire at its height. */
  predicate Genuine(log: seq<Wire>, w: Wire) {
    w.hash.Absent? || (0 < w.height <= |log| && w == log[w.height - 1])
  }

  /** Tip and known hashes are the log's own. */
  predicate Real(hs: Hasher, start: Digest, log: seq<Wire>, k: Core) {
    && (k.haveTip ==> 0 < k.height <= |log| && k.tip == LinkHash(hs, start, log, k.height))
    && (k.pending.Some? ==>
          forall h :: h in k.pending.value.known ==>
            0 < h <= |log| && k.pending.value.known[h] == LinkHash(hs, start, log, h))
  }

  /** A genuine wire verifies against the log's link before it, and only says PrevMismatch
      against any other digest. */
  lemma {:induction false} GenuineVerdict(hs: Hasher, start: Digest, log: seq<Wire>, w: Wire, prev: Digest)
    requires ServerLog(hs, start, log) && Genuine(log, w) && !w.hash.Absent?
    ensures VerifyWireLink(hs, w, prev) ==
              if prev == LinkHash(hs, start, log, w.height - 1) then HashChain.Tip(LinkHash(hs, start, log, w.height))
              else Broken(PrevMismatch)
    ensures w.prev == Hex(LinkHash(hs, start, log, w.height - 1)) && w.hash == Hex(LinkHash(hs, start, log, w.height))
  {
    var i := w.height - 1;
    RunAt(hs, start, 0, log, i);
    assert log[..i + 1][i] == log[i];
    assert log[..w.height] == log[..i + 1];
  }

  lemma GenuineLink(hs: Hasher, start: Digest, log: seq<Wire>, k: Core, msg: Wire)
    requires ServerLog(hs, start, log) && Real(hs, start, log, k) && Genuine(log, msg) && !msg.hash.Absent?
    requires k.haveTip ==> msg.height > k.height
    ensures !Breaks(hs, k, msg)
    ensures match LinkVerdict(hs, k, msg)
            case Tip(tip) => tip == LinkHash(hs, start, log, msg.height)
            case Broken(e) => ForwardJump(k, msg, e)
  {
    GenuineVerdict(hs, start, log, msg, k.tip);
    if msg.prev.Hex? {
      GenuineVerdict(hs, start, log, msg, msg.prev.digest);
    }
  }

  lemma AskReal(hs: Hasher, start: Digest, log: seq<Wire>, k: Core, connected: bool, sendOk: bool)
    requires Real(hs, start, log, k)
    ensures Real(hs, start, log, SendRecover(k, connected, sendOk).0)
  {
  }

  lemma RequestReal(hs: Hasher, cfg: Config, start: Digest, log: seq<Wire>, k: Core, connected: bool, last: nat,
                    sendOk: bool)
    requires Real(hs, start, log, k) && k.haveTip
    ensures Real(hs, start, log, MaybeRequest(cfg, k, connected, k.height + 1, last, k.height, k.tip, sendOk))
  {
    var k' := MaybeRequest(cfg, k, connected, k.height + 1, last, k.height, k.tip, sendOk);
    var added := GapAdded(k, k.height + 1, last, k.height, k.tip);
    assert Real(hs, start, log, added);
    match FilingOf(cfg, k, connected, k.height + 1, last)
    case Asked =>
      AskReal(hs, start, log, added, connected, sendOk);
      assert k' == SendRecover(added, connected, sendOk).0;
    case Queued => assert k' == added;
    case TooMany => assert k' == Joined(k) || k' == Joined(k).(pending := None);
    case Refused =>
  }

  lemma NoteReal(hs: Hasher, start: Digest, log: seq<Wire>, k: Core, height: nat)
    requires Real(hs, start, log, k) && 0 < height <= |log|
    ensures Real(hs, start, log, NoteTip(k, LinkHash(hs, start, log, height), height))
  {
  }

  lemma RefillReal(hs: Hasher, start: Digest, log: seq<Wire>, k: Core, msg: Wire)
    requires ServerLog(hs, start, log) && Real(hs, start, log, k) && Genuine(log, msg) && !msg.hash.Absent?
             && k.pending.Some?
    ensures Real(hs, start, log, RecoverInto(hs, k, k.pending.value, msg))
  {
    var p := k.pending.value;
    if msg.height - 1 in p.known {
      GenuineVerdict(hs, start, log, msg, p.known[msg.height - 1]);
    }
  }

  lemma JumpReal(hs: Hasher, cfg: Config, start: Digest, log: seq<Wire>, k: Core, connected: bool, tip: Digest,
                 last: nat, sendOk: bool)
    requires Real(hs, start, log, k) && k.haveTip && last < |log| && tip == LinkHash(hs, start, log, last + 1)
    ensures Real(hs, start, log, Above(cfg, k, connected, tip, last, sendOk))
  {
    var k' := MaybeRequest(cfg, k, connected, k.height + 1, last, k.height, k.tip, sendOk);
    RequestReal(hs, cfg, start, log, k, connected, last, sendOk);
    NoteReal(hs, start, log, k', last + 1);
    assert Above(cfg, k, connected, tip, last, sendOk) == NoteTip(k', tip, last + 1);
  }

  /** A genuine wire above the tip is adopted, at once or over a jump. */
  lemma GenuineMove(hs: Hasher, start: Digest, log: seq<Wire>, k: Core, inSync: bool, connected: bool, msg: Wire,
                    sendOk: bool)
    requires ServerLog(hs, start, log) && Real(hs, start, log, k) && Genuine(log, msg) && !msg.hash.Absent?
    requires k.haveTip ==> msg.height > k.height
    ensures var m, tip := JudgeMove(hs, k, inSync, connected, msg, sendOk), LinkHash(hs, start, log, msg.height);
            m == Advance(tip, msg.height) || (k.haveTip && m == Jump(connected, tip, msg.height - 1, sendOk))
  {
    GenuineLink(hs, start, log, k, msg);
    GenuineVerdict(hs, start, log, msg, k.tip);
  }

  lemma JudgeReal(hs: Hasher, cfg: Config, start: Digest, log: seq<Wire>, k: Core, inSync: bool, connected: bool,
                  msg: Wire, sendOk: bool)
    requires ServerLog(hs, start, log) && Real(hs, start, log, k) && Genuine(log, msg) && !msg.hash.Absent?
    requires k.haveTip ==> msg.height > k.height
    ensures Real(hs, start, log, Moved(hs, cfg, k, JudgeMove(hs, k, inSync, connected, msg, sendOk)))
  {
    GenuineMove(hs, start, log, k, inSync, connected, msg, sendOk);
    AdoptReal(hs, cfg, start, log, k, JudgeMove(hs, k, inSync, connected, msg, sendOk), connected, msg.height, sendOk);
  }

  lemma AdoptReal(hs: Hasher, cfg: Config, start: Digest, log: seq<Wire>, k: Core, m: Move, connected: bool,
                  height: nat, sendOk: bool)
    requires Real(hs, start, log, k) && 0 < height <= |log|
    requires var tip := LinkHash(hs, start, log, height);
             m == Advance(tip, height) || (k.haveTip && m == Jump(connected, tip, height - 1, sendOk))
    ensures Real(hs, start, log, Moved(hs, cfg, k, m))
  {
    if m.Jump? {
      JumpReal(hs, cfg, start, log, k, m.connected, m.tip, m.last, m.sendOk);
      assert Moved(hs, cfg, k, m) == Above(cfg, k, m.connected, m.tip, m.last, m.sendOk);
    } else {
      NoteReal(hs, start, log, k, height);
      assert Moved(hs, cfg, k, m) == NoteTip(k, m.tip, height);
    }
  }

  lemma LinkReal(hs: Hasher, cfg: Config, start: Digest, log: seq<Wire>, s: State, msg: Wire, sendOk: bool)
    requires ServerLog(hs, start, log) && Real(hs, start, log, s.core) && Genuine(log, msg)
    ensures Real(hs, start, log, Moved(hs, cfg, s.core, LinkMove(hs, s, msg, sendOk)))
  {
    if !msg.hash.Absent? && !(s.core.haveTip && msg.height <= s.core.height) {
      JudgeReal(hs, cfg, start, log, s.core, s.inSync, s.connected, msg, sendOk);
    }
  }

  lemma LinkTrusted(hs: Hasher, cfg: Config, start: Digest, log: seq<Wire>, s: State, msg: Wire, sendOk: bool)
    requires ServerLog(hs, start, log) && Real(hs, start, log, s.core) && Genuine(log, msg)
    ensures CheckLink(hs, cfg, s, msg, sendOk).warned == s.warned
  {
    var s' := CountLoad(NoteSync(s, msg));
    assert s'.core == s.core && s'.warned == s.warned;
    if !msg.hash.Absent? && !(s.core.haveTip && msg.height <= s.core.height) {
      GenuineLink(hs, start, log, s.core, msg);
      JudgeWarns(hs, cfg, s', msg, sendOk);
    }
  }

  lemma JumpWarnsNot(cfg: Config, s: State, tip: Digest, last: nat, sendOk: bool)
    ensures JumpJudged(cfg, s, tip, last, sendOk).warned == s.warned
  {
  }

  lemma BreakWarns(s: State, msg: Wire)
    ensures BreakJudged(s, msg).warned
  {
  }

  lemma VerdictWarns(cfg: Config, s: State, msg: Wire, verdict: LinkResult, sendOk: bool)
    ensures Adopted(cfg, s, msg, verdict, sendOk).warned ==
              (s.warned || (verdict.Broken? && !ForwardJump(s.core, msg, verdict.error)))
  {
    match verdict
    case Tip(_) =>
    case Broken(e) =>
      if ForwardJump(s.core, msg, e) {
        JumpWarnsNot(cfg, s, msg.hash.digest, msg.height - 1, sendOk);
      } else {
        BreakWarns(s, msg);
      }
  }

  lemma JudgeWarns(hs: Hasher, cfg: Config, s: State, msg: Wire, sendOk: bool)
    ensures Judge(hs, cfg, s, msg, sendOk).warned == (s.warned || Breaks(hs, s.core, msg))
  {
    VerdictWarns(cfg, s, msg, LinkVerdict(hs, s.core, msg), sendOk);
  }

  lemma CheckedReal(hs: Hasher, cfg: Config, start: Digest, log: seq<Wire>, s: State, msg: Wire, sendOk: bool)
    requires ServerLog(hs, start, log) && Real(hs, start, log, s.core) && Genuine(log, msg)
    ensures Real(hs, start, log, Moved(hs, cfg, s.core, CheckedMove(hs, s, msg, sendOk)))
  {
    var m := CheckedMove(hs, s, msg, sendOk);
    LinkReal(hs, cfg, start, log, s, msg, sendOk);
    if m.Refill? {
      RefillReal(hs, start, log, s.core, msg);
      assert Moved(hs, cfg, s.core, m) == RecoverInto(hs, s.core, s.core.pending.value, msg);
    }
  }

  lemma CheckedTrusted(hs: Hasher, cfg: Config, start: Digest, log: seq<Wire>, s: State, msg: Wire, sendOk: bool)
    requires ServerLog(hs, start, log) && Real(hs, start, log, s.core) && Genuine(log, msg)
    ensures Checked(hs, cfg, s, msg, sendOk).warned == s.warned
  {
    LinkTrusted(hs, cfg, start, log, s, msg, sendOk);
    LinkTrusted(hs, cfg, start, log, s.(inRecover := false), msg, sendOk);
  }

  /** Every wire the client sees in this run came from the log. */
  predicate HonestRun(log: seq<Wire>, es: seq<Event>) {
    forall i :: 0 <= i < |es| ==> es[i].Frame? ==> Genuine(log, es[i].msg)
  }

  lemma ResendReal(hs: Hasher, start: Digest, log: seq<Wire>, k: Core, connected: bool, sendOk: bool)
    requires Real(hs, start, log, k)
    ensures Real(hs, start, log, ResendCore(k, connected, sendOk))
  {
    AskReal(hs, start, log, k, connected, sendOk);
  }

  lemma ConcludeReal(hs: Hasher, cfg: Config, start: Digest, log: seq<Wire>, k: Core)
    requires Real(hs, start, log, k)
    ensures Real(hs, start, log, FinishCore(cfg, k))
  {
  }

  lemma StepReal(hs: Hasher, cfg: Config, start: Digest, log: seq<Wire>, s: State, e: Event)
    requires ServerLog(hs, start, log) && Real(hs, start, log, s.core) && (e.Frame? ==> Genuine(log, e.msg))
    ensures Real(hs, start, log, Moved(hs, cfg, s.core, MoveOf(hs, s, e)))
  {
    var m := MoveOf(hs, s, e);
    if e.Frame? {
      CheckedReal(hs, cfg, start, log, s.(inOlder := false), e.msg, e.sendOk);
    } else if m.Resend? {
      ResendReal(hs, start, log, s.core, m.connected, m.sendOk);
      assert Moved(hs, cfg, s.core, m) == ResendCore(s.core, m.connected, m.sendOk);
    } else {
      ConcludeReal(hs, cfg, start, log, s.core);
    }
  }

  lemma StepTrusted(hs: Hasher, cfg: Config, start: Digest, log: seq<Wire>, s: State, e: Event)
    requires ServerLog(hs, start, log) && Real(hs, start, log, s.core) && (e.Frame? ==> Genuine(log, e.msg))
    ensures Step(hs, cfg, s, e).warned == s.warned
  {
    if e.Frame? {
      CheckedTrusted(hs, cfg, start, log, s.(inOlder := false), e.msg, e.sendOk);
    }
  }

  /** Whatever the network drops, repeats or reorders, and however pages, refills and timers
      interleave: an honest server never trips the tamper latch, and the client's tip is
      always the log's link at the recorded height, which never goes down. */
  lemma {:induction false} HonestServerIsTrusted(hs: Hasher, cfg: Config, start: Digest, log: seq<Wire>,
                                                 connected: bool, es: seq<Event>)
    requires ServerLog(hs, start, log) && HonestRun(log, es)
    ensures var s := Run(hs, cfg, Fresh(connected), es);
            !s.warned && Real(hs, start, log, s.core)
    ensures es != [] ==> Advances(Run(hs, cfg, Fresh(connected), es[..|es| - 1]).core,
                                  Run(hs, cfg, Fresh(connected), es).core)
  {
    if es != [] {
      var front, e := es[..|es| - 1], es[|es| - 1];
      assert HonestRun(log, front);
      HonestServerIsTrusted(hs, cfg, start, log, connected, front);
      var s := Run(hs, cfg, Fresh(connected), front);
      StepReal(hs, cfg, start, log, s, e);
      StepTrusted(hs, cfg, start, log, s, e);
      StepIsMove(hs, cfg, s, e);
      MoveAdvances(hs, cfg, s.core, MoveOf(hs, s, e));
    }
  }

  // ---------------------------------------------------------------- the refill round trip

  /** The log's wires at the missing heights, lowest first. */
  ghost predicate IsAnswer(log: seq<Wire>, missing: set<nat>, answer: seq<Wire>) {
    && (forall i :: 0 <= i < |answer| ==>
          0 < answer[i].height <= |log| && answer[i] == log[answer[i].height - 1] && !answer[i].hash.Absent?)
    && (forall i, j :: 0 <= i < j < |answer| ==> answer[i].height < answer[j].height)
    && (forall h :: h in missing <==> exists i :: 0 <= i < |answer| && answer[i].height == h)
  }

  function Frames(answer: seq<Wire>): seq<Event> {
    seq(|answer|, i requires 0 <= i < |answer| => Frame(answer[i], false, true))
  }

  /** One answered height: verified, no longer missing, and known from now on. */
  lemma AnswerStep(hs: Hasher, cfg: Config, start: Digest, log: seq<Wire>, s: State, w: Wire)
    requires ServerLog(hs, start, log) && Sound(hs, s.core) && Real(hs, start, log, s.core)
    requires s.core.pending.Some? && s.inRecover && Genuine(log, w) && !w.hash.Absent?
    requires w.height in s.core.pending.value.missing
    requires forall h :: h in s.core.pending.value.missing ==> h >= w.height
    ensures var s' := Step(hs, cfg, s, Frame(w, false, true));
            var p := s.core.pending.value;
            && s'.core.pending.Some? && s'.inRecover && s'.inOlder == s.inOlder
            && s'.core.pending.value.missing == p.missing - {w.height}
            && s'.core.pending.value.failed == p.failed && s'.core.pending.value.received == p.received + 1
            && Sound(hs, s'.core) && Real(hs, start, log, s'.core)
  {
    var p := s.core.pending.value;
    GenuineVerdict(hs, start, log, w, p.known[w.height - 1]);
    RefillSound(hs, s.core, w);
    RefillReal(hs, start, log, s.core, w);
  }

  lemma FramesFirst(answer: seq<Wire>)
    requires answer != []
    ensures Frames(answer) == [Frame(answer[0], false, true)] + Frames(answer[1..])
  {
  }

  /** A complete answer, in order and undisturbed, leaves nothing missing. */
  lemma {:induction false} AnswerEmptiesWindow(hs: Hasher, cfg: Config, start: Digest, log: seq<Wire>, s: State,
                                               answer: seq<Wire>)
    requires ServerLog(hs, start, log) && Sound(hs, s.core) && Real(hs, start, log, s.core)
    requires s.core.pending.Some? && s.inRecover
    requires IsAnswer(log, s.core.pending.value.missing, answer)
    ensures var s', p := Run(hs, cfg, s, Frames(answer)), s.core.pending.value;
            && s'.core.pending.Some? && s'.core.pending.value.missing == {} && s'.inOlder == s.inOlder
            && s'.core.pending.value.failed == p.failed && s'.core.pending.value.received == p.received + |answer|
    decreases |answer|
  {
    var p := s.core.pending.value;
    if answer == [] {
      assert p.missing == {};
    } else {
      var w, rest := answer[0], answer[1..];
      assert w.height in p.missing;
      AnswerStep(hs, cfg, start, log, s, w);
      var s' := Step(hs, cfg, s, Frame(w, false, true));
      RestIsAnswer(log, p.missing, answer);
      AnswerEmptiesWindow(hs, cfg, start, log, s', rest);
      FramesFirst(answer);
      RunFirst(hs, cfg, s, Frame(w, false, true), Frames(rest));
    }
  }

  /** A run may be read from its first event on. */
  lemma {:induction false} RunFirst(hs: Hasher, cfg: Config, s: State, e: Event, es: seq<Event>)
    ensures Run(hs, cfg, s, [e] + es) == Run(hs, cfg, Step(hs, cfg, s, e), es)
    decreases |es|
  {
    var all := [e] + es;
    if es == [] {
      assert all == [e] && [e][..0] == [];
    } else {
      assert all[..|all| - 1] == [e] + es[..|es| - 1];
      RunFirst(hs, cfg, s, e, es[..|es| - 1]);
    }
  }

  lemma RestIsAnswer(log: seq<Wire>, missing: set<nat>, answer: seq<Wire>)
    requires IsAnswer(log, missing, answer) && answer != []
    ensures IsAnswer(log, missing - {answer[0].height}, answer[1..])
  {
    var rest := answer[1..];
    forall h ensures h in missing - {answer[0].height} <==> exists i :: 0 <= i < |rest| && rest[i].height == h {
      if h in missing - {answer[0].height} {
        var i :| 0 <= i < |answer| && answer[i].height == h;
        assert rest[i - 1].height == h;
      }
      if exists i :: 0 <= i < |rest| && rest[i].height == h {
        var i :| 0 <= i < |rest| && rest[i].height == h;
        assert answer[i + 1].height == h;
      }
    }
  }

  /** An answer has one wire for each missing height. */
  lemma {:induction false} AnswerSize(log: seq<Wire>, missing: set<nat>, answer: seq<Wire>)
    requires IsAnswer(log, missing, answer)
    ensures |answer| == |missing|
    decreases |answer|
  {
    if answer == [] {
      assert missing == {};
    } else {
      assert answer[0].height in missing;
      RestIsAnswer(log, missing, answer);
      AnswerSize(log, missing - {answer[0].height}, answer[1..]);
    }
  }

  /** The trailer after a complete answer closes the window. */
  lemma {:induction false} TrailerClosesWindow(cfg: Config, s: State)
    requires s.core.pending.Some? && AllRecovered(s.core.pending.value) && !s.inOlder
    ensures Trailer(cfg, s, true).core.pending.None? && !Trailer(cfg, s, true).inRecover
  {
  }
}
