/** Where recovered wires come from: in every run, long after their window has closed, each
    wire shown as recovered hashes back through recovered wires to a tip the client stood on. */
module TrackerTrace {
  import opened Basics
  import opened WireModel
  import opened HashChain
  import opened Refill
  import opened Tracker
  import opened TrackerSafety

  /** A recovered wire is intact and continues a former tip or another recovered wire. */
  predicate Traced(hs: Hasher, trail: Trail, h: nat)
    requires h in trail.recovered
  {
    var w := trail.recovered[h];
    && h > 0 && w.height == h && w.prev.Hex?
    && VerifyWireLink(hs, w, w.prev.digest).Tip?
    && ((h - 1 in trail.tips && w.prev == Hex(trail.tips[h - 1]))
        || (h - 1 in trail.recovered && w.prev == trail.recovered[h - 1].hash))
  }

  predicate AllTraced(hs: Hasher, trail: Trail) {
    forall h :: h in trail.recovered ==> Traced(hs, trail, h)
  }

  /** Recovered heights lie below the tip and are never missing again. */
  predicate Settled(k: Core) {
    && (forall h :: h in k.trail.recovered ==> k.haveTip && h < k.height)
    && (k.pending.Some? ==> forall h :: h in k.pending.value.missing ==> h !in k.trail.recovered)
  }

  predicate Trace(hs: Hasher, k: Core) {
    AllTraced(hs, k.trail) && Settled(k)
  }

  /** Former tips are only added to. */
  predicate TipsGrow(k: Core, k': Core) {
    forall h :: h in k.trail.tips ==> h in k'.trail.tips && k'.trail.tips[h] == k.trail.tips[h]
  }

  lemma TraceKept(hs: Hasher, k: Core, k': Core)
    requires Trace(hs, k) && k'.trail.recovered == k.trail.recovered && TipsGrow(k, k') && Advances(k, k')
    requires k'.pending.Some? ==> forall h :: h in k'.pending.value.missing ==> h !in k.trail.recovered
    ensures Trace(hs, k')
  {
    forall h | h in k'.trail.recovered ensures Traced(hs, k'.trail, h) {
      assert Traced(hs, k.trail, h);
    }
  }

  /** Filing a gap adds only heights above the tip, and leaves the record alone. */
  predicate OnlyAbove(k: Core, k1: Core) {
    && k1.trail.recovered == k.trail.recovered && k1.trail.tips == k.trail.tips
    && (k1.pending.Some? ==>
          forall h :: h in k1.pending.value.missing ==>
            h > k.height || (k.pending.Some? && h in k.pending.value.missing))
  }

  lemma RequestMissing(cfg: Config, k: Core, connected: bool, lo: nat, last: nat, sendOk: bool)
    requires lo == k.height + 1
    ensures OnlyAbove(k, MaybeRequest(cfg, k, connected, lo, last, k.height, k.tip, sendOk))
  {
    var k1 := MaybeRequest(cfg, k, connected, lo, last, k.height, k.tip, sendOk);
    var added := GapAdded(k, lo, last, k.height, k.tip);
    match FilingOf(cfg, k, connected, lo, last)
    case Asked => assert k1 == SendRecover(added, connected, sendOk).0;
    case Queued => assert k1 == added;
    case TooMany => assert k1 == Joined(k) || k1 == Joined(k).(pending := None);
    case Refused =>
  }

  lemma NotedTraced(hs: Hasher, k: Core, k1: Core, tip: Digest, at: nat)
    requires Sound(hs, k) && Trace(hs, k) && k.haveTip && at > k.height && OnlyAbove(k, k1)
    ensures Trace(hs, NoteTip(k1, tip, at))
  {
    TraceKept(hs, k, NoteTip(k1, tip, at));
  }

  lemma JumpTraced(hs: Hasher, cfg: Config, k: Core, connected: bool, tip: Digest, last: nat, sendOk: bool)
    requires Sound(hs, k) && Trace(hs, k) && k.haveTip && last > k.height
    ensures Trace(hs, Above(cfg, k, connected, tip, last, sendOk))
  {
    var lo, at := k.height + 1, last + 1;
    var k1 := MaybeRequest(cfg, k, connected, lo, last, k.height, k.tip, sendOk);
    RequestMissing(cfg, k, connected, lo, last, sendOk);
    NotedTraced(hs, k, k1, tip, at);
    AboveIs(cfg, k, connected, tip, last, sendOk, NoteTip(k1, tip, at));
  }

  lemma AboveIs(cfg: Config, k: Core, connected: bool, tip: Digest, last: nat, sendOk: bool, noted: Core)
    requires noted == NoteTip(MaybeRequest(cfg, k, connected, k.height + 1, last, k.height, k.tip, sendOk), tip,
                              last + 1)
    ensures noted == Above(cfg, k, connected, tip, last, sendOk)
  {
  }

  lemma AdvanceTraced(hs: Hasher, k: Core, tip: Digest, height: nat)
    requires Sound(hs, k) && Trace(hs, k) && (k.haveTip ==> height > k.height)
    ensures Trace(hs, NoteTip(k, tip, height))
  {
    TraceKept(hs, k, NoteTip(k, tip, height));
  }

  lemma ResendTraced(hs: Hasher, k: Core, connected: bool, sendOk: bool)
    requires Trace(hs, k)
    ensures Trace(hs, ResendCore(k, connected, sendOk))
  {
    TraceKept(hs, k, ResendCore(k, connected, sendOk));
  }

  lemma ConcludeTraced(hs: Hasher, cfg: Config, k: Core)
    requires Trace(hs, k)
    ensures Trace(hs, FinishCore(cfg, k))
  {
    TraceKept(hs, k, FinishCore(cfg, k));
  }

  /** A verified refill wire continues what its window knew: a former tip or a recovered wire. */
  lemma RecoveredTraced(hs: Hasher, k: Core, p: Window, msg: Wire, h: Digest)
    requires Sound(hs, k) && Trace(hs, k) && k.pending == Some(p) && msg.height in p.missing
             && msg.height - 1 in p.known
    requires VerifyWireLink(hs, msg, p.known[msg.height - 1]) == HashChain.Tip(h)
    ensures Trace(hs, Recovered(k, p, msg, h))
  {
    var k', at := Recovered(k, p, msg, h), msg.height;
    assert Proven(hs, k.trail.tips, k.trail.recovered, p.known, at - 1);
    assert Traced(hs, k'.trail, at);
    forall x | x in k'.trail.recovered ensures Traced(hs, k'.trail, x) {
      if x != at {
        assert Traced(hs, k.trail, x);
      }
    }
  }

  lemma RefillTraced(hs: Hasher, k: Core, msg: Wire)
    requires Sound(hs, k) && Trace(hs, k) && k.pending.Some?
    ensures Trace(hs, RecoverInto(hs, k, k.pending.value, msg))
  {
    var p := k.pending.value;
    if msg.height in p.missing && msg.height > 0 && msg.height - 1 in p.known {
      match VerifyWireLink(hs, msg, p.known[msg.height - 1])
      case Tip(h) =>
        RecoveredTraced(hs, k, p, msg, h);
        assert RecoverInto(hs, k, p, msg) == Recovered(k, p, msg, h);
      case Broken(_) => TraceKept(hs, k, RecoverInto(hs, k, p, msg));
    } else {
      TraceKept(hs, k, RecoverInto(hs, k, p, msg));
    }
  }

  lemma {:induction false} MoveTraced(hs: Hasher, cfg: Config, k: Core, m: Move)
    requires Sound(hs, k) && Trace(hs, k) && Legal(k, m)
    ensures Trace(hs, Moved(hs, cfg, k, m))
  {
    match m
    case Stay =>
    case Advance(tip, height) => AdvanceTraced(hs, k, tip, height);
    case Jump(connected, tip, last, sendOk) => JumpTraced(hs, cfg, k, connected, tip, last, sendOk);
    case Refill(msg) => RefillTraced(hs, k, msg);
    case Conclude => ConcludeTraced(hs, cfg, k);
    case Resend(_, _, connected, sendOk) => ResendTraced(hs, k, connected, sendOk);
  }

  lemma {:induction false} RunTraced(hs: Hasher, cfg: Config, s: State, es: seq<Event>)
    requires Inv(hs, cfg, s.core) && Trace(hs, s.core)
    ensures Trace(hs, Run(hs, cfg, s, es).core)
  {
    if es != [] {
      var front, e := es[..|es| - 1], es[|es| - 1];
      var s' := Run(hs, cfg, s, front);
      RunTraced(hs, cfg, s, front);
      RunKeeps(hs, cfg, s, front);
      StepIsMove(hs, cfg, s', e);
      MoveTraced(hs, cfg, s'.core, MoveOf(hs, s', e));
    }
  }

  // ---------------------------------------------------------------- back to a tip

  /** `ws` are the recovered wires from just above the tip at height `from` up to `h`. */
  predicate TracesBack(hs: Hasher, trail: Trail, h: nat, from: nat, ws: seq<Wire>) {
    && from in trail.tips && from + |ws| == h
    && (forall x :: from < x <= h ==> x in trail.recovered && ws[x - from - 1] == trail.recovered[x])
    && VerifiedRun(hs, trail.tips[from], from, ws)
  }

  /** A wire on top of a former tip is a trace of its own. */
  lemma TipTraces(hs: Hasher, trail: Trail, h: nat)
    requires h in trail.recovered && Traced(hs, trail, h) && h > 0
    requires h - 1 in trail.tips && trail.recovered[h].prev == Hex(trail.tips[h - 1])
    ensures TracesBack(hs, trail, h, h - 1, [trail.recovered[h]])
  {
    var w := trail.recovered[h];
    assert [w][..0] == [] && VerifiedRun(hs, trail.tips[h - 1], h - 1, []);
  }

  lemma {:induction false} FindTrace(hs: Hasher, trail: Trail, h: nat) returns (from: nat, ws: seq<Wire>)
    requires AllTraced(hs, trail) && h in trail.recovered
    ensures ws != [] && TracesBack(hs, trail, h, from, ws)
    decreases h
  {
    var w := trail.recovered[h];
    assert Traced(hs, trail, h);
    if h - 1 in trail.tips && w.prev == Hex(trail.tips[h - 1]) {
      TipTraces(hs, trail, h);
      from, ws := h - 1, [w];
    } else {
      var below;
      from, below := FindTrace(hs, trail, h - 1);
      OneMoreLink(hs, trail, h, from, below);
      ws := below + [w];
    }
  }

  lemma {:induction false} EveryTraceEnds(hs: Hasher, trail: Trail, h: nat)
    requires AllTraced(hs, trail) && h in trail.recovered
    ensures exists from: nat, ws: seq<Wire> :: ws != [] && TracesBack(hs, trail, h, from, ws)
  {
    var from, ws := FindTrace(hs, trail, h);
  }

  lemma OneMoreLink(hs: Hasher, trail: Trail, h: nat, from: nat, ws: seq<Wire>)
    requires h > 0 && ws != [] && TracesBack(hs, trail, h - 1, from, ws)
    requires h in trail.recovered && Traced(hs, trail, h)
    requires h - 1 in trail.recovered && trail.recovered[h].prev == trail.recovered[h - 1].hash
    ensures TracesBack(hs, trail, h, from, ws + [trail.recovered[h]])
  {
    var w := trail.recovered[h];
    assert ws[|ws| - 1] == trail.recovered[h - 1];
    assert (ws + [w])[..|ws|] == ws;
    assert Hex(EndTip(trail.tips[from], ws)) == w.prev;
  }

  /** In every run, from anyone: each wire ever shown as recovered is the end of a verified
      run of recovered wires that starts at a tip the client stood on. */
  lemma {:induction false} RecoveredHashBackToTips(hs: Hasher, cfg: Config, connected: bool, es: seq<Event>, h: nat)
    requires h in Run(hs, cfg, Fresh(connected), es).core.trail.recovered
    ensures exists from: nat, ws: seq<Wire> ::
              ws != [] && TracesBack(hs, Run(hs, cfg, Fresh(connected), es).core.trail, h, from, ws)
  {
    FreshIsSafe(hs, cfg);
    RunTraced(hs, cfg, Fresh(connected), es);
    EveryTraceEnds(hs, Run(hs, cfg, Fresh(connected), es).core.trail, h);
  }
}
