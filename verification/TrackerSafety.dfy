/** What holds of the chain tracker in every run, whoever feeds it: the refill window stays
    anchored, recovered wires hash back to former tips, requests and recoveries are bounded,
    and the tip height never goes down. */
module TrackerSafety {
  import opened Basics
  import opened WireModel
  import opened HashChain
  import opened Refill
  import opened Tracker

  // ---------------------------------------------------------------- the window is anchored

  /** Every missing height follows a missing or known one, and stands below `bound`. */
  predicate Anchored(p: Window, bound: nat) {
    && (forall h :: h in p.missing ==> 0 < h < bound && h <= p.maxMissing && h !in p.known)
    && (forall h :: h in p.missing ==> h - 1 in p.missing || h - 1 in p.known)
    && (forall h :: h in p.known ==> h < bound)
    && p.live == p.missing
  }

  /** A known hash is a tip the client once stood on, or the verified successor of one. */
  predicate Proven(hs: Hasher, tips: map<nat, Digest>, recovered: map<nat, Wire>, known: map<nat, Digest>, h: nat)
    requires h in known
  {
    (h in tips && tips[h] == known[h])
    || (&& h > 0 && h - 1 in known && h in recovered
        && recovered[h].height == h
        && VerifyWireLink(hs, recovered[h], known[h - 1]) == HashChain.Tip(known[h]))
  }

  predicate AllProven(hs: Hasher, tips: map<nat, Digest>, recovered: map<nat, Wire>, known: map<nat, Digest>) {
    forall h :: h in known ==> Proven(hs, tips, recovered, known, h)
  }

  predicate TipsBelow(k: Core) {
    && (k.haveTip ==> k.height in k.trail.tips && k.trail.tips[k.height] == k.tip)
    && (forall h :: h in k.trail.tips ==> k.haveTip && h <= k.height)
  }

  predicate SoundWindow(hs: Hasher, k: Core, p: Window, bound: nat) {
    k.haveTip && Anchored(p, bound) && AllProven(hs, k.trail.tips, k.trail.recovered, p.known)
  }

  predicate SoundUpTo(hs: Hasher, k: Core, bound: nat) {
    TipsBelow(k) && (k.pending.Some? ==> SoundWindow(hs, k, k.pending.value, bound))
  }

  predicate Sound(hs: Hasher, k: Core) {
    SoundUpTo(hs, k, k.height)
  }

  /** Pruning an anchored window drops nothing. */
  lemma {:induction false} PruneIsIdle(p: Window, bound: nat)
    requires Anchored(p, bound)
    ensures Pruned(p) == p
  {
    PruneKeepsAll(p.missing, p.known);
  }

  lemma SendSound(hs: Hasher, k: Core, connected: bool, bound: nat, sendOk: bool)
    requires SoundUpTo(hs, k, bound)
    ensures SoundUpTo(hs, SendRecover(k, connected, sendOk).0, bound)
  {
    if k.pending.Some? {
      PruneIsIdle(k.pending.value, bound);
    }
  }

  lemma GapAnchored(k: Core, p: Window, hi: nat)
    requires Anchored(p, k.height) && hi > k.height
    ensures Anchored(WithGap(p, k.height + 1, hi, k.height, k.tip), hi + 1)
  {
  }

  lemma GapProven(hs: Hasher, k: Core, p: Window, hi: nat)
    requires TipsBelow(k) && k.haveTip && AllProven(hs, k.trail.tips, k.trail.recovered, p.known)
    requires forall h :: h in p.known ==> h < k.height
    ensures AllProven(hs, k.trail.tips, k.trail.recovered, WithGap(p, k.height + 1, hi, k.height, k.tip).known)
  {
    var known' := p.known[k.height := k.tip];
    forall h | h in known' ensures Proven(hs, k.trail.tips, k.trail.recovered, known', h) {
      if h != k.height {
        assert Proven(hs, k.trail.tips, k.trail.recovered, p.known, h);
      }
    }
  }

  lemma GapSound(hs: Hasher, k: Core, hi: nat, bound: nat)
    requires Sound(hs, k) && k.haveTip && k.pending.Some? && hi > k.height && bound == hi + 1
    ensures SoundUpTo(hs, k.(pending := Some(WithGap(k.pending.value, k.height + 1, hi, k.height, k.tip))), bound)
  {
    GapAnchored(k, k.pending.value, hi);
    GapProven(hs, k, k.pending.value, hi);
  }

  lemma JoinedSound(hs: Hasher, k: Core)
    requires Sound(hs, k) && k.haveTip
    ensures Sound(hs, Joined(k)) && Joined(k).height == k.height && Joined(k).tip == k.tip && Joined(k).haveTip
  {
  }

  lemma QueuedSound(hs: Hasher, k: Core, hi: nat, bound: nat)
    requires Sound(hs, k) && k.haveTip && hi > k.height && bound == hi + 1
    ensures SoundUpTo(hs, GapAdded(k, k.height + 1, hi, k.height, k.tip), bound)
  {
    var j := Joined(k);
    JoinedSound(hs, k);
    GapSound(hs, j, hi, bound);
    assert GapAdded(k, k.height + 1, hi, k.height, k.tip)
        == j.(pending := Some(WithGap(j.pending.value, j.height + 1, hi, j.height, j.tip)));
  }

  lemma NotFiledSound(hs: Hasher, k: Core, bound: nat)
    requires Sound(hs, k) && k.haveTip && bound > k.height
    ensures SoundUpTo(hs, k, bound) && SoundUpTo(hs, Joined(k), bound)
            && SoundUpTo(hs, Joined(k).(pending := None), bound)
  {
  }

  /** Filing a gap leaves the window sound up to the gap's end, and the tip where it was. */
  lemma RequestSound(hs: Hasher, cfg: Config, k: Core, connected: bool, hi: nat, bound: nat, sendOk: bool, k': Core)
    requires Sound(hs, k) && k.haveTip && hi > k.height && bound == hi + 1
    requires k' == MaybeRequest(cfg, k, connected, k.height + 1, hi, k.height, k.tip, sendOk)
    ensures SoundUpTo(hs, k', bound) && k'.height == k.height
  {
    RequestKeepsTip(cfg, k, connected, k.height + 1, hi, k.height, k.tip, sendOk);
    var added := GapAdded(k, k.height + 1, hi, k.height, k.tip);
    match FilingOf(cfg, k, connected, k.height + 1, hi)
    case Asked =>
      QueuedSound(hs, k, hi, bound);
      SendSound(hs, added, connected, bound, sendOk);
      assert k' == SendRecover(added, connected, sendOk).0;
    case Queued =>
      QueuedSound(hs, k, hi, bound);
      assert k' == added;
    case TooMany =>
      NotFiledSound(hs, k, bound);
      assert k' == Joined(k) || k' == Joined(k).(pending := None);
    case Refused => NotFiledSound(hs, k, bound);
  }

  lemma NoteTipSound(hs: Hasher, k: Core, tip: Digest, height: nat)
    requires SoundUpTo(hs, k, height) && (k.haveTip ==> k.height < height)
    ensures Sound(hs, NoteTip(k, tip, height))
  {
    if k.pending.Some? {
      var known, tips' := k.pending.value.known, k.trail.tips[height := tip];
      forall h | h in known ensures Proven(hs, tips', k.trail.recovered, known, h) {
        assert Proven(hs, k.trail.tips, k.trail.recovered, known, h);
      }
    }
  }

  /** A proof of one height survives more recoveries elsewhere. */
  lemma StillProven(hs: Hasher, tips: map<nat, Digest>, recovered: map<nat, Wire>, known: map<nat, Digest>,
                    at: nat, msg: Wire, h: Digest, x: nat)
    requires x in known && x != at && at !in known && Proven(hs, tips, recovered, known, x)
    ensures Proven(hs, tips, recovered[at := msg], known[at := h], x)
  {
  }

  lemma RecoveredProven(hs: Hasher, tips: map<nat, Digest>, recovered: map<nat, Wire>, known: map<nat, Digest>,
                        msg: Wire, h: Digest)
    requires AllProven(hs, tips, recovered, known)
    requires msg.height > 0 && msg.height !in known && msg.height - 1 in known
    requires VerifyWireLink(hs, msg, known[msg.height - 1]) == HashChain.Tip(h)
    ensures AllProven(hs, tips, recovered[msg.height := msg], known[msg.height := h])
  {
    var known', recovered' := known[msg.height := h], recovered[msg.height := msg];
    assert Proven(hs, tips, recovered', known', msg.height);
    forall x | x in known' ensures Proven(hs, tips, recovered', known', x) {
      if x != msg.height {
        StillProven(hs, tips, recovered, known, msg.height, msg, h, x);
      }
    }
  }

  lemma RefillSound(hs: Hasher, k: Core, msg: Wire)
    requires Sound(hs, k) && k.pending.Some?
    ensures Sound(hs, RecoverInto(hs, k, k.pending.value, msg))
  {
    var p := k.pending.value;
    if msg.height in p.missing && msg.height - 1 in p.known {
      match VerifyWireLink(hs, msg, p.known[msg.height - 1])
      case Tip(h) => RecoveredProven(hs, k.trail.tips, k.trail.recovered, p.known, msg, h);
      case Broken(_) =>
    }
  }

  lemma AboveIs(cfg: Config, k: Core, connected: bool, tip: Digest, last: nat, sendOk: bool) returns (k': Core)
    ensures k' == MaybeRequest(cfg, k, connected, k.height + 1, last, k.height, k.tip, sendOk)
    ensures Above(cfg, k, connected, tip, last, sendOk) == NoteTip(k', tip, last + 1)
  {
    k' := MaybeRequest(cfg, k, connected, k.height + 1, last, k.height, k.tip, sendOk);
  }

  lemma JumpSound(hs: Hasher, cfg: Config, k: Core, connected: bool, tip: Digest, last: nat, sendOk: bool)
    requires Sound(hs, k) && k.haveTip && last > k.height
    ensures Sound(hs, Above(cfg, k, connected, tip, last, sendOk))
  {
    var k' := AboveIs(cfg, k, connected, tip, last, sendOk);
    RequestSound(hs, cfg, k, connected, last, last + 1, sendOk, k');
    NoteTipSound(hs, k', tip, last + 1);
  }

  lemma AdvanceSound(hs: Hasher, k: Core, tip: Digest, height: nat)
    requires Sound(hs, k) && (k.haveTip ==> k.height < height)
    ensures Sound(hs, NoteTip(k, tip, height))
  {
    assert SoundUpTo(hs, k, height);
    NoteTipSound(hs, k, tip, height);
  }

  lemma ConcludeSound(hs: Hasher, cfg: Config, k: Core)
    requires Sound(hs, k)
    ensures Sound(hs, FinishCore(cfg, k))
  {
  }

  lemma ResendSound(hs: Hasher, k: Core, connected: bool, sendOk: bool)
    requires Sound(hs, k)
    ensures Sound(hs, ResendCore(k, connected, sendOk))
  {
    SendSound(hs, k, connected, k.height, sendOk);
  }

  lemma AdvanceMoveSound(hs: Hasher, cfg: Config, k: Core, m: Move)
    requires Sound(hs, k) && Legal(k, m) && m.Advance?
    ensures Sound(hs, Moved(hs, cfg, k, m))
  {
    AdvanceSound(hs, k, m.tip, m.height);
    assert Moved(hs, cfg, k, m) == NoteTip(k, m.tip, m.height);
  }

  lemma JumpMoveSound(hs: Hasher, cfg: Config, k: Core, m: Move)
    requires Sound(hs, k) && Legal(k, m) && m.Jump?
    ensures Sound(hs, Moved(hs, cfg, k, m))
  {
    JumpSound(hs, cfg, k, m.connected, m.tip, m.last, m.sendOk);
    assert Moved(hs, cfg, k, m) == Above(cfg, k, m.connected, m.tip, m.last, m.sendOk);
  }

  lemma RefillMoveSound(hs: Hasher, cfg: Config, k: Core, m: Move)
    requires Sound(hs, k) && Legal(k, m) && m.Refill?
    ensures Sound(hs, Moved(hs, cfg, k, m))
  {
    RefillSound(hs, k, m.msg);
    assert Moved(hs, cfg, k, m) == RecoverInto(hs, k, k.pending.value, m.msg);
  }

  lemma ConcludeMoveSound(hs: Hasher, cfg: Config, k: Core, m: Move)
    requires Sound(hs, k) && Legal(k, m) && m.Conclude?
    ensures Sound(hs, Moved(hs, cfg, k, m))
  {
    ConcludeSound(hs, cfg, k);
    assert Moved(hs, cfg, k, m) == FinishCore(cfg, k);
  }

  lemma ResendMoveSound(hs: Hasher, cfg: Config, k: Core, m: Move)
    requires Sound(hs, k) && Legal(k, m) && m.Resend?
    ensures Sound(hs, Moved(hs, cfg, k, m))
  {
    ResendSound(hs, k, m.connected, m.sendOk);
    assert Moved(hs, cfg, k, m) == ResendCore(k, m.connected, m.sendOk);
  }

  lemma {:induction false} MoveSound(hs: Hasher, cfg: Config, k: Core, m: Move)
    requires Sound(hs, k) && Legal(k, m)
    ensures Sound(hs, Moved(hs, cfg, k, m))
  {
    match m
    case Stay =>
    case Advance(_, _) => AdvanceMoveSound(hs, cfg, k, m);
    case Jump(_, _, _, _) => JumpMoveSound(hs, cfg, k, m);
    case Refill(_) => RefillMoveSound(hs, cfg, k, m);
    case Conclude => ConcludeMoveSound(hs, cfg, k, m);
    case Resend(_, _, _, _) => ResendMoveSound(hs, cfg, k, m);
  }

  // ---------------------------------------------------------------- requests are bounded

  /** How many requests a window has sent. */
  function Sent(requests: seq<nat>, id: nat): nat {
    if requests == [] then 0
    else Sent(requests[..|requests| - 1], id) + if requests[|requests| - 1] == id then 1 else 0
  }

  ghost predicate RequestsBounded(retries: nat, requests: seq<nat>, nextId: nat) {
    && (forall id: nat :: Sent(requests, id) <= retries + 1)
    && (forall id: nat :: id >= nextId ==> Sent(requests, id) == 0)
  }

  predicate TimersKnown(armed: set<Timer>, gen: nat, nextId: nat) {
    forall t :: t in armed ==> t.gen <= gen && t.window < nextId
  }

  /** A live retry timer leaves room for the request it will send. */
  predicate RetryHasRoom(retries: nat, armed: set<Timer>, gen: nat, p: Window) {
    Retry(gen, p.id) in armed ==> p.attempts <= retries
  }

  ghost predicate Budgeted(cfg: Config, k: Core) {
    && RequestsBounded(cfg.retries, k.trail.requests, k.nextId)
    && TimersKnown(k.trail.armed, k.gen, k.nextId)
    && (k.pending.Some? ==> WindowBudgeted(cfg, k, k.pending.value))
  }

  ghost predicate WindowBudgeted(cfg: Config, k: Core, p: Window) {
    p.id < k.nextId && Sent(k.trail.requests, p.id) == p.attempts && RetryHasRoom(cfg.retries, k.trail.armed, k.gen, p)
  }

  lemma SentGrows(requests: seq<nat>, id: nat)
    ensures forall w: nat :: Sent(requests + [id], w) == Sent(requests, w) + if w == id then 1 else 0
  {
    assert (requests + [id])[..|requests|] == requests;
  }

  lemma SendBudgeted(cfg: Config, k: Core, connected: bool, sendOk: bool)
    requires Budgeted(cfg, k) && (k.pending.Some? ==> k.pending.value.attempts <= cfg.retries)
    ensures Budgeted(cfg, SendRecover(k, connected, sendOk).0)
  {
    if k.pending.Some? {
      SentGrows(k.trail.requests, k.pending.value.id);
    }
  }

  lemma JoinedBudgeted(cfg: Config, k: Core)
    requires Budgeted(cfg, k)
    ensures Budgeted(cfg, Joined(k))
  {
  }

  lemma GapBudgeted(cfg: Config, k: Core, lo: nat, hi: nat, anchorHeight: nat, anchorHash: Digest)
    requires Budgeted(cfg, k)
    ensures Budgeted(cfg, GapAdded(k, lo, hi, anchorHeight, anchorHash))
  {
    JoinedBudgeted(cfg, k);
  }

  lemma RequestBudgeted(cfg: Config, k: Core, connected: bool, lo: nat, hi: nat, anchorHeight: nat, anchorHash: Digest,
                        sendOk: bool, k': Core)
    requires Budgeted(cfg, k) && k' == MaybeRequest(cfg, k, connected, lo, hi, anchorHeight, anchorHash, sendOk)
    ensures Budgeted(cfg, k')
  {
    JoinedBudgeted(cfg, k);
    GapBudgeted(cfg, k, lo, hi, anchorHeight, anchorHash);
    match FilingOf(cfg, k, connected, lo, hi)
    case Asked => SendBudgeted(cfg, GapAdded(k, lo, hi, anchorHeight, anchorHash), connected, sendOk);
    case Queued =>
    case TooMany =>
    case Refused =>
  }

  lemma NoteTipBudgeted(cfg: Config, k: Core, tip: Digest, height: nat)
    requires Budgeted(cfg, k)
    ensures Budgeted(cfg, NoteTip(k, tip, height))
  {
  }

  lemma JumpBudgeted(cfg: Config, k: Core, connected: bool, tip: Digest, last: nat, sendOk: bool)
    requires Budgeted(cfg, k)
    ensures Budgeted(cfg, Above(cfg, k, connected, tip, last, sendOk))
  {
    var k' := AboveIs(cfg, k, connected, tip, last, sendOk);
    RequestBudgeted(cfg, k, connected, k.height + 1, last, k.height, k.tip, sendOk, k');
    NoteTipBudgeted(cfg, k', tip, last + 1);
  }

  lemma ConcludeBudgeted(cfg: Config, k: Core)
    requires Budgeted(cfg, k)
    ensures Budgeted(cfg, FinishCore(cfg, k))
  {
  }

  lemma RefillBudgeted(hs: Hasher, cfg: Config, k: Core, msg: Wire)
    requires Budgeted(cfg, k) && k.pending.Some?
    ensures Budgeted(cfg, RecoverInto(hs, k, k.pending.value, msg))
  {
  }

  lemma ResendBudgeted(cfg: Config, k: Core, connected: bool, sendOk: bool)
    requires Budgeted(cfg, k) && k.pending.Some? && Retry(k.gen, k.pending.value.id) in k.trail.armed
    ensures Budgeted(cfg, ResendCore(k, connected, sendOk))
  {
    SendBudgeted(cfg, k, connected, sendOk);
  }

  lemma {:induction false} MoveBudgeted(hs: Hasher, cfg: Config, k: Core, m: Move)
    requires Budgeted(cfg, k) && Legal(k, m)
    ensures Budgeted(cfg, Moved(hs, cfg, k, m))
  {
    match m
    case Jump(connected, tip, last, sendOk) =>
      JumpBudgeted(cfg, k, connected, tip, last, sendOk);
      assert Moved(hs, cfg, k, m) == Above(cfg, k, connected, tip, last, sendOk);
    case Resend(_, _, connected, sendOk) =>
      ResendBudgeted(cfg, k, connected, sendOk);
      assert Moved(hs, cfg, k, m) == ResendCore(k, connected, sendOk);
    case Conclude => ConcludeBudgeted(cfg, k);
    case Refill(msg) =>
      RefillBudgeted(hs, cfg, k, msg);
      assert Moved(hs, cfg, k, m) == RecoverInto(hs, k, k.pending.value, msg);
    case Advance(tip, height) => NoteTipBudgeted(cfg, k, tip, height);
    case Stay =>
  }

  /** The same window, with as many more attempts as requests went out. */
  predicate Spends(k: Core, k': Core) {
    k.pending.Some? && k'.pending.Some? ==>
      && k'.pending.value.id == k.pending.value.id
      && k'.pending.value.attempts - k.pending.value.attempts == |k'.trail.requests| - |k.trail.requests|
  }

  lemma SendSpends(k: Core, connected: bool, sendOk: bool)
    ensures Spends(k, SendRecover(k, connected, sendOk).0)
  {
  }

  lemma RequestSpends(cfg: Config, k: Core, connected: bool, lo: nat, hi: nat, anchorHeight: nat, anchorHash: Digest,
                      sendOk: bool)
    requires k.pending.Some?
    ensures Spends(k, MaybeRequest(cfg, k, connected, lo, hi, anchorHeight, anchorHash, sendOk))
  {
    SendSpends(GapAdded(k, lo, hi, anchorHeight, anchorHash), connected, sendOk);
  }

  lemma JumpSpends(cfg: Config, k: Core, connected: bool, tip: Digest, last: nat, sendOk: bool)
    requires k.pending.Some?
    ensures Spends(k, Above(cfg, k, connected, tip, last, sendOk))
  {
    var k' := AboveIs(cfg, k, connected, tip, last, sendOk);
    RequestSpends(cfg, k, connected, k.height + 1, last, k.height, k.tip, sendOk);
  }

  lemma ResendSpends(k: Core, connected: bool, sendOk: bool)
    ensures Spends(k, ResendCore(k, connected, sendOk))
  {
    SendSpends(k, connected, sendOk);
  }

  lemma MoveSpends(hs: Hasher, cfg: Config, k: Core, m: Move)
    requires k.pending.Some?
    ensures Spends(k, Moved(hs, cfg, k, m))
  {
    match m
    case Jump(connected, tip, last, sendOk) => JumpSpends(cfg, k, connected, tip, last, sendOk);
    case Resend(_, _, connected, sendOk) => ResendSpends(k, connected, sendOk);
    case Conclude =>
    case Refill(msg) =>
    case Advance(_, _) =>
    case Stay =>
  }

  /** Sending is the only progress a window makes towards giving up: retries + 1 - attempts
      drops by exactly the number of its requests, and no other move changes it. */
  lemma {:induction false} RequestsAreAttempts(hs: Hasher, cfg: Config, k: Core, m: Move)
    requires Budgeted(cfg, k) && Legal(k, m) && k.pending.Some?
    ensures var k' := Moved(hs, cfg, k, m);
            k'.pending.Some? ==>
              && k'.pending.value.id == k.pending.value.id
              && k'.pending.value.attempts - k.pending.value.attempts == |k'.trail.requests| - |k.trail.requests|
              && k'.pending.value.attempts <= cfg.retries + 1
  {
    var k' := Moved(hs, cfg, k, m);
    MoveSpends(hs, cfg, k, m);
    MoveBudgeted(hs, cfg, k, m);
    if k'.pending.Some? {
      BudgetBounds(cfg, k');
    }
  }

  lemma BudgetBounds(cfg: Config, k: Core)
    requires Budgeted(cfg, k) && k.pending.Some?
    ensures k.pending.value.attempts <= cfg.retries + 1
  {
  }

  // ---------------------------------------------------------------- recoveries are capped

  predicate Capped(cfg: Config, k: Core) {
    cfg.recoverCap > 0 ==> Outstanding(k) <= cfg.recoverCap
  }

  /** Live heights recovered in this session plus those still asked for. */
  function Outstanding(k: Core): nat {
    k.liveRecovered + if k.pending.Some? then |k.pending.value.live| else 0
  }

  lemma SmallerUnion(a: set<nat>, b: set<nat>)
    ensures |a + b| <= |a| + |b| && |a - b| <= |a|
  {
    assert a + b == a + (b - a);
    assert |a - b| + |a * b| == |a| by { assert a == (a - b) + (a * b); }
    assert |b - a| + |b * a| == |b| by { assert b == (b - a) + (b * a); }
  }

  lemma SendCapped(cfg: Config, k: Core, connected: bool, sendOk: bool)
    requires Capped(cfg, k)
    ensures Capped(cfg, SendRecover(k, connected, sendOk).0)
  {
    if k.pending.Some? {
      var p := k.pending.value;
      SmallerUnion(p.live, p.missing - Recoverable(p.missing, p.known));
    }
  }

  lemma RequestCapped(cfg: Config, k: Core, connected: bool, lo: nat, hi: nat, anchorHeight: nat, anchorHash: Digest,
                      sendOk: bool)
    requires Capped(cfg, k)
    ensures Capped(cfg, MaybeRequest(cfg, k, connected, lo, hi, anchorHeight, anchorHash, sendOk))
  {
    SmallerUnion(Joined(k).pending.value.live, Heights(lo, hi));
    if lo <= hi {
      HeightsCount(lo, hi);
    }
    match FilingOf(cfg, k, connected, lo, hi)
    case Asked => SendCapped(cfg, GapAdded(k, lo, hi, anchorHeight, anchorHash), connected, sendOk);
    case Queued =>
    case TooMany =>
    case Refused =>
  }

  lemma RefillCapped(hs: Hasher, cfg: Config, k: Core, msg: Wire)
    requires Capped(cfg, k) && k.pending.Some?
    ensures Capped(cfg, RecoverInto(hs, k, k.pending.value, msg))
  {
    var live := k.pending.value.live;
    if msg.height in live {
      assert |live - {msg.height}| == |live| - 1;
    } else {
      assert live - {msg.height} == live;
    }
  }

  lemma NotedCapped(cfg: Config, k: Core, tip: Digest, height: nat, noted: Core)
    requires Capped(cfg, k) && noted == NoteTip(k, tip, height)
    ensures Capped(cfg, noted)
  {
  }

  lemma JumpCapped(cfg: Config, k: Core, connected: bool, tip: Digest, last: nat, sendOk: bool)
    requires Capped(cfg, k)
    ensures Capped(cfg, Above(cfg, k, connected, tip, last, sendOk))
  {
    var lo, at := k.height + 1, last + 1;
    RequestCapped(cfg, k, connected, lo, last, k.height, k.tip, sendOk);
    NotedCapped(cfg, MaybeRequest(cfg, k, connected, lo, last, k.height, k.tip, sendOk), tip, at,
                Above(cfg, k, connected, tip, last, sendOk));
  }

  lemma ResendCapped(cfg: Config, k: Core, connected: bool, sendOk: bool)
    requires Capped(cfg, k)
    ensures Capped(cfg, ResendCore(k, connected, sendOk))
  {
    SendCapped(cfg, k, connected, sendOk);
  }

  lemma ConcludeCapped(cfg: Config, k: Core)
    requires Capped(cfg, k)
    ensures Capped(cfg, FinishCore(cfg, k))
  {
  }

  lemma NoteTipCapped(cfg: Config, k: Core, tip: Digest, height: nat)
    requires Capped(cfg, k)
    ensures Capped(cfg, NoteTip(k, tip, height))
  {
  }

  lemma {:induction false} MoveCapped(hs: Hasher, cfg: Config, k: Core, m: Move)
    requires Capped(cfg, k) && Legal(k, m)
    ensures Capped(cfg, Moved(hs, cfg, k, m))
  {
    match m
    case Jump(connected, tip, last, sendOk) =>
      JumpCapped(cfg, k, connected, tip, last, sendOk);
      assert Moved(hs, cfg, k, m) == Above(cfg, k, connected, tip, last, sendOk);
    case Resend(_, _, connected, sendOk) =>
      ResendCapped(cfg, k, connected, sendOk);
      assert Moved(hs, cfg, k, m) == ResendCore(k, connected, sendOk);
    case Refill(msg) =>
      RefillCapped(hs, cfg, k, msg);
      assert Moved(hs, cfg, k, m) == RecoverInto(hs, k, k.pending.value, msg);
    case Conclude =>
      ConcludeCapped(cfg, k);
      assert Moved(hs, cfg, k, m) == FinishCore(cfg, k);
    case Advance(tip, height) =>
      NoteTipCapped(cfg, k, tip, height);
      assert Moved(hs, cfg, k, m) == NoteTip(k, tip, height);
    case Stay =>
  }

  // ---------------------------------------------------------------- every run

  ghost predicate Inv(hs: Hasher, cfg: Config, k: Core) {
    Sound(hs, k) && Budgeted(cfg, k) && Capped(cfg, k)
  }

  /** The tip height moves up only. */
  predicate Advances(k: Core, k': Core) {
    k.haveTip ==> k'.haveTip && k'.height >= k.height
  }

  lemma MoveAdvances(hs: Hasher, cfg: Config, k: Core, m: Move)
    requires Legal(k, m)
    ensures Advances(k, Moved(hs, cfg, k, m))
  {
  }

  lemma FreshIsSafe(hs: Hasher, cfg: Config)
    ensures Inv(hs, cfg, FRESH_CORE)
  {
  }

  /** In every run of wires, trailers, timers and window switches, from anyone: the invariant
      holds throughout and the tip height never goes down. */
  lemma {:induction false} RunKeeps(hs: Hasher, cfg: Config, s: State, es: seq<Event>)
    requires Inv(hs, cfg, s.core)
    ensures Inv(hs, cfg, Run(hs, cfg, s, es).core) && Advances(s.core, Run(hs, cfg, s, es).core)
  {
    if es != [] {
      var s' := Run(hs, cfg, s, es[..|es| - 1]);
      var e := es[|es| - 1];
      RunKeeps(hs, cfg, s, es[..|es| - 1]);
      StepIsMove(hs, cfg, s', e);
      var m := MoveOf(hs, s', e);
      MoveSound(hs, cfg, s'.core, m);
      MoveBudgeted(hs, cfg, s'.core, m);
      MoveCapped(hs, cfg, s'.core, m);
      MoveAdvances(hs, cfg, s'.core, m);
    }
  }

  /** A timer of a superseded generation or another window changes nothing at all. */
  lemma {:induction false} StaleTimersAreInert(hs: Hasher, cfg: Config, s: State, t: Timer, sendOk: bool)
    requires t.gen != s.core.gen || s.core.pending.None? || s.core.pending.value.id != t.window
    ensures Step(hs, cfg, s, TimerFires(t, sendOk)) == s
  {
  }

  /** The timer's generation or window is over, and neither comes back. */
  predicate Dead(k: Core, t: Timer) {
    t.gen < k.gen || (t.window < k.nextId && (k.pending.None? || k.pending.value.id != t.window))
  }

  lemma MoveBuries(hs: Hasher, cfg: Config, k: Core, m: Move, t: Timer)
    requires Legal(k, m) && Dead(k, t)
    ensures Dead(Moved(hs, cfg, k, m), t)
  {
  }

  lemma {:induction false} RunBuries(hs: Hasher, cfg: Config, s: State, es: seq<Event>, t: Timer)
    requires Dead(s.core, t)
    ensures Dead(Run(hs, cfg, s, es).core, t)
  {
    if es != [] {
      var s', e := Run(hs, cfg, s, es[..|es| - 1]), es[|es| - 1];
      RunBuries(hs, cfg, s, es[..|es| - 1], t);
      StepIsMove(hs, cfg, s', e);
      MoveBuries(hs, cfg, s'.core, MoveOf(hs, s', e), t);
    }
  }

  predicate Fires(e: Event, t: Timer) {
    e.TimerFires? && e.t == t
  }

  /** The same events without any firing of this timer. */
  function WithoutFirings(es: seq<Event>, t: Timer): seq<Event> {
    if es == [] then []
    else WithoutFirings(es[..|es| - 1], t) + if Fires(es[|es| - 1], t) then [] else [es[|es| - 1]]
  }

  /** A timer that is dead at any point can fire as often as it likes from then on: the run
      goes exactly as without it. */
  lemma {:induction false} DeadTimersDoNothing(hs: Hasher, cfg: Config, s: State, es: seq<Event>, t: Timer)
    requires Dead(s.core, t)
    ensures Run(hs, cfg, s, es) == Run(hs, cfg, s, WithoutFirings(es, t))
  {
    if es != [] {
      var front, e := es[..|es| - 1], es[|es| - 1];
      DeadTimersDoNothing(hs, cfg, s, front, t);
      RunBuries(hs, cfg, s, front, t);
      var kept := WithoutFirings(front, t);
      if Fires(e, t) {
        StaleTimersAreInert(hs, cfg, Run(hs, cfg, s, front), t, e.sendOk);
        assert kept + [] == kept;
      } else {
        assert (kept + [e])[..|kept|] == kept;
      }
    }
  }

  /** The reader's view of the invariant: from a fresh start, whatever happens. */
  lemma {:induction false} EveryRun(hs: Hasher, cfg: Config, connected: bool, es: seq<Event>)
    ensures var k := Run(hs, cfg, Fresh(connected), es).core;
            && (forall id: nat :: Sent(k.trail.requests, id) <= cfg.retries + 1)
            && (cfg.recoverCap > 0 ==> Outstanding(k) <= cfg.recoverCap)
            && (k.pending.Some? ==>
                  var p := k.pending.value;
                  && Pruned(p) == p
                  && (forall h :: h in p.missing ==> h < k.height)
                  && AllProven(hs, k.trail.tips, k.trail.recovered, p.known))
  {
    FreshIsSafe(hs, cfg);
    RunKeeps(hs, cfg, Fresh(connected), es);
    var k := Run(hs, cfg, Fresh(connected), es).core;
    if k.pending.Some? {
      PruneIsIdle(k.pending.value, k.height);
    }
  }
}
