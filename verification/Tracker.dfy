/** The client's chain tracker as a state machine: duplicates, first-tip adoption, forward
    jumps, real breaks, and one refill window with retries and generation-guarded timers. */
module Tracker {
  import opened Basics
  import opened WireModel
  import opened HashChain
  import opened Refill

  /** One outstanding refill. The id stands for the window's identity. */
  datatype Window = Window(id: nat, missing: set<nat>, known: map<nat, Digest>, live: set<nat>,
                           maxMissing: nat, received: nat, attempts: nat, failed: bool)

  datatype Timer =
    | Settle(gen: nat, window: nat)
    | Retry(gen: nat, window: nat)

  datatype Config = Config(recoverCap: nat, retries: nat)

  /** What has happened so far, kept for stating properties: every tip the client stood on,
      every wire it recovered, the window of every request sent, and the timers armed. */
  datatype Trail = Trail(tips: map<nat, Digest>, recovered: map<nat, Wire>, requests: seq<nat>, armed: set<Timer>)

  /** The tip and the refill machinery. */
  datatype Core = Core(haveTip: bool, tip: Digest, height: nat,
                       pending: Option<Window>, gen: nat, nextId: nat, liveRecovered: nat,
                       trail: Trail)

  /** The whole tracker: its core, the replay flags and the warning latches. */
  datatype State = State(core: Core, connected: bool, warned: bool, gapWarned: bool,
                         inSync: bool, loading: bool, inOlder: bool, inRecover: bool,
                         loadLoaded: nat, syncHeights: map<nat, Digest>)

  function NoteTip(k: Core, tip: Digest, height: nat): Core {
    k.(haveTip := true, tip := tip, height := height, trail := k.trail.(tips := k.trail.tips[height := tip]))
  }

  // ---------------------------------------------------------------- refill requests

  function Pruned(p: Window): Window {
    var kept := Recoverable(p.missing, p.known);
    p.(missing := kept, live := p.live - (p.missing - kept))
  }

  /** Files one request for what is still missing and arms its settle timer. */
  function SendRecover(k: Core, connected: bool, sendOk: bool): (Core, bool) {
    if k.pending.None? || !connected then (k, false)
    else
      var p := Pruned(k.pending.value);
      if p.missing == {} || !sendOk then (k.(pending := Some(p)), false)
      else
        (k.(gen := k.gen + 1,
            pending := Some(p.(attempts := p.attempts + 1, received := 0, failed := false)),
            trail := k.trail.(requests := k.trail.requests + [p.id],
                              armed := k.trail.armed + {Settle(k.gen + 1, p.id)})), true)
  }

  lemma NothingSent(k: Core, connected: bool, sendOk: bool)
    requires k.pending.Some? && connected && (Pruned(k.pending.value).missing == {} || !sendOk)
    ensures SendRecover(k, connected, sendOk) == (k.(pending := Some(Pruned(k.pending.value))), false)
  {
  }

  /** One more request is out for the pending window. */
  function Requested(k: Core): Core
    requires k.pending.Some?
  {
    var p := k.pending.value;
    k.(gen := k.gen + 1,
       pending := Some(p.(attempts := p.attempts + 1, received := 0, failed := false)),
       trail := k.trail.(requests := k.trail.requests + [p.id],
                         armed := k.trail.armed + {Settle(k.gen + 1, p.id)}))
  }

  lemma RequestSent(k: Core, connected: bool, pruned: Core)
    requires k.pending.Some? && connected && Pruned(k.pending.value).missing != {}
    requires pruned == k.(pending := Some(Pruned(k.pending.value)))
    ensures SendRecover(k, connected, true) == (Requested(pruned), true)
  {
  }

  function Heights(lo: nat, hi: nat): set<nat> {
    set h: nat | lo <= h <= hi && InRange(HeightRange(lo, hi), h)
  }

  lemma {:induction false} HeightsCount(lo: nat, hi: nat)
    requires lo <= hi + 1
    ensures |Heights(lo, hi)| == hi + 1 - lo
    decreases hi + 1 - lo
  {
    if lo <= hi {
      HeightsCount(lo + 1, hi);
      assert Heights(lo, hi) == {lo} + Heights(lo + 1, hi) && lo !in Heights(lo + 1, hi);
    }
  }

  function NewWindow(id: nat): Window {
    Window(id, {}, map[], {}, 0, 0, 0, false)
  }

  /** The window a gap joins: the pending one, or a fresh one. */
  function Joined(k: Core): Core {
    if k.pending.Some? then k else k.(pending := Some(NewWindow(k.nextId)), nextId := k.nextId + 1)
  }

  function WithGap(p: Window, lo: nat, hi: nat, anchorHeight: nat, anchorHash: Digest): Window {
    p.(missing := p.missing + Heights(lo, hi), live := p.live + Heights(lo, hi),
       maxMissing := if lo <= hi && hi > p.maxMissing then hi else p.maxMissing,
       known := p.known[anchorHeight := anchorHash])
  }

  /** Would the gap exceed what one session may recover live? */
  predicate OverCap(cfg: Config, k: Core, p: Window, gap: nat) {
    cfg.recoverCap > 0 && k.liveRecovered + |p.live| + gap > cfg.recoverCap
  }

  /** What becomes of a gap: no connection, over the cap, left to the next retry, or asked for. */
  datatype Filing = Refused | TooMany | Queued | Asked

  function FilingOf(cfg: Config, k: Core, connected: bool, lo: nat, hi: nat): Filing {
    if !connected || lo == 0 || hi < lo then Refused
    else if OverCap(cfg, k, Joined(k).pending.value, hi - lo + 1) then TooMany
    else if Joined(k).pending.value.attempts != 0 then Queued
    else Asked
  }

  /** The pending window with the gap added. */
  function GapAdded(k: Core, lo: nat, hi: nat, anchorHeight: nat, anchorHash: Digest): Core {
    Joined(k).(pending := Some(WithGap(Joined(k).pending.value, lo, hi, anchorHeight, anchorHash)))
  }

  /** Files a refill for a live gap; an empty window is not kept over the cap. */
  function MaybeRequest(cfg: Config, k: Core, connected: bool, lo: nat, hi: nat, anchorHeight: nat, anchorHash: Digest,
                        sendOk: bool): Core
  {
    match FilingOf(cfg, k, connected, lo, hi)
    case Refused => k
    case TooMany => if Joined(k).pending.value.missing == {} then Joined(k).(pending := None) else Joined(k)
    case Queued => GapAdded(k, lo, hi, anchorHeight, anchorHash)
    case Asked => SendRecover(GapAdded(k, lo, hi, anchorHeight, anchorHash), connected, sendOk).0
  }

  /** Filing a gap never moves the tip. */
  lemma RequestKeepsTip(cfg: Config, k: Core, connected: bool, lo: nat, hi: nat, anchorHeight: nat, anchorHash: Digest,
                        sendOk: bool)
    ensures var k' := MaybeRequest(cfg, k, connected, lo, hi, anchorHeight, anchorHash, sendOk);
            k'.haveTip == k.haveTip && k'.height == k.height && k'.tip == k.tip
  {
    match FilingOf(cfg, k, connected, lo, hi)
    case Asked =>
    case Queued =>
    case TooMany =>
    case Refused =>
  }

  /** Did the gap's request go out? */
  predicate WentOut(cfg: Config, k: Core, connected: bool, lo: nat, hi: nat, anchorHeight: nat, anchorHash: Digest,
                    sendOk: bool)
  {
    && FilingOf(cfg, k, connected, lo, hi).Asked?
    && SendRecover(GapAdded(k, lo, hi, anchorHeight, anchorHash), connected, sendOk).1
  }

  /** What becomes of each filing. */
  lemma RefusedStays(cfg: Config, k: Core, connected: bool, lo: nat, hi: nat, anchorHeight: nat, anchorHash: Digest,
                     sendOk: bool)
    requires !connected || lo == 0 || hi < lo
    ensures MaybeRequest(cfg, k, connected, lo, hi, anchorHeight, anchorHash, sendOk) == k
    ensures !WentOut(cfg, k, connected, lo, hi, anchorHeight, anchorHash, sendOk)
            && !FilingOf(cfg, k, connected, lo, hi).Queued?
  {
  }

  lemma TooManyDrops(cfg: Config, k: Core, connected: bool, lo: nat, hi: nat, anchorHeight: nat, anchorHash: Digest,
                     sendOk: bool)
    requires connected && 0 < lo <= hi && OverCap(cfg, k, Joined(k).pending.value, hi - lo + 1)
    ensures MaybeRequest(cfg, k, connected, lo, hi, anchorHeight, anchorHash, sendOk)
         == if Joined(k).pending.value.missing == {} then Joined(k).(pending := None) else Joined(k)
    ensures !WentOut(cfg, k, connected, lo, hi, anchorHeight, anchorHash, sendOk)
            && !FilingOf(cfg, k, connected, lo, hi).Queued?
  {
  }

  lemma FiledJoins(cfg: Config, k: Core, connected: bool, lo: nat, hi: nat, anchorHeight: nat, anchorHash: Digest,
                   sendOk: bool)
    requires connected && 0 < lo <= hi && !OverCap(cfg, k, Joined(k).pending.value, hi - lo + 1)
    ensures var added := GapAdded(k, lo, hi, anchorHeight, anchorHash);
            var asked := SendRecover(added, connected, sendOk);
            var first := Joined(k).pending.value.attempts == 0;
            && MaybeRequest(cfg, k, connected, lo, hi, anchorHeight, anchorHash, sendOk)
                 == (if first then asked.0 else added)
            && WentOut(cfg, k, connected, lo, hi, anchorHeight, anchorHash, sendOk) == (first && asked.1)
            && FilingOf(cfg, k, connected, lo, hi).Queued? == !first
  {
  }

  // ---------------------------------------------------------------- one wire

  /** The verdict on a wire: against the tip, or on its own when there is no tip yet. */
  function LinkVerdict(hs: Hasher, k: Core, msg: Wire): LinkResult {
    var first := VerifyWireLink(hs, msg, k.tip);
    if first.Broken? && !k.haveTip && msg.prev.Hex? then VerifyWireLink(hs, msg, msg.prev.digest) else first
  }

  function NoteSync(s: State, msg: Wire): State {
    if s.inSync && msg.hash.Hex? then s.(syncHeights := s.syncHeights[msg.height := msg.hash.digest]) else s
  }

  function CountLoad(s: State): State {
    if s.loading && s.inSync then s.(loadLoaded := s.loadLoaded + 1) else s
  }

  /** Skips what is not chained and what the tip already covers; judges the rest. */
  function CheckLink(hs: Hasher, cfg: Config, s: State, msg: Wire, sendOk: bool): State {
    if msg.hash.Absent? then s
    else
      var noted := NoteSync(s, msg);
      if s.core.haveTip && msg.height <= s.core.height then noted
      else Judge(hs, cfg, CountLoad(noted), msg, sendOk)
  }

  predicate ForwardJump(k: Core, msg: Wire, e: LinkError) {
    msg.hash.Hex? && k.haveTip && e == PrevMismatch && msg.height > k.height + 1
  }

  /** What a judged wire does to the tip: an intact successor is adopted; a forward jump
      re-anchors, filing a refill outside a join replay; a broken link is adopted too. */
  function JudgeMove(hs: Hasher, k: Core, inSync: bool, connected: bool, msg: Wire, sendOk: bool): Move {
    AdoptMove(k, inSync, connected, msg, LinkVerdict(hs, k, msg), sendOk)
  }

  function AdoptMove(k: Core, inSync: bool, connected: bool, msg: Wire, verdict: LinkResult, sendOk: bool): Move {
    match verdict
    case Tip(tip) => Advance(tip, msg.height)
    case Broken(e) =>
      if ForwardJump(k, msg, e) then
        if inSync then Advance(msg.hash.digest, msg.height)
        else Jump(connected, msg.hash.digest, msg.height - 1, sendOk)
      else if msg.hash.Hex? && (k.haveTip || msg.prev.Hex?) then Advance(msg.hash.digest, msg.height)
      else Stay
  }

  /** A break that is no forward jump sets the tamper latch. */
  predicate Breaks(hs: Hasher, k: Core, msg: Wire) {
    match LinkVerdict(hs, k, msg)
    case Tip(_) => false
    case Broken(e) => !ForwardJump(k, msg, e)
  }

  function Judge(hs: Hasher, cfg: Config, s: State, msg: Wire, sendOk: bool): State {
    Adopted(cfg, s, msg, LinkVerdict(hs, s.core, msg), sendOk)
  }

  /** What the verdict does to the session. */
  function Adopted(cfg: Config, s: State, msg: Wire, verdict: LinkResult, sendOk: bool): State {
    match verdict
    case Tip(tip) => s.(core := NoteTip(s.core, tip, msg.height))
    case Broken(e) =>
      if ForwardJump(s.core, msg, e) then JumpJudged(cfg, s, msg.hash.digest, msg.height - 1, sendOk)
      else BreakJudged(s, msg)
  }

  /** A forward jump: adopted silently during a join replay, re-anchored otherwise. */
  function JumpJudged(cfg: Config, s: State, tip: Digest, last: nat, sendOk: bool): State {
    if s.inSync then s.(core := NoteTip(s.core, tip, last + 1)) else Jumped(cfg, s, tip, last, sendOk)
  }

  /** Any other broken link: warned of, and adopted when its hash is well formed and there is
      something to compare it with. */
  function BreakJudged(s: State, msg: Wire): State {
    s.(warned := true,
       core := if msg.hash.Hex? && (s.core.haveTip || msg.prev.Hex?) then NoteTip(s.core, msg.hash.digest, msg.height)
               else s.core)
  }

  /** The tip lands above the heights up to `last`, and a refill is filed for them. */
  function Above(cfg: Config, k: Core, connected: bool, tip: Digest, last: nat, sendOk: bool): Core {
    NoteTip(MaybeRequest(cfg, k, connected, k.height + 1, last, k.height, k.tip, sendOk), tip, last + 1)
  }

  /** The state once the gap from `lo` to `hi` is filed. */
  function GapFiled(cfg: Config, s: State, lo: nat, hi: nat, sendOk: bool): State {
    s.(core := MaybeRequest(cfg, s.core, s.connected, lo, hi, s.core.height, s.core.tip, sendOk),
       inRecover := s.inRecover || WentOut(cfg, s.core, s.connected, lo, hi, s.core.height, s.core.tip, sendOk))
  }

  /** Are the gap's heights asked for, now or by the next retry? */
  predicate NowPending(cfg: Config, s: State, lo: nat, hi: nat, sendOk: bool) {
    || WentOut(cfg, s.core, s.connected, lo, hi, s.core.height, s.core.tip, sendOk)
    || FilingOf(cfg, s.core, s.connected, lo, hi).Queued?
  }

  /** Lands above a gap; a gap that is not pending is warned of, once. */
  function Landed(s: State, tip: Digest, height: nat, filed: bool): State {
    s.(core := NoteTip(s.core, tip, height), gapWarned := s.gapWarned || !filed)
  }

  /** Re-anchors above the heights up to `last`, after filing a refill for them. */
  function Jumped(cfg: Config, s: State, tip: Digest, last: nat, sendOk: bool): State {
    var lo := s.core.height + 1;
    Landed(GapFiled(cfg, s, lo, last, sendOk), tip, last + 1, NowPending(cfg, s, lo, last, sendOk))
  }

  /** A verified refill wire: rendered, no longer missing, and itself an anchor. */
  function Recovered(k: Core, p: Window, msg: Wire, h: Digest): Core {
    k.(pending := Some(p.(missing := p.missing - {msg.height}, known := p.known[msg.height := h],
                          live := p.live - {msg.height}, received := p.received + 1)),
       liveRecovered := k.liveRecovered + if msg.height in p.live then 1 else 0,
       trail := k.trail.(recovered := k.trail.recovered[msg.height := msg]))
  }

  /** A wire inside the window: verified against its predecessor, or the attempt failed. */
  function RecoverInto(hs: Hasher, k: Core, p: Window, msg: Wire): Core {
    if msg.height !in p.missing then k
    else if msg.height == 0 || msg.height - 1 !in p.known then k.(pending := Some(p.(failed := true)))
    else
      match VerifyWireLink(hs, msg, p.known[msg.height - 1])
      case Broken(_) => k.(pending := Some(p.(failed := true)))
      case Tip(h) => Recovered(k, p, msg, h)
  }

  /** One wire while a refill answer is arriving; a newer one closes the window. */
  function CheckRecover(hs: Hasher, cfg: Config, s: State, msg: Wire, sendOk: bool): State {
    if s.core.pending.None? || msg.hash.Absent? || msg.height > s.core.pending.value.maxMissing
    then CheckLink(hs, cfg, s.(inRecover := false), msg, sendOk)
    else s.(core := RecoverInto(hs, s.core, s.core.pending.value, msg))
  }

  // ---------------------------------------------------------------- settling

  predicate AllRecovered(p: Window) {
    p.missing == {} && !p.failed
  }

  /** Settles one attempt: done, retry later, or give up. */
  function FinishCore(cfg: Config, k: Core): Core {
    if k.pending.None? then k
    else
      var p := k.pending.value;
      if AllRecovered(p) || p.attempts > cfg.retries then k.(pending := None)
      else k.(gen := k.gen + 1, trail := k.trail.(armed := k.trail.armed + {Retry(k.gen + 1, p.id)}))
  }

  function Finish(cfg: Config, s: State): State {
    var k := FinishCore(cfg, s.core);
    s.(core := k, inRecover := s.inRecover && k.pending.Some?)
  }

  /** A timer of this very window and generation. */
  predicate Current(k: Core, t: Timer) {
    t.gen == k.gen && k.pending.Some? && k.pending.value.id == t.window
  }

  /** A retry sends again, or gives the window up when it cannot. */
  function ResendCore(k: Core, connected: bool, sendOk: bool): Core {
    var (k', sent) := SendRecover(k, connected, sendOk);
    if sent then k' else k'.(pending := None)
  }

  /** A timer fires; one from a superseded generation or window does nothing. */
  function Fire(cfg: Config, s: State, t: Timer, sendOk: bool): State {
    if !Current(s.core, t) then s
    else
      match t
      case Settle(_, _) => Finish(cfg, s)
      case Retry(_, _) =>
        s.(core := ResendCore(s.core, s.connected, sendOk), inRecover := SendRecover(s.core, s.connected, sendOk).1)
  }

  /** A replay trailer that does not belong to the initial load. */
  function Trailer(cfg: Config, s: State, recover: bool): State {
    if s.inOlder then
      if s.core.pending.Some? then Finish(cfg, s.(inOlder := false)) else s.(inOlder := false)
    else if s.inRecover || s.core.pending.Some? || recover then Finish(cfg, s.(inRecover := false))
    else s
  }

  // ---------------------------------------------------------------- runs

  /** What the client may see next, in any order: a wire, a trailer, a timer, or a window
      flag switched by a request, a marker or the end of the load. */
  datatype Event =
    | Frame(msg: Wire, older: bool, sendOk: bool)
    | EndOfReplay(recover: bool)
    | TimerFires(t: Timer, sendOk: bool)
    | Flags(inSync: bool, loading: bool, inOlder: bool, inRecover: bool)

  /** A wire inside an older window is display only; a live one is checked as usual. */
  function OnFrame(hs: Hasher, cfg: Config, s: State, msg: Wire, older: bool, sendOk: bool): State {
    if s.inOlder && older then s
    else
      var checked := Checked(hs, cfg, s.(inOlder := false), msg, sendOk);
      checked.(inOlder := s.inOlder)
  }

  function Checked(hs: Hasher, cfg: Config, s: State, msg: Wire, sendOk: bool): State {
    if s.inRecover then CheckRecover(hs, cfg, s, msg, sendOk) else CheckLink(hs, cfg, s, msg, sendOk)
  }

  function Step(hs: Hasher, cfg: Config, s: State, e: Event): State {
    match e
    case Frame(msg, older, sendOk) => OnFrame(hs, cfg, s, msg, older, sendOk)
    case EndOfReplay(recover) => Trailer(cfg, s, recover)
    case TimerFires(t, sendOk) => if t in s.core.trail.armed then Fire(cfg, s, t, sendOk) else s
    case Flags(inSync, loading, inOlder, inRecover) =>
      s.(inSync := inSync, loading := loading, inOlder := inOlder, inRecover := inRecover)
  }

  // ---------------------------------------------------------------- moves of the core

  /** The six things any step can do to tip and window; a jump leaves out the heights from
      the tip up to `last` and lands just above. */
  datatype Move =
    | Stay
    | Advance(tip: Digest, height: nat)
    | Jump(connected: bool, tip: Digest, last: nat, sendOk: bool)
    | Refill(msg: Wire)
    | Conclude
    | Resend(gen: nat, window: nat, connected: bool, sendOk: bool)

  /** When a move can happen. */
  predicate Legal(k: Core, m: Move) {
    match m
    case Stay => true
    case Advance(_, height) => k.haveTip ==> height > k.height
    case Jump(_, _, last, _) => k.haveTip && last > k.height
    case Refill(_) => k.pending.Some?
    case Conclude => true
    case Resend(gen, window, _, _) => Retry(gen, window) in k.trail.armed && Current(k, Retry(gen, window))
  }

  function Moved(hs: Hasher, cfg: Config, k: Core, m: Move): Core {
    match m
    case Stay => k
    case Advance(tip, height) => NoteTip(k, tip, height)
    case Jump(connected, tip, last, sendOk) => Above(cfg, k, connected, tip, last, sendOk)
    case Refill(msg) => if k.pending.Some? then RecoverInto(hs, k, k.pending.value, msg) else k
    case Conclude => FinishCore(cfg, k)
    case Resend(_, _, connected, sendOk) => ResendCore(k, connected, sendOk)
  }

  function LinkMove(hs: Hasher, s: State, msg: Wire, sendOk: bool): Move {
    if msg.hash.Absent? || (s.core.haveTip && msg.height <= s.core.height) then Stay
    else JudgeMove(hs, s.core, s.inSync, s.connected, msg, sendOk)
  }

  function MoveOf(hs: Hasher, s: State, e: Event): Move {
    match e
    case Frame(msg, older, sendOk) =>
      if s.inOlder && older then Stay else CheckedMove(hs, s.(inOlder := false), msg, sendOk)
    case EndOfReplay(recover) =>
      if s.core.pending.Some? || (!s.inOlder && (s.inRecover || recover)) then Conclude else Stay
    case TimerFires(t, sendOk) =>
      if t !in s.core.trail.armed || !Current(s.core, t) then Stay
      else (match t
            case Settle(_, _) => Conclude
            case Retry(gen, window) => Resend(gen, window, s.connected, sendOk))
    case Flags(_, _, _, _) => Stay
  }

  lemma LinkIsMove(hs: Hasher, cfg: Config, s: State, msg: Wire, sendOk: bool)
    ensures Legal(s.core, LinkMove(hs, s, msg, sendOk))
    ensures CheckLink(hs, cfg, s, msg, sendOk).core == Moved(hs, cfg, s.core, LinkMove(hs, s, msg, sendOk))
  {
    var s' := CountLoad(NoteSync(s, msg));
    assert s'.core == s.core && s'.inSync == s.inSync && s'.connected == s.connected;
    JudgeIsMove(hs, cfg, s', msg, sendOk);
  }

  lemma JudgeIsMove(hs: Hasher, cfg: Config, s: State, msg: Wire, sendOk: bool)
    ensures Judge(hs, cfg, s, msg, sendOk).core
         == Moved(hs, cfg, s.core, JudgeMove(hs, s.core, s.inSync, s.connected, msg, sendOk))
  {
    AdoptedIsMove(hs, cfg, s, msg, LinkVerdict(hs, s.core, msg), sendOk);
  }

  lemma AdoptedIsMove(hs: Hasher, cfg: Config, s: State, msg: Wire, verdict: LinkResult, sendOk: bool)
    ensures Adopted(cfg, s, msg, verdict, sendOk).core
         == Moved(hs, cfg, s.core, AdoptMove(s.core, s.inSync, s.connected, msg, verdict, sendOk))
  {
    match verdict
    case Tip(_) =>
    case Broken(e) =>
      if ForwardJump(s.core, msg, e) {
        JumpIsMove(hs, cfg, s, msg.hash.digest, msg.height - 1, sendOk);
      }
  }

  lemma JumpIsMove(hs: Hasher, cfg: Config, s: State, tip: Digest, last: nat, sendOk: bool)
    ensures JumpJudged(cfg, s, tip, last, sendOk).core
         == Moved(hs, cfg, s.core, if s.inSync then Advance(tip, last + 1) else Jump(s.connected, tip, last, sendOk))
  {
    JumpLandsAbove(cfg, s, tip, last, sendOk);
  }

  lemma JumpLandsAbove(cfg: Config, s: State, tip: Digest, last: nat, sendOk: bool)
    ensures Jumped(cfg, s, tip, last, sendOk).core == Above(cfg, s.core, s.connected, tip, last, sendOk)
  {
  }

  function CheckedMove(hs: Hasher, s: State, msg: Wire, sendOk: bool): Move {
    if !s.inRecover || s.core.pending.None? || msg.hash.Absent? || msg.height > s.core.pending.value.maxMissing
    then LinkMove(hs, s, msg, sendOk)
    else Refill(msg)
  }

  lemma CheckedIsMove(hs: Hasher, cfg: Config, s: State, msg: Wire, sendOk: bool)
    ensures Legal(s.core, CheckedMove(hs, s, msg, sendOk))
    ensures Checked(hs, cfg, s, msg, sendOk).core == Moved(hs, cfg, s.core, CheckedMove(hs, s, msg, sendOk))
  {
    if !s.inRecover {
      LinkIsMove(hs, cfg, s, msg, sendOk);
    } else if s.core.pending.None? || msg.hash.Absent? || msg.height > s.core.pending.value.maxMissing {
      LinkIsMove(hs, cfg, s.(inRecover := false), msg, sendOk);
    }
  }

  lemma TrailerIsMove(hs: Hasher, cfg: Config, s: State, recover: bool)
    ensures Trailer(cfg, s, recover).core == Moved(hs, cfg, s.core, MoveOf(hs, s, EndOfReplay(recover)))
  {
    assert s.(inOlder := false).core == s.core && s.(inRecover := false).core == s.core;
  }

  lemma TimerIsMove(hs: Hasher, cfg: Config, s: State, t: Timer, sendOk: bool)
    requires t in s.core.trail.armed
    ensures Legal(s.core, MoveOf(hs, s, TimerFires(t, sendOk)))
    ensures Fire(cfg, s, t, sendOk).core == Moved(hs, cfg, s.core, MoveOf(hs, s, TimerFires(t, sendOk)))
  {
    if Current(s.core, t) {
      match t
      case Settle(_, _) => assert Fire(cfg, s, t, sendOk).core == FinishCore(cfg, s.core);
      case Retry(_, _) => assert Fire(cfg, s, t, sendOk).core == ResendCore(s.core, s.connected, sendOk);
    }
  }

  /** Every step is one of the six moves. */
  lemma {:induction false} StepIsMove(hs: Hasher, cfg: Config, s: State, e: Event)
    ensures Legal(s.core, MoveOf(hs, s, e))
    ensures Step(hs, cfg, s, e).core == Moved(hs, cfg, s.core, MoveOf(hs, s, e))
  {
    match e
    case Frame(msg, older, sendOk) => CheckedIsMove(hs, cfg, s.(inOlder := false), msg, sendOk);
    case EndOfReplay(recover) => TrailerIsMove(hs, cfg, s, recover);
    case TimerFires(t, sendOk) =>
      if t in s.core.trail.armed {
        TimerIsMove(hs, cfg, s, t, sendOk);
      }
    case Flags(_, _, _, _) =>
  }

  function Run(hs: Hasher, cfg: Config, s: State, es: seq<Event>): State {
    if es == [] then s else Step(hs, cfg, Run(hs, cfg, s, es[..|es| - 1]), es[|es| - 1])
  }

  const FRESH_CORE := Core(false, 0, 0, None, 0, 0, 0, Trail(map[], map[], [], {}))

  function Fresh(connected: bool): State {
    State(FRESH_CORE, connected, false, false, false, false, false, false, 0, map[])
  }
}
