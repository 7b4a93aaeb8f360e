/** What one chained wire does to the tamper latch, the tip and the refill, said in the fields of
    wire, tip and window alone. */
module TrackerLatch {
  import opened Basics
  import opened WireModel
  import opened HashChain
  import opened Refill
  import opened Tracker
  import opened TrackerSafety

  /** A wire above a held tip sets the tamper latch exactly when it neither continues the tip nor
      looks like the far side of dropped frames. */
  lemma {:induction false} LatchIff(hs: Hasher, cfg: Config, s: State, msg: Wire, sendOk: bool)
    requires s.core.haveTip && !msg.hash.Absent? && msg.height > s.core.height
    ensures var continues := msg.prev == Hex(s.core.tip) && msg.hash == Hex(hs.link(PreimageOf(msg, s.core.tip)));
            var jumps := msg.height > s.core.height + 1 && msg.hash.Hex? && msg.prev.Hex?
                && msg.prev != Hex(s.core.tip);
            CheckLink(hs, cfg, s, msg, sendOk).warned <==> s.warned || !(continues || jumps)
  {
    var s' := CountLoad(NoteSync(s, msg));
    assert s'.core == s.core && s'.warned == s.warned;
    LatchOf(hs, cfg, s', msg, sendOk);
  }

  lemma LatchOf(hs: Hasher, cfg: Config, s: State, msg: Wire, sendOk: bool)
    ensures Judge(hs, cfg, s, msg, sendOk).warned <==> s.warned || Breaks(hs, s.core, msg)
  {
    AdoptedLatch(cfg, s, msg, LinkVerdict(hs, s.core, msg), sendOk);
  }

  lemma AdoptedLatch(cfg: Config, s: State, msg: Wire, verdict: LinkResult, sendOk: bool)
    ensures Adopted(cfg, s, msg, verdict, sendOk).warned <==>
              s.warned || (verdict.Broken? && !ForwardJump(s.core, msg, verdict.error))
  {
    if verdict.Broken? && ForwardJump(s.core, msg, verdict.error) {
      JumpKeepsLatch(cfg, s, msg.hash.digest, msg.height - 1, sendOk);
    }
  }

  lemma JumpKeepsLatch(cfg: Config, s: State, tip: Digest, last: nat, sendOk: bool)
    ensures JumpJudged(cfg, s, tip, last, sendOk).warned == s.warned
  {
  }

  /** With no tip yet a wire is judged on its own: the latch is set exactly when it is not intact. */
  lemma {:induction false} FirstLatchIff(hs: Hasher, cfg: Config, s: State, msg: Wire, sendOk: bool)
    requires !s.core.haveTip && !msg.hash.Absent?
    ensures CheckLink(hs, cfg, s, msg, sendOk).warned <==>
              s.warned || !(msg.prev.Hex? && msg.hash == Hex(hs.link(PreimageOf(msg, msg.prev.digest))))
  {
    var s' := CountLoad(NoteSync(s, msg));
    assert s'.core == s.core && s'.warned == s.warned;
    LatchOf(hs, cfg, s', msg, sendOk);
  }

  /** What is not chained, and what the tip already covers, changes neither. */
  lemma {:induction false} SkippedStays(hs: Hasher, cfg: Config, s: State, msg: Wire, sendOk: bool)
    requires msg.hash.Absent? || (s.core.haveTip && msg.height <= s.core.height)
    ensures CheckLink(hs, cfg, s, msg, sendOk).core == s.core && CheckLink(hs, cfg, s, msg, sendOk).warned == s.warned
  {
  }

  /** Any other wire becomes the tip, warned of or not, exactly when its hash is well formed and,
      for a first tip, its previous hash too. */
  lemma {:induction false} TipMovesIff(hs: Hasher, cfg: Config, s: State, msg: Wire, sendOk: bool)
    requires !msg.hash.Absent? && (s.core.haveTip ==> msg.height > s.core.height)
    ensures var k, k' := s.core, CheckLink(hs, cfg, s, msg, sendOk).core;
            if msg.hash.Hex? && (k.haveTip || msg.prev.Hex?)
            then k'.haveTip && k'.tip == msg.hash.digest && k'.height == msg.height
            else k'.haveTip == k.haveTip && k'.tip == k.tip && k'.height == k.height
  {
    LinkIsMove(hs, cfg, s, msg, sendOk);
    VerdictTip(hs, s.core, msg);
    if LinkMove(hs, s, msg, sendOk).Jump? {
      JumpsTo(cfg, s.core, s.connected, msg.hash.digest, msg.height - 1, sendOk);
    }
  }

  lemma VerdictTip(hs: Hasher, k: Core, msg: Wire)
    ensures LinkVerdict(hs, k, msg).Tip? ==> msg.prev.Hex? && msg.hash == Hex(LinkVerdict(hs, k, msg).digest)
  {
  }

  lemma JumpsTo(cfg: Config, k: Core, connected: bool, tip: Digest, last: nat, sendOk: bool)
    ensures var k' := Above(cfg, k, connected, tip, last, sendOk);
            k'.haveTip && k'.tip == tip && k'.height == last + 1
  {
  }

  // ---------------------------------------------------------------- the gap a jump leaves

  /** The heights the session is still waiting for, of those it may recover live. */
  function Waiting(k: Core): set<nat> {
    match k.pending
    case Some(p) => p.live
    case None => {}
  }

  function Missing(k: Core): set<nat> {
    match k.pending
    case Some(p) => p.missing
    case None => {}
  }

  /** A request is out for the pending window. */
  predicate InFlight(k: Core) {
    k.pending.Some? && k.pending.value.attempts != 0
  }

  /** The heights above the tip up to `last` fit under the session's cap. */
  predicate HasRoom(cfg: Config, k: Core, last: nat) {
    cfg.recoverCap == 0 || k.liveRecovered + |Waiting(k)| + (last - k.height) <= cfg.recoverCap
  }

  /** Pruning would drop nothing of the pending window, and there is something to ask for. */
  predicate Askable(k: Core) {
    k.pending.Some? && k.pending.value.missing != {} && Pruned(k.pending.value) == k.pending.value
  }

  /** What is missing, and how many requests have gone out. */
  datatype Books = Books(missing: set<nat>, requests: nat)

  function BooksOf(k: Core): Books {
    Books(Missing(k), |k.trail.requests|)
  }

  /** The books once a gap has joined them, and a request gone out if one could. */
  function Taken(b: Books, gap: set<nat>, sent: bool): Books {
    Books(b.missing + gap, b.requests + if sent then 1 else 0)
  }

  lemma AddedBooks(k: Core, lo: nat, hi: nat, anchorHeight: nat, anchorHash: Digest)
    ensures BooksOf(GapAdded(k, lo, hi, anchorHeight, anchorHash)) == Taken(BooksOf(k), Heights(lo, hi), false)
  {
  }

  lemma SentBooks(k: Core, sendOk: bool)
    requires Askable(k)
    ensures BooksOf(SendRecover(k, true, sendOk).0) == Taken(BooksOf(k), {}, sendOk)
    ensures SendRecover(k, true, sendOk).1 == sendOk
  {
  }

  /** A missing height follows a missing or a known one. */
  predicate Follows(k: Core, h: nat) {
    h in Missing(k) ==> h > 0 && (h - 1 in Missing(k) || h - 1 in k.pending.value.known)
  }

  ghost predicate Rooted(k: Core) {
    forall h: nat :: Follows(k, h)
  }

  /** As they do in every run. */
  lemma SoundIsRooted(hs: Hasher, k: Core)
    requires Sound(hs, k)
    ensures Rooted(k)
  {
  }

  lemma AddedFollows(k: Core, hi: nat, h: nat)
    requires Follows(k, h) && hi > k.height
    ensures Follows(GapAdded(k, k.height + 1, hi, k.height, k.tip), h)
  {
  }

  lemma AddedIsAskable(k: Core, hi: nat)
    requires Rooted(k) && hi > k.height
    ensures Askable(GapAdded(k, k.height + 1, hi, k.height, k.tip))
  {
    var added := GapAdded(k, k.height + 1, hi, k.height, k.tip);
    forall h: nat ensures Follows(added, h) {
      AddedFollows(k, hi, h);
    }
    RootedIsIdle(added);
    assert hi in Heights(k.height + 1, hi);
  }

  lemma RootedIsIdle(k: Core)
    requires Rooted(k) && k.pending.Some?
    ensures Pruned(k.pending.value) == k.pending.value
  {
    var p := k.pending.value;
    forall h | h in p.missing ensures h > 0 && (h - 1 in p.missing || h - 1 in p.known) {
      assert Follows(k, h);
    }
    PruneKeepsAll(p.missing, p.known);
  }

  lemma RoomJoins(cfg: Config, k: Core, last: nat)
    requires last > k.height && HasRoom(cfg, k, last)
    ensures !OverCap(cfg, k, Joined(k).pending.value, last - (k.height + 1) + 1)
    ensures Joined(k).pending.value.attempts == 0 <==> !InFlight(k)
  {
  }

  /** The window with the gap in it: kept as it is while a request is out, asked for otherwise. */
  lemma JoinOut(cfg: Config, k: Core, last: nat, sendOk: bool, k': Core) returns (added: Core)
    requires Rooted(k) && last > k.height && HasRoom(cfg, k, last)
    requires k' == MaybeRequest(cfg, k, true, k.height + 1, last, k.height, k.tip, sendOk)
    ensures Askable(added) && BooksOf(added) == Taken(BooksOf(k), Heights(k.height + 1, last), false)
    ensures k' == if InFlight(k) then added else SendRecover(added, true, sendOk).0
  {
    added := GapAdded(k, k.height + 1, last, k.height, k.tip);
    AddedIsAskable(k, last);
    RoomJoins(cfg, k, last);
    FiledJoins(cfg, k, true, k.height + 1, last, k.height, k.tip, sendOk);
    AddedBooks(k, k.height + 1, last, k.height, k.tip);
  }

  /** A gap up to `last` that can be asked for. */
  ghost predicate Roomy(cfg: Config, k: Core, connected: bool, last: nat) {
    connected && Rooted(k) && last > k.height && HasRoom(cfg, k, last)
  }

  /** The books such a gap leaves. */
  function Due(k: Core, last: nat, sendOk: bool): Books {
    Taken(BooksOf(k), Heights(k.height + 1, last), !InFlight(k) && sendOk)
  }

  lemma OutBooks(cfg: Config, k: Core, last: nat, sendOk: bool, k': Core) returns (a: Books)
    requires Rooted(k) && last > k.height && HasRoom(cfg, k, last)
    requires k' == MaybeRequest(cfg, k, true, k.height + 1, last, k.height, k.tip, sendOk)
    ensures a == Taken(BooksOf(k), Heights(k.height + 1, last), false)
    ensures BooksOf(k') == if InFlight(k) then a else Taken(a, {}, sendOk)
  {
    var added := JoinOut(cfg, k, last, sendOk, k');
    SentBooks(added, sendOk);
    a := BooksOf(added);
  }

  lemma FiledBooks(cfg: Config, k: Core, last: nat, sendOk: bool, k': Core)
    requires Rooted(k) && last > k.height && HasRoom(cfg, k, last)
    requires k' == MaybeRequest(cfg, k, true, k.height + 1, last, k.height, k.tip, sendOk)
    ensures BooksOf(k') == Due(k, last, sendOk)
  {
    var a := OutBooks(cfg, k, last, sendOk, k');
    TakenTwice(BooksOf(k), Heights(k.height + 1, last), sendOk, a);
  }

  lemma TakenTwice(b: Books, gap: set<nat>, sent: bool, a: Books)
    requires a == Taken(b, gap, false)
    ensures Taken(a, {}, sent) == Taken(b, gap, sent)
  {
  }

  lemma NotedBooks(k: Core, tip: Digest, height: nat)
    ensures BooksOf(NoteTip(k, tip, height)) == BooksOf(k)
  {
  }

  lemma AboveBooks(cfg: Config, k: Core, connected: bool, tip: Digest, last: nat, sendOk: bool)
    ensures Roomy(cfg, k, connected, last) ==>
              BooksOf(Above(cfg, k, connected, tip, last, sendOk)) == Due(k, last, sendOk)
  {
    if Roomy(cfg, k, connected, last) {
      var k' := AboveIs(cfg, k, true, tip, last, sendOk);
      FiledBooks(cfg, k, last, sendOk, k');
      NotedBooks(k', tip, last + 1);
    }
  }

  lemma JumpedBooks(cfg: Config, s: State, tip: Digest, last: nat, sendOk: bool)
    ensures Roomy(cfg, s.core, s.connected, last) ==>
              BooksOf(Jumped(cfg, s, tip, last, sendOk).core) == Due(s.core, last, sendOk)
  {
    JumpLandsAbove(cfg, s, tip, last, sendOk);
    AboveBooks(cfg, s.core, s.connected, tip, last, sendOk);
  }

  lemma ForeignPrev(hs: Hasher, k: Core, msg: Wire)
    requires k.haveTip && msg.prev.Hex? && msg.prev != Hex(k.tip)
    ensures LinkVerdict(hs, k, msg) == Broken(PrevMismatch)
  {
  }

  lemma AdoptedAsJump(cfg: Config, s: State, msg: Wire, sendOk: bool)
    requires s.core.haveTip && msg.height > s.core.height + 1 && msg.hash.Hex?
    ensures Adopted(cfg, s, msg, Broken(PrevMismatch), sendOk)
         == JumpJudged(cfg, s, msg.hash.digest, msg.height - 1, sendOk)
  {
  }

  /** A wire from the far side of dropped frames is judged as a jump, from a state with the same
      core. */
  lemma CheckedAsJump(hs: Hasher, cfg: Config, s: State, msg: Wire, sendOk: bool) returns (noted: State)
    requires s.core.haveTip
    requires msg.height > s.core.height + 1 && msg.hash.Hex? && msg.prev.Hex? && msg.prev != Hex(s.core.tip)
    ensures noted.core == s.core && noted.connected == s.connected && noted.inSync == s.inSync
    ensures noted.gapWarned == s.gapWarned
    ensures CheckLink(hs, cfg, s, msg, sendOk) == JumpJudged(cfg, noted, msg.hash.digest, msg.height - 1, sendOk)
  {
    noted := CountLoad(NoteSync(s, msg));
    ForeignPrev(hs, noted.core, msg);
    AdoptedAsJump(cfg, noted, msg, sendOk);
  }

  lemma CheckedLive(hs: Hasher, cfg: Config, s: State, msg: Wire, tip: Digest, last: nat, sendOk: bool)
    requires s.core.haveTip && !s.inSync
    requires last > s.core.height && msg.height == last + 1
    requires msg.hash == Hex(tip) && msg.prev.Hex? && msg.prev != Hex(s.core.tip)
    ensures CheckLink(hs, cfg, s, msg, sendOk) == Jumped(cfg, s, tip, last, sendOk)
  {
    ForeignPrev(hs, s.core, msg);
    AdoptedAsJump(cfg, s, msg, sendOk);
  }

  lemma CheckedBooks(hs: Hasher, cfg: Config, s: State, msg: Wire, tip: Digest, last: nat, sendOk: bool)
    requires s.core.haveTip && !s.inSync
    requires last > s.core.height && msg.height == last + 1
    requires msg.hash == Hex(tip) && msg.prev.Hex? && msg.prev != Hex(s.core.tip)
    ensures Roomy(cfg, s.core, s.connected, last) ==>
              BooksOf(CheckLink(hs, cfg, s, msg, sendOk).core) == Due(s.core, last, sendOk)
  {
    JumpedBooks(cfg, s, tip, last, sendOk);
    CheckedLive(hs, cfg, s, msg, tip, last, sendOk);
  }

  lemma DueMeans(k: Core, high: nat, sendOk: bool)
    requires k.height + 1 < high
    ensures var b := Due(k, high - 1, sendOk);
            && (forall h :: h in b.missing <==> h in Missing(k) || k.height < h < high)
            && b.requests == |k.trail.requests| + if !InFlight(k) && sendOk then 1 else 0
  {
  }

  /** A jump outside a join replay, with a connection and room under the cap: every height it
      skipped is missing from then on, beside what was, and one more request is out, unless one is
      in flight already or the send fails. */
  lemma {:induction false} GapIsAsked(hs: Hasher, cfg: Config, s: State, msg: Wire, sendOk: bool)
    requires s.core.haveTip && s.connected && !s.inSync
    requires msg.height > s.core.height + 1 && msg.hash.Hex? && msg.prev.Hex? && msg.prev != Hex(s.core.tip)
    requires HasRoom(cfg, s.core, msg.height - 1)
    requires Rooted(s.core)
    ensures var k, k' := s.core, CheckLink(hs, cfg, s, msg, sendOk).core;
            && (forall h :: h in Missing(k') <==> h in Missing(k) || k.height < h < msg.height)
            && |k'.trail.requests| == |k.trail.requests| + if !InFlight(k) && sendOk then 1 else 0
  {
    CheckedBooks(hs, cfg, s, msg, msg.hash.digest, msg.height - 1, sendOk);
    DueMeans(s.core, msg.height, sendOk);
  }

  /** Without a connection or over the cap the gap is not asked for, and warned of. */
  lemma {:induction false} GapIsDropped(hs: Hasher, cfg: Config, s: State, msg: Wire, sendOk: bool)
    requires s.core.haveTip && !s.inSync
    requires msg.height > s.core.height + 1 && msg.hash.Hex? && msg.prev.Hex? && msg.prev != Hex(s.core.tip)
    requires !s.connected || !HasRoom(cfg, s.core, msg.height - 1)
    ensures var s' := CheckLink(hs, cfg, s, msg, sendOk);
            && Missing(s'.core) == Missing(s.core) && s'.core.trail.requests == s.core.trail.requests && s'.gapWarned
  {
    var noted := CheckedAsJump(hs, cfg, s, msg, sendOk);
    var k, last := s.core, msg.height - 1;
    if !s.connected {
      RefusedStays(cfg, k, s.connected, k.height + 1, last, k.height, k.tip, sendOk);
    } else {
      TooManyDrops(cfg, k, s.connected, k.height + 1, last, k.height, k.tip, sendOk);
    }
  }

  /** During a join replay a jump is adopted without a request: the replay's end settles it. */
  lemma {:induction false} ReplayGapIsLeft(hs: Hasher, cfg: Config, s: State, msg: Wire, sendOk: bool)
    requires s.core.haveTip && s.inSync
    requires msg.height > s.core.height + 1 && msg.hash.Hex? && msg.prev.Hex? && msg.prev != Hex(s.core.tip)
    ensures var s' := CheckLink(hs, cfg, s, msg, sendOk);
            && s'.core.pending == s.core.pending && s'.core.trail.requests == s.core.trail.requests
            && s'.gapWarned == s.gapWarned && s'.core.height == msg.height
  {
    var noted := CheckedAsJump(hs, cfg, s, msg, sendOk);
  }

  // ---------------------------------------------------------------- the answer, and its end

  /** A wire of the answer that continues what is known of its predecessor. */
  predicate Continues(hs: Hasher, p: Window, msg: Wire) {
    && msg.height > 0 && msg.height - 1 in p.known && msg.prev == Hex(p.known[msg.height - 1])
    && msg.hash == Hex(hs.link(PreimageOf(msg, p.known[msg.height - 1])))
  }

  /** What is recovered by one wire. */
  predicate TookIn(k: Core, p: Window, msg: Wire, k': Core) {
    && Missing(k') == p.missing - {msg.height} && k'.pending.Some?
    && msg.hash.Hex? && k'.pending.value.known == p.known[msg.height := msg.hash.digest]
    && k'.pending.value.failed == p.failed
    && k'.trail.recovered == k.trail.recovered[msg.height := msg]
    && k'.haveTip == k.haveTip && k'.tip == k.tip && k'.height == k.height
  }

  lemma RecoveredTookIn(k: Core, p: Window, msg: Wire, h: Digest)
    requires msg.hash == Hex(h)
    ensures TookIn(k, p, msg, Recovered(k, p, msg, h))
  {
  }

  /** An answer wire up to the highest missing height: one asked for is recovered exactly when it
      continues its known predecessor, and fails the attempt otherwise; any other changes nothing. */
  lemma {:induction false} RefillWireIff(hs: Hasher, cfg: Config, s: State, msg: Wire, sendOk: bool, p: Window)
    requires s.core.pending == Some(p) && !msg.hash.Absent? && msg.height <= p.maxMissing
    ensures var k, k' := s.core, CheckRecover(hs, cfg, s, msg, sendOk).core;
            if msg.height !in p.missing then k' == k
            else if !Continues(hs, p, msg) then k' == k.(pending := Some(p.(failed := true)))
            else TookIn(k, p, msg, k')
  {
    IntoWindow(hs, s.core, p, msg);
  }

  lemma IntoWindow(hs: Hasher, k: Core, p: Window, msg: Wire)
    ensures var k' := RecoverInto(hs, k, p, msg);
            if msg.height !in p.missing then k' == k
            else if !Continues(hs, p, msg) then k' == k.(pending := Some(p.(failed := true)))
            else TookIn(k, p, msg, k')
  {
    if msg.height in p.missing && msg.height > 0 && msg.height - 1 in p.known {
      VerdictIff(hs, msg, p.known[msg.height - 1]);
      if Continues(hs, p, msg) {
        RecoveredTookIn(k, p, msg, VerifyWireLink(hs, msg, p.known[msg.height - 1]).digest);
      }
    }
  }

  lemma VerdictIff(hs: Hasher, msg: Wire, tip: Digest)
    ensures VerifyWireLink(hs, msg, tip).Tip? <==>
              msg.prev == Hex(tip) && msg.hash == Hex(hs.link(PreimageOf(msg, tip)))
    ensures VerifyWireLink(hs, msg, tip).Tip? ==> msg.hash == Hex(VerifyWireLink(hs, msg, tip).digest)
  {
  }

  /** An attempt ends the refill exactly when all came and none failed, or the retries are used up;
      otherwise the window stays as it is and a retry of it is armed. */
  lemma {:induction false} FinishIff(cfg: Config, s: State, p: Window)
    requires s.core.pending == Some(p)
    ensures var k, k' := s.core, Finish(cfg, s).core;
            if (p.missing == {} && !p.failed) || p.attempts > cfg.retries then k'.pending == None
            else k'.pending == Some(p) && k'.gen == k.gen + 1 && Retry(k.gen + 1, p.id) in k'.trail.armed
  {
  }

  /** A retry of the window that is open asks for what is still missing once more; when it cannot,
      the window is given up. */
  lemma {:induction false} RetryIff(cfg: Config, s: State, t: Timer, sendOk: bool)
    requires t.Retry? && Current(s.core, t) && Rooted(s.core) && Missing(s.core) != {}
    ensures var k, k' := s.core, Fire(cfg, s, t, sendOk).core;
            if s.connected && sendOk
            then Missing(k') == Missing(k) && k'.trail.requests == k.trail.requests + [t.window] && InFlight(k')
            else k'.pending == None && k'.trail.requests == k.trail.requests
  {
    RootedIsIdle(s.core);
  }
}
