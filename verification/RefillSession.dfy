/** One whole refill between the session object and the server's lookup: request, answer,
    trailer. */
module RefillSessions {
  import opened Basics
  import opened WireModel
  import opened HashChain
  import opened Refill
  import opened Tracker
  import opened TrackerSafety
  import opened TrackerGenuine
  import opened RefillRoundTrip
  import opened Sessions

  /** The state after the first i wires of an answer. */
  function Fed(hs: Hasher, cfg: Config, s: State, wires: seq<Wire>, i: nat): State
    requires i <= |wires|
  {
    Run(hs, cfg, s, Frames(wires)[..i])
  }

  lemma FedAll(hs: Hasher, cfg: Config, s: State, wires: seq<Wire>)
    ensures Fed(hs, cfg, s, wires, 0) == s
    ensures Fed(hs, cfg, s, wires, |wires|) == Run(hs, cfg, s, Frames(wires))
  {
    assert Frames(wires)[..0] == [] && Frames(wires)[..|wires|] == Frames(wires);
  }

  lemma FedMore(hs: Hasher, cfg: Config, s: State, wires: seq<Wire>, i: nat)
    requires i < |wires|
    ensures Fed(hs, cfg, s, wires, i + 1) == OnFrame(hs, cfg, Fed(hs, cfg, s, wires, i), wires[i], false, true)
  {
    assert Frames(wires)[..i + 1][..i] == Frames(wires)[..i];
  }

  /** Feeds the wires of a refill answer to the session, one frame each. */
  method FeedAnswer(c: Codec, hs: Hasher, session: Session, lines: seq<string>)
    requires session.Valid() && forall t :: t in lines ==> c.unmarshal(t).Some?
    modifies session, session.recoverPending
    ensures session.Valid()
    ensures session.View() == Run(hs, session.cfg, old(session.View()), Frames(WiresOf(c, lines)))
  {
    ghost var start, wires := session.View(), WiresOf(c, lines);
    WiresSize(c, lines);
    FedAll(hs, session.cfg, start, wires);
    for i := 0 to |lines|
      invariant session.Valid() && session.View() == Fed(hs, session.cfg, start, wires, i)
      invariant session.recoverPending == old(session.recoverPending) || session.recoverPending == null
                || fresh(session.recoverPending)
    {
      FedMore(hs, session.cfg, start, wires, i);
      session.OnWire(hs, c.unmarshal(lines[i]).value, false, true);
    }
  }

  /** What one undisturbed refill needs of the world: the server's log is a chain, RAM still
      holds every missing line, and the client is sound and in step with that log. */
  ghost predicate CanRefill(c: Codec, hs: Hasher, start: Digest, log: seq<Wire>, history: seq<string>, k: Core) {
    && ServerLog(hs, start, log) && StoresLog(c, log, history)
    && Sound(hs, k) && Real(hs, start, log, k)
    && k.pending.Some? && forall h :: h in k.pending.value.missing ==> Stored(c, history, h)
  }

  /** Asking keeps the client sound and in step, with a fresh attempt for all that is missing. */
  lemma AskIsReady(c: Codec, hs: Hasher, start: Digest, log: seq<Wire>, history: seq<string>, k: Core)
    requires CanRefill(c, hs, start, log, history, k) && k.pending.value.missing != {}
    ensures var (k', sent) := Tracker.SendRecover(k, true, true);
            && sent && CanRefill(c, hs, start, log, history, k')
            && k'.pending.value.missing == k.pending.value.missing && !k'.pending.value.failed
  {
    PruneIsIdle(k.pending.value, k.height);
    SendSound(hs, k, true, k.height, true);
    AskReal(hs, start, log, k, true, true);
  }

  /** The server's answer to the client's request, taken in full, leaves nothing missing. */
  lemma AnswerIsComplete(c: Codec, hs: Hasher, cfg: Config, start: Digest, log: seq<Wire>, history: seq<string>,
                         s: State, ranges: seq<HeightRange>, maxTo: nat, lines: seq<string>)
    requires CanRefill(c, hs, start, log, history, s.core) && s.inRecover && !s.inOlder && !s.core.pending.value.failed
    requires Separated(ranges) && forall h :: h in s.core.pending.value.missing <==> InRanges(ranges, h)
    requires ranges != []
    requires ValidRanges(ranges) != [] ==> IsScanLimit(ValidRanges(ranges), maxTo)
    requires ValidRanges(ranges) != [] ==>
               lines == FirstN(LinesIn(c, history, ValidRanges(ranges), maxTo), |s.core.pending.value.missing|)
    ensures forall t :: t in lines ==> c.unmarshal(t).Some?
    ensures var s' := Trailer(cfg, Run(hs, cfg, s, Frames(WiresOf(c, lines))), true);
            s'.core.pending.None? && !s'.inRecover
  {
    RunsAreValid(s.core.pending.value.missing, ranges);
    RefillRoundTrips(c, hs, cfg, start, log, history, s, ranges, maxTo);
    TrailerClosesWindow(cfg, Run(hs, cfg, s, Frames(WiresOf(c, lines))));
  }

  /** Request, lookup, answer, trailer: the refill is over and nothing is missing. */
  method RefillOnce(c: Codec, hs: Hasher, session: Session, history: seq<string>, ghost start: Digest,
                    ghost log: seq<Wire>)
    requires session.Valid() && session.connected && !session.inOlder
    requires CanRefill(c, hs, start, log, history, session.CoreView())
    requires session.recoverPending.missing != {}
    modifies session, session.recoverPending
    ensures session.Valid() && session.recoverPending == null && !session.inRecover
  {
    AskIsReady(c, hs, start, log, history, session.CoreView());
    var sent, ranges := session.SendRecover(true);
    ghost var s := session.View();
    ghost var maxTo, at;
    var lines;
    lines, maxTo, at := CollectRanges(c, history, ranges, |session.recoverPending.missing|);
    SomethingAsked(s.core.pending.value.missing, ranges);
    AnswerIsComplete(c, hs, session.cfg, start, log, history, s, ranges, maxTo, lines);
    FeedAnswer(c, hs, session, lines);
    session.OnTrailer(true);
  }

  lemma SomethingAsked(missing: set<nat>, ranges: seq<HeightRange>)
    requires missing != {} && forall h :: h in missing <==> InRanges(ranges, h)
    ensures ranges != [] && |missing| > 0
  {
    var h :| h in missing;
  }
}
