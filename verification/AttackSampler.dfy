/** Handshake pressure: counters in a ring of eight seconds, and the under-attack flag with
    its enter and exit rules. */
module AttackSampler {
  import opened Basics

  const WINDOW_SECS := 5
  const BUCKETS := 8
  const SEEN_CAP := 20000
  const SEEN_TTL := 300
  const SECOND := 1_000_000_000

  datatype Tally = Tally(att: nat, r503: nat, rGate: nat, rBlock: nat, newIP: nat) {
    function Plus(t: Tally): Tally {
      Tally(att + t.att, r503 + t.r503, rGate + t.rGate, rBlock + t.rBlock, newIP + t.newIP)
    }

    /** How many events it counts in all. */
    function Weight(): nat {
      att + r503 + rGate + rBlock + newIP
    }
  }

  /** An outcome counted once on the left is counted once on the right. */
  lemma CountedOnce(all: Tally, before: Tally, own: Tally, e: Tally, counted: bool, slot: nat, k: nat,
                    all': Tally, before': Tally, own': Tally)
    requires all == before.Plus(own)
    requires all' == if counted && slot < k + 1 then all.Plus(e) else all
    requires before' == if counted && slot < k then before.Plus(e) else before
    requires own' == if counted && slot == k then own.Plus(e) else own
    ensures all' == before'.Plus(own')
  {
  }

  function Nothing(): Tally {
    Tally(0, 0, 0, 0, 0)
  }

  /** One second's counters, and one recorded outcome. */
  datatype Bucket = Bucket(sec: nat, tally: Tally)

  datatype Outcome = Outcome(sec: nat, tally: Tally)

  /** The slot of a second: there are BUCKETS of them. */
  function SlotOf(sec: nat): (slot: nat)
    ensures slot < BUCKETS
  {
    sec % 8
  }

  predicate InWindow(sec: nat, at: nat) {
    at - WINDOW_SECS < sec <= at
  }

  /** What was recorded in the five seconds ending at `at`. */
  function Recorded(log: seq<Outcome>, at: nat): Tally {
    if log == [] then Nothing()
    else
      var front, e := Recorded(log[..|log| - 1], at), log[|log| - 1];
      if InWindow(e.sec, at) then front.Plus(e.tally) else front
  }

  // ---------------------------------------------------------------- one slot

  /** What a slot holds after a log: the counters of the second last written to it. */
  function Held(log: seq<Outcome>, slot: nat): Bucket {
    if log == [] then Bucket(0, Nothing())
    else
      var b, e := Held(log[..|log| - 1], slot), log[|log| - 1];
      if SlotOf(e.sec) != slot then b
      else Bucket(e.sec, if b.sec == e.sec then b.tally.Plus(e.tally) else e.tally)
  }

  /** The same seconds' outcomes, one slot at a time. */
  function RecordedIn(log: seq<Outcome>, slot: nat, at: nat): Tally {
    if log == [] then Nothing()
    else
      var front, e := RecordedIn(log[..|log| - 1], slot, at), log[|log| - 1];
      if InWindow(e.sec, at) && SlotOf(e.sec) == slot then front.Plus(e.tally) else front
  }

  /** Every outcome counts something. */
  predicate NonZero(log: seq<Outcome>) {
    forall i :: 0 <= i < |log| ==> log[i].tally.Weight() > 0
  }

  /** No outcome inside the window is followed by one of another second in its slot. */
  predicate Intact(log: seq<Outcome>, at: nat) {
    forall slot: nat :: slot < BUCKETS ==> IntactIn(log, slot, at)
  }

  predicate IntactIn(log: seq<Outcome>, slot: nat, at: nat) {
    forall i, j :: 0 <= i < j < |log| && InSlot(log[i], slot, at) && SlotOf(log[j].sec) == slot ==>
      log[j].sec == log[i].sec
  }

  /** An outcome of this slot that counts in the window. */
  predicate InSlot(e: Outcome, slot: nat, at: nat) {
    InWindow(e.sec, at) && SlotOf(e.sec) == slot
  }

  predicate SameSecond(log: seq<Outcome>, slot: nat, at: nat, sec: nat) {
    forall i :: 0 <= i < |log| && InSlot(log[i], slot, at) ==> log[i].sec == sec
  }

  lemma IntactMore(front: seq<Outcome>, e: Outcome, slot: nat, at: nat)
    ensures IntactIn(front + [e], slot, at) <==>
              IntactIn(front, slot, at) && (SlotOf(e.sec) == slot ==> SameSecond(front, slot, at, e.sec))
  {
    var all, n := front + [e], |front|;
    assert forall i :: 0 <= i < n ==> all[i] == front[i];
    assert all[n] == e;
  }

  lemma SameSlot(a: nat, b: nat)
    requires SlotOf(a) == SlotOf(b) && a < b
    ensures b >= a + BUCKETS
  {
  }

  /** A window holds one second of a slot. */
  lemma OneSecond(a: nat, b: nat, at: nat)
    requires SlotOf(a) == SlotOf(b) && InWindow(a, at) && InWindow(b, at)
    ensures a == b
  {
    if a < b {
      SameSlot(a, b);
    } else if b < a {
      SameSlot(b, a);
    }
  }

  function Counted(b: Bucket, at: nat): Tally {
    if InWindow(b.sec, at) then b.tally else Nothing()
  }

  /** A slot was never written, or holds a second of its own. */
  lemma {:induction false} HeldIsOwn(log: seq<Outcome>, slot: nat)
    ensures Held(log, slot) == Bucket(0, Nothing()) || SlotOf(Held(log, slot).sec) == slot
  {
    if log != [] {
      HeldIsOwn(log[..|log| - 1], slot);
    }
  }

  lemma NoWeight(t: Tally)
    ensures t == Nothing() <==> t.Weight() == 0
  {
  }

  predicate NoneInSlot(log: seq<Outcome>, slot: nat, at: nat) {
    forall i :: 0 <= i < |log| ==> !InSlot(log[i], slot, at)
  }

  lemma NoneMore(front: seq<Outcome>, e: Outcome, slot: nat, at: nat)
    ensures NoneInSlot(front + [e], slot, at) <==> NoneInSlot(front, slot, at) && !InSlot(e, slot, at)
  {
    var all := front + [e];
    assert forall i :: 0 <= i < |front| ==> all[i] == front[i];
    assert all[|front|] == e;
  }

  lemma PlusWeighs(a: Tally, e: Tally)
    ensures a.Plus(e).Weight() == a.Weight() + e.Weight()
  {
  }

  lemma NonZeroSplits(log: seq<Outcome>)
    requires NonZero(log) && log != []
    ensures NonZero(log[..|log| - 1]) && log[|log| - 1].tally.Weight() > 0
    ensures log == log[..|log| - 1] + [log[|log| - 1]]
  {
  }

  /** How many events of the slot the window holds. */
  function WeightIn(log: seq<Outcome>, slot: nat, at: nat): nat {
    RecordedIn(log, slot, at).Weight()
  }

  /** Nothing of the slot counts in the window exactly when none of its outcomes do. */
  lemma {:induction false} EmptySlot(log: seq<Outcome>, slot: nat, at: nat)
    requires NonZero(log)
    ensures WeightIn(log, slot, at) == 0 <==> NoneInSlot(log, slot, at)
  {
    if log != [] {
      var front, e := log[..|log| - 1], log[|log| - 1];
      NonZeroSplits(log);
      EmptySlot(front, slot, at);
      NoneMore(front, e, slot, at);
      PlusWeighs(RecordedIn(front, slot, at), e.tally);
    }
  }

  /** The slot is exact, or what it counts is strictly less than what was recorded. */
  predicate ExactOrLess(counted: Tally, recorded: Tally, intact: bool) {
    if intact then counted == recorded else counted.Weight() < recorded.Weight()
  }

  /** The same tally on both sides changes nothing about that. */
  lemma AddedToBoth(counted: Tally, recorded: Tally, intact: bool, e: Tally)
    requires ExactOrLess(counted, recorded, intact)
    ensures ExactOrLess(counted.Plus(e), recorded.Plus(e), intact)
  {
    PlusWeighs(counted, e);
    PlusWeighs(recorded, e);
  }

  /** Two slots are exact together exactly when both are, and count less otherwise. */
  lemma SlotsAddUp(c1: Tally, r1: Tally, i1: bool, c2: Tally, r2: Tally, i2: bool)
    requires ExactOrLess(c1, r1, i1) && ExactOrLess(c2, r2, i2)
    ensures ExactOrLess(c1.Plus(c2), r1.Plus(r2), i1 && i2)
  {
    PlusWeighs(c1, c2);
    PlusWeighs(r1, r2);
  }

  /** What a slot counts once an outcome inside the window is written to it. */
  lemma AddsToOwnSecond(b: Bucket, e: Outcome, at: nat)
    requires InWindow(e.sec, at) && (b == Bucket(0, Nothing()) || SlotOf(b.sec) == SlotOf(e.sec))
    ensures (if b.sec == e.sec then b.tally.Plus(e.tally) else e.tally) == Counted(b, at).Plus(e.tally)
  {
    if b.sec != e.sec && InWindow(b.sec, at) && SlotOf(b.sec) == SlotOf(e.sec) {
      OneSecond(b.sec, e.sec, at);
    }
  }

  /** A slot's outcomes inside the window are of one second. */
  lemma OneSecondInside(front: seq<Outcome>, slot: nat, at: nat, sec: nat)
    requires SlotOf(sec) == slot && InWindow(sec, at)
    ensures SameSecond(front, slot, at, sec)
  {
    forall i | 0 <= i < |front| && InSlot(front[i], slot, at) ensures front[i].sec == sec {
      OneSecond(front[i].sec, sec, at);
    }
  }

  /** One more outcome of the slot, inside the window: it adds to its own second. */
  lemma WrittenInside(front: seq<Outcome>, e: Outcome, slot: nat, at: nat, b: Bucket, recorded: Tally, intact: bool)
    requires SlotOf(e.sec) == slot && InWindow(e.sec, at) && b == Held(front, slot)
    requires ExactOrLess(Counted(b, at), recorded, intact)
    ensures SameSecond(front, slot, at, e.sec)
    ensures ExactOrLess(if b.sec == e.sec then b.tally.Plus(e.tally) else e.tally, recorded.Plus(e.tally), intact)
  {
    OneSecondInside(front, slot, at, e.sec);
    HeldIsOwn(front, slot);
    AddsToOwnSecond(b, e, at);
    AddedToBoth(Counted(b, at), recorded, intact, e.tally);
  }

  lemma NoneIsIntact(front: seq<Outcome>, slot: nat, at: nat, sec: nat)
    requires NoneInSlot(front, slot, at)
    ensures IntactIn(front, slot, at) && SameSecond(front, slot, at, sec)
  {
  }

  lemma SomeDiffer(front: seq<Outcome>, slot: nat, at: nat, sec: nat)
    requires !NoneInSlot(front, slot, at) && !InWindow(sec, at)
    ensures !SameSecond(front, slot, at, sec)
  {
    var i :| 0 <= i < |front| && InSlot(front[i], slot, at);
    assert front[i].sec != sec;
  }

  /** One outside it: it hides whatever of the window the slot held. */
  lemma WrittenOutside(front: seq<Outcome>, e: Outcome, slot: nat, at: nat)
    requires NonZero(front) && SlotOf(e.sec) == slot && !InWindow(e.sec, at)
    ensures ExactOrLess(Nothing(), RecordedIn(front, slot, at), IntactIn(front, slot, at)
                        && SameSecond(front, slot, at, e.sec))
  {
    EmptySlot(front, slot, at);
    NoWeight(RecordedIn(front, slot, at));
    if NoneInSlot(front, slot, at) {
      NoneIsIntact(front, slot, at, e.sec);
    } else {
      SomeDiffer(front, slot, at, e.sec);
    }
  }

  /** A slot contributes exactly its window outcomes if it is intact, and fewer if not. */
  lemma {:induction false} SlotExactIff(log: seq<Outcome>, slot: nat, at: nat)
    requires NonZero(log)
    ensures ExactOrLess(Counted(Held(log, slot), at), RecordedIn(log, slot, at), IntactIn(log, slot, at))
  {
    if log != [] {
      var front, e := log[..|log| - 1], log[|log| - 1];
      NonZeroSplits(log);
      SlotExactIff(front, slot, at);
      IntactMore(front, e, slot, at);
      if SlotOf(e.sec) == slot {
        if InWindow(e.sec, at) {
          WrittenInside(front, e, slot, at, Held(front, slot), RecordedIn(front, slot, at), IntactIn(front, slot, at));
        } else {
          WrittenOutside(front, e, slot, at);
        }
      }
    }
  }

  // ---------------------------------------------------------------- the whole ring

  /** The sum over the first k slots. */
  function Sum(buckets: seq<Bucket>, k: nat, at: nat): Tally
    requires k <= |buckets|
  {
    if k == 0 then Nothing() else Sum(buckets, k - 1, at).Plus(Counted(buckets[k - 1], at))
  }

  function RecordedInFirst(log: seq<Outcome>, k: nat, at: nat): Tally {
    if log == [] then Nothing()
    else
      var front, e := RecordedInFirst(log[..|log| - 1], k, at), log[|log| - 1];
      if InWindow(e.sec, at) && SlotOf(e.sec) < k then front.Plus(e.tally) else front
  }

  /** Slot k adds its own outcomes to those of the slots before it. */
  lemma {:induction false} OneMoreSlot(log: seq<Outcome>, k: nat, at: nat)
    ensures RecordedInFirst(log, k + 1, at) == RecordedInFirst(log, k, at).Plus(RecordedIn(log, k, at))
  {
    if log != [] {
      var front, e := log[..|log| - 1], log[|log| - 1];
      OneMoreSlot(front, k, at);
      CountedOnce(RecordedInFirst(front, k + 1, at), RecordedInFirst(front, k, at), RecordedIn(front, k, at), e.tally,
                  InWindow(e.sec, at), SlotOf(e.sec), k,
                  RecordedInFirst(log, k + 1, at), RecordedInFirst(log, k, at), RecordedIn(log, k, at));
    }
  }

  lemma {:induction false} NoSlots(log: seq<Outcome>, at: nat)
    ensures RecordedInFirst(log, 0, at) == Nothing()
  {
    if log != [] {
      NoSlots(log[..|log| - 1], at);
    }
  }

  lemma {:induction false} AllSlots(log: seq<Outcome>, at: nat)
    ensures RecordedInFirst(log, BUCKETS, at) == Recorded(log, at)
  {
    if log != [] {
      AllSlots(log[..|log| - 1], at);
    }
  }

  predicate Holds(buckets: seq<Bucket>, log: seq<Outcome>) {
    |buckets| == BUCKETS && forall k :: 0 <= k < BUCKETS ==> buckets[k] == Held(log, k)
  }

  predicate IntactFirst(log: seq<Outcome>, k: nat, at: nat) {
    forall slot: nat :: slot < k ==> IntactIn(log, slot, at)
  }

  lemma IntactOneMore(log: seq<Outcome>, k: nat, at: nat)
    ensures IntactFirst(log, k + 1, at) <==> IntactFirst(log, k, at) && IntactIn(log, k, at)
  {
  }

  lemma {:induction false} SumExactIff(buckets: seq<Bucket>, log: seq<Outcome>, k: nat, at: nat)
    requires Holds(buckets, log) && NonZero(log) && k <= BUCKETS
    ensures ExactOrLess(Sum(buckets, k, at), RecordedInFirst(log, k, at), IntactFirst(log, k, at))
    decreases k
  {
    if k == 0 {
      NoSlots(log, at);
    } else {
      SumExactIff(buckets, log, k - 1, at);
      SlotExactIff(log, k - 1, at);
      OneMoreSlot(log, k - 1, at);
      SlotsAddUp(Sum(buckets, k - 1, at), RecordedInFirst(log, k - 1, at), IntactFirst(log, k - 1, at),
                 Counted(buckets[k - 1], at), RecordedIn(log, k - 1, at), IntactIn(log, k - 1, at));
      IntactOneMore(log, k - 1, at);
    }
  }

  /** The ring reports exactly the outcomes of the five seconds ending at the sample if and
      only if none of them was followed by an outcome of another second in its slot; if one
      was, it reports fewer events than there were. */
  lemma {:induction false} WindowExactIff(buckets: seq<Bucket>, log: seq<Outcome>, at: nat)
    requires Holds(buckets, log) && NonZero(log)
    ensures Sum(buckets, BUCKETS, at) == Recorded(log, at) <==> Intact(log, at)
    ensures !Intact(log, at) ==> Sum(buckets, BUCKETS, at).Weight() < Recorded(log, at).Weight()
  {
    SumExactIff(buckets, log, BUCKETS, at);
    AllSlots(log, at);
    assert Intact(log, at) <==> IntactFirst(log, BUCKETS, at);
  }

  /** Outcomes are recorded less than a ring's length out of order. */
  predicate NearlyInOrder(log: seq<Outcome>) {
    forall i, j :: 0 <= i < j < |log| ==> log[j].sec + BUCKETS > log[i].sec
  }

  predicate NoneFarAhead(log: seq<Outcome>, at: nat) {
    forall i :: 0 <= i < |log| ==> log[i].sec <= at + BUCKETS - WINDOW_SECS
  }

  /** Outcomes less than eight seconds out of order, none more than three seconds past the
      sample, leave the window intact. */
  lemma {:induction false} OrderlyIsIntact(log: seq<Outcome>, at: nat)
    requires NearlyInOrder(log) && NoneFarAhead(log, at)
    ensures Intact(log, at)
  {
    forall slot: nat, i, j | slot < BUCKETS && 0 <= i < j < |log| && InSlot(log[i], slot, at)
      && SlotOf(log[j].sec) == slot
      ensures log[j].sec == log[i].sec
    {
      if log[j].sec < log[i].sec {
        SameSlot(log[j].sec, log[i].sec);
      } else if log[i].sec < log[j].sec {
        SameSlot(log[i].sec, log[j].sec);
      }
    }
  }

  /** Neither of the two can be relaxed by a second: an outcome four seconds past the sample
      hides one inside the window, and so does one recorded eight seconds out of order. */
  lemma {:induction false} FarAheadHides(t: Tally)
    ensures var log := [Outcome(100, t), Outcome(108, t)];
            NearlyInOrder(log) && !NoneFarAhead(log, 104) && NoneFarAhead(log, 105) && !Intact(log, 104)
  {
    var log := [Outcome(100, t), Outcome(108, t)];
    assert log[1].sec == 108 && InSlot(log[0], 4, 104) && SlotOf(log[1].sec) == 4;
    assert !IntactIn(log, 4, 104);
  }

  lemma {:induction false} FarBehindHides(t: Tally)
    ensures var log := [Outcome(108, t), Outcome(100, t)];
            !NearlyInOrder(log) && log[1].sec + BUCKETS == log[0].sec && NoneFarAhead(log, 108) && !Intact(log, 108)
  {
    var log := [Outcome(108, t), Outcome(100, t)];
    assert !(log[1].sec + BUCKETS > log[0].sec);
    assert InSlot(log[0], 4, 108) && SlotOf(log[1].sec) == 4;
    assert !IntactIn(log, 4, 108);
  }

  // ---------------------------------------------------------------- the flag

  datatype Policy = Policy(enterSecs: int, enterRPS: int, ttl: nat, force: string)

  /** The flag, when it lapses, and how many hot samples came in a row. */
  datatype Flag = Flag(under: bool, until: int, run: nat)

  const IDLE := Flag(false, 0, 0)

  predicate Hot(full: bool, t: Tally, p: Policy) {
    full || t.r503 + t.rGate > p.enterRPS * WINDOW_SECS
  }

  /** One sample in automatic mode. */
  function Sampled(f: Flag, hot: bool, now: int, p: Policy): Flag {
    var run := if hot then f.run + 1 else 0;
    var entered := !f.under && run >= p.enterSecs;
    if !f.under && !entered then f.(run := run)
    else if hot then Flag(true, now + p.ttl, run)
    else
      var until := if entered then now + p.ttl else f.until;
      if now > until then Flag(false, until, 0) else Flag(true, until, run)
  }

  /** Forcing on pins the flag; forcing off drops it, but only while it is up. */
  function Ticked(f: Flag, hot: bool, now: int, p: Policy): Flag {
    if f.under && p.force == "off" then Flag(false, f.until, 0)
    else if p.force == "on" then Flag(true, now + p.ttl, 0)
    else Sampled(f, hot, now, p)
  }

  datatype Sample = Sample(hot: bool, now: int)

  function Watched(samples: seq<Sample>, p: Policy): Flag {
    if samples == [] then IDLE
    else
      var s := samples[|samples| - 1];
      Ticked(Watched(samples[..|samples| - 1], p), s.hot, s.now, p)
  }

  /** How many hot samples end the sequence. */
  function HotRun(samples: seq<Sample>): (r: nat)
    ensures r <= |samples| && forall i :: |samples| - r <= i < |samples| ==> samples[i].hot
    ensures r < |samples| ==> !samples[|samples| - r - 1].hot
  {
    if samples == [] || !samples[|samples| - 1].hot then 0 else HotRun(samples[..|samples| - 1]) + 1
  }

  /** The time of the last hot sample. */
  function LastHot(samples: seq<Sample>): int {
    if samples == [] then 0
    else if samples[|samples| - 1].hot then samples[|samples| - 1].now
    else LastHot(samples[..|samples| - 1])
  }

  predicate Automatic(p: Policy) {
    p.force != "on" && p.force != "off" && p.enterSecs >= 1
  }

  lemma {:induction false} FlagMeaning(samples: seq<Sample>, p: Policy)
    requires Automatic(p)
    ensures var f := Watched(samples, p);
            f.run == HotRun(samples) && (f.under ==> f.until == LastHot(samples) + p.ttl)
  {
    if samples != [] {
      FlagMeaning(samples[..|samples| - 1], p);
    }
  }

  /** In automatic mode the flag rises exactly when it is down and `enterSecs` hot samples end
      the sequence, and falls exactly at a cool sample later than the last hot one plus TTL. */
  lemma {:induction false} RisesAndFalls(samples: seq<Sample>, s: Sample, p: Policy)
    requires Automatic(p)
    ensures var before, after, all := Watched(samples, p), Watched(samples + [s], p), samples + [s];
            && (!before.under && after.under <==> !before.under && HotRun(all) >= p.enterSecs)
            && (before.under && !after.under <==> before.under && !s.hot && s.now > LastHot(samples) + p.ttl)
  {
    FlagMeaning(samples, p);
    FlagMeaning(samples + [s], p);
    assert (samples + [s])[..|samples|] == samples;
  }

  // ---------------------------------------------------------------- forced off

  /** Forcing off drops the flag only while it is up: the entry rule runs whenever it is
      down, and raises it for one sample. */
  lemma ForcedOffSample(f: Flag, s: Sample, p: Policy)
    requires p.force == "off"
    ensures var run, f' := if s.hot then f.run + 1 else 0, Ticked(f, s.hot, s.now, p);
            && (f'.under <==> !f.under && run >= p.enterSecs)
            && f'.run == (if f.under then 0 else run)
            && (f'.under ==> f'.until == s.now + p.ttl)
  {
  }

  lemma CountOn(n: nat, m: nat)
    requires m >= 2
    ensures (n + 1) % m == if n % m == m - 1 then 0 else n % m + 1
  {
    var q, r := n / m, n % m;
    assert n == q * m + r;
    if r == m - 1 {
      assert n + 1 == (q + 1) * m;
      Remainder(n + 1, m, q + 1, 0);
    } else {
      Remainder(n + 1, m, q, r + 1);
    }
  }

  lemma AtLeast(k: nat, m: nat)
    requires k >= 1
    ensures k * m >= m
  {
    assert (k - 1) * m >= 0;
    assert k * m == (k - 1) * m + m;
  }

  lemma Apart(a: nat, b: nat, m: nat)
    requires a > b
    ensures a * m >= b * m + m
  {
    AtLeast(a - b, m);
    assert a * m == (a - b) * m + b * m;
  }

  lemma Remainder(n: nat, m: nat, q: nat, r: nat)
    requires r < m && n == q * m + r
    ensures n % m == r
  {
    var q', r' := n / m, n % m;
    assert n == q' * m + r';
    if q > q' {
      Apart(q, q', m);
    } else if q < q' {
      Apart(q', q, m);
    }
  }

  /** How far a run of hot samples has gone through turns of E + 1. */
  function Turn(run: nat, e: nat): (r: nat)
    ensures r <= e
  {
    run % (e + 1)
  }

  /** The turn one sample later. */
  function NextTurn(turn: nat, hot: bool, e: nat): nat {
    if !hot || turn == e then 0 else turn + 1
  }

  lemma TurnOfRun(front: seq<Sample>, s: Sample, e: nat)
    requires e >= 1
    ensures Turn(HotRun(front + [s]), e) == NextTurn(Turn(HotRun(front), e), s.hot, e)
  {
    assert (front + [s])[..|front|] == front;
    if s.hot {
      CountOn(HotRun(front), e + 1);
    } else {
      Remainder(0, e + 1, 0, 0);
    }
  }

  /** The flag and its run counter follow the turn. */
  lemma TurnGoesOn(f: Flag, s: Sample, p: Policy, turn: nat)
    requires p.force == "off" && p.enterSecs >= 1 && turn <= p.enterSecs
    requires (f.under <==> turn == p.enterSecs) && f.run == turn
    ensures var f', turn' := Ticked(f, s.hot, s.now, p), NextTurn(turn, s.hot, p.enterSecs);
            (f'.under <==> turn' == p.enterSecs) && f'.run == turn'
  {
    ForcedOffSample(f, s, p);
  }

  /** Forced off with an entry rule of E >= 1 seconds, the flag is up exactly at the E-th hot
      sample in a row, and then at every further E + 1: up for one sample each time. */
  lemma {:induction false} ForcedOffUpIff(samples: seq<Sample>, p: Policy)
    requires p.force == "off" && p.enterSecs >= 1
    ensures var f, turn := Watched(samples, p), Turn(HotRun(samples), p.enterSecs);
            (f.under <==> turn == p.enterSecs) && f.run == turn
  {
    if samples != [] {
      var front, s := samples[..|samples| - 1], samples[|samples| - 1];
      assert samples == front + [s];
      ForcedOffUpIff(front, p);
      TurnGoesOn(Watched(front, p), s, p, Turn(HotRun(front), p.enterSecs));
      TurnOfRun(front, s, p.enterSecs);
    }
  }

  /** With an entry rule of no seconds at all, it is up at every other sample. */
  lemma {:induction false} ForcedOffAlternates(samples: seq<Sample>, p: Policy)
    requires p.force == "off" && p.enterSecs <= 0
    ensures Watched(samples, p).under <==> |samples| % 2 == 1
  {
    if samples != [] {
      var front, s := samples[..|samples| - 1], samples[|samples| - 1];
      ForcedOffAlternates(front, p);
      ForcedOffSample(Watched(front, p), s, p);
    }
  }

  predicate NeverUp(samples: seq<Sample>, p: Policy) {
    forall k :: 0 <= k <= |samples| ==> !Watched(samples[..k], p).under
  }

  /** A run of hot samples grows one by one. */
  lemma {:induction false} RunPasses(samples: seq<Sample>, n: nat)
    requires n <= HotRun(samples)
    ensures HotRun(samples[..|samples| - (HotRun(samples) - n)]) == n
  {
    if n == HotRun(samples) {
      assert samples[..|samples|] == samples;
    } else {
      var front := samples[..|samples| - 1];
      RunPasses(front, n);
      var k := |samples| - (HotRun(samples) - n);
      assert front[..k] == samples[..k];
    }
  }

  lemma ShortRunStaysDown(samples: seq<Sample>, p: Policy)
    requires p.force == "off" && HotRun(samples) < p.enterSecs
    ensures !Watched(samples, p).under
  {
    ForcedOffUpIff(samples, p);
    Remainder(HotRun(samples), p.enterSecs + 1, 0, HotRun(samples));
  }

  lemma LongRunWasUp(samples: seq<Sample>, p: Policy) returns (j: nat)
    requires p.force == "off" && 1 <= p.enterSecs <= HotRun(samples)
    ensures j <= |samples| && Watched(samples[..j], p).under
  {
    RunPasses(samples, p.enterSecs);
    j := |samples| - (HotRun(samples) - p.enterSecs);
    ForcedOffUpIff(samples[..j], p);
    Remainder(p.enterSecs, p.enterSecs + 1, 0, p.enterSecs);
  }

  /** Forced off keeps its word, over a whole sequence, exactly when no run of hot samples in
      it is as long as the entry rule. */
  lemma {:induction false} ForcedOffKeepsIff(samples: seq<Sample>, p: Policy)
    requires p.force == "off" && samples != []
    ensures NeverUp(samples, p) <==> forall k :: 0 <= k <= |samples| ==> HotRun(samples[..k]) < p.enterSecs
  {
    if p.enterSecs <= 0 {
      assert HotRun(samples[..0]) == 0;
      ForcedOffAlternates(samples[..1], p);
    } else {
      forall k | 0 <= k <= |samples| && HotRun(samples[..k]) < p.enterSecs ensures !Watched(samples[..k], p).under {
        ShortRunStaysDown(samples[..k], p);
      }
      forall k | 0 <= k <= |samples| && HotRun(samples[..k]) >= p.enterSecs ensures !NeverUp(samples, p) {
        var j := LongRunWasUp(samples[..k], p);
        assert samples[..k][..j] == samples[..j];
      }
    }
  }

  /** What a caller is told at a time: the flag is up and has not lapsed. */
  predicate SeenUp(f: Flag, at: int) {
    f.under && at < f.until
  }

  /** Nobody who asks at or after any sample is told so. */
  ghost predicate NeverSeen(samples: seq<Sample>, p: Policy) {
    forall k, at :: 0 < k <= |samples| && samples[k - 1].now <= at ==> !SeenUp(Watched(samples[..k], p), at)
  }

  /** Forced off, a raised flag lapses one TTL after the sample that raised it. */
  lemma RaisedUntil(samples: seq<Sample>, p: Policy, k: nat)
    requires p.force == "off" && 0 < k <= |samples|
    ensures Watched(samples[..k], p).under ==> Watched(samples[..k], p).until == samples[k - 1].now + p.ttl
  {
    assert samples[..k][..k - 1] == samples[..k - 1];
    ForcedOffSample(Watched(samples[..k - 1], p), samples[k - 1], p);
  }

  /** Forced off, callers are never told the flag is up exactly when no run of hot samples is
      as long as the entry rule, or when a raised flag has no time to live at all. */
  lemma {:induction false} ForcedOffSeenIff(samples: seq<Sample>, p: Policy)
    requires p.force == "off" && samples != []
    ensures NeverSeen(samples, p) <==>
              p.ttl == 0 || forall k :: 0 <= k <= |samples| ==> HotRun(samples[..k]) < p.enterSecs
  {
    ForcedOffKeepsIff(samples, p);
    forall k | 0 < k <= |samples|
      ensures (forall at :: samples[k - 1].now <= at ==> !SeenUp(Watched(samples[..k], p), at))
         <==> p.ttl == 0 || !Watched(samples[..k], p).under
    {
      RaisedUntil(samples, p, k);
      if p.ttl > 0 && Watched(samples[..k], p).under {
        assert SeenUp(Watched(samples[..k], p), samples[k - 1].now);
      }
    }
    assert samples[..0] == [] && Watched([], p) == IDLE;
    if p.ttl > 0 && NeverSeen(samples, p) {
      forall k | 0 <= k <= |samples| ensures !Watched(samples[..k], p).under {
        if k > 0 {
          assert forall at :: samples[k - 1].now <= at ==> !SeenUp(Watched(samples[..k], p), at);
        }
      }
    }
  }

  // ---------------------------------------------------------------- the tracker

  class AttackState {
    var under: bool
    var until: int
    var entered: int
    var run: nat
    var buckets: array<Bucket>
    var seen: map<string, nat>

    ghost var log: seq<Outcome>

    ghost predicate Valid()
      reads this, buckets
    {
      Holds(buckets[..], log) && NonZero(log)
    }

    ghost function FlagView(): Flag
      reads this
    {
      Flag(under, until, run)
    }

    constructor ()
      ensures Valid() && fresh(buckets) && log == [] && FlagView() == IDLE
    {
      under, until, entered, run, seen, log := false, 0, 0, 0, map[], [];
      buckets := new Bucket[BUCKETS](_ => Bucket(0, Nothing()));
    }

    /** Adds one outcome to its second's slot, clearing a slot another second left behind. */
    method Record(sec: nat, tally: Tally)
      requires Valid() && tally.Weight() > 0
      modifies this`log, buckets
      ensures Valid() && log == old(log) + [Outcome(sec, tally)]
    {
      var slot := SlotOf(sec);
      if buckets[slot].sec != sec {
        buckets[slot] := Bucket(sec, Nothing());
      }
      buckets[slot] := Bucket(sec, buckets[slot].tally.Plus(tally));
      log := log + [Outcome(sec, tally)];
      assert log[..|log| - 1] == old(log);
    }

    /** One handshake: an address not seen within the TTL counts as new, and is remembered
        while there is room. */
    method NoteAttempt(ip: string, sec: nat)
      requires Valid()
      modifies this`log, this`seen, buckets
      ensures Valid()
      ensures var isNew := ip !in old(seen) || sec - old(seen)[ip] > 300;
              && log == old(log) + [Outcome(sec, Tally(1, 0, 0, 0, if isNew then 1 else 0))]
              && seen == if isNew && |old(seen)| < 20000 then old(seen)[ip := sec] else old(seen)
    {
      var isNew := ip !in seen || sec - seen[ip] > SEEN_TTL;
      Record(sec, Tally(1, 0, 0, 0, if isNew then 1 else 0));
      if isNew && |seen| < SEEN_CAP {
        seen := seen[ip := sec];
      }
    }

    /** One rejection, by its kind. */
    method NoteReject(which: int, sec: nat)
      requires Valid()
      modifies this`log, buckets
      ensures Valid()
      ensures log == old(log) + [Outcome(sec, Tally(0, if which == 0 then 1 else 0, if which == 1 then 1 else 0,
                                                    if which != 0 && which != 1 then 1 else 0, 0))]
    {
      Record(sec, Tally(0, if which == 0 then 1 else 0, if which == 1 then 1 else 0,
                        if which != 0 && which != 1 then 1 else 0, 0));
    }

    /** Sums the slots whose second lies in the window. */
    method SumWindow(sec: nat) returns (tally: Tally)
      requires Valid()
      ensures tally == Sum(buckets[..], BUCKETS, sec)
    {
      tally := Nothing();
      for i := 0 to BUCKETS
        invariant tally == Sum(buckets[..], i, sec)
      {
        var b := buckets[i];
        if b.sec <= sec - WINDOW_SECS || b.sec > sec {
          continue;
        }
        tally := tally.Plus(b.tally);
      }
    }

    /** Sums the window, then runs the flag's rules; reports the flag with its expiry applied. */
    method Sample(full: bool, now: nat, p: Policy) returns (tally: Tally, up: bool)
      requires Valid()
      modifies this`under, this`until, this`entered, this`run
      ensures Valid()
      ensures tally == Recorded(log, now / SECOND) <==> Intact(log, now / SECOND)
      ensures FlagView() == Ticked(old(FlagView()), full || tally.r503 + tally.rGate > p.enterRPS * 5, now, p)
      ensures p.force == "on" ==> under && until == now + p.ttl && run == 0 && (up <==> p.ttl > 0)
      ensures up == SeenUp(FlagView(), now)
    {
      var sec := now / SECOND;
      tally := SumWindow(sec);
      WindowExactIff(buckets[..], log, sec);
      var attackSig := full || tally.r503 + tally.rGate > p.enterRPS * WINDOW_SECS;
      Tick(attackSig, now, p);
      up := under && now < until;
    }

    method Tick(attackSig: bool, now: int, p: Policy)
      modifies this`under, this`until, this`entered, this`run
      ensures FlagView() == Ticked(old(FlagView()), attackSig, now, p)
    {
      if under && p.force == "off" {
        under, run := false, 0;
      } else if p.force == "on" {
        if !under {
          under, entered := true, now;
        }
        until, run := now + p.ttl, 0;
      } else {
        if attackSig {
          run := run + 1;
        } else {
          run := 0;
        }
        if !under && run >= p.enterSecs {
          under, entered, until := true, now, now + p.ttl;
        }
        if under {
          if attackSig {
            until := now + p.ttl;
          } else if now > until {
            under, run := false, 0;
          }
        }
      }
    }
  }
}
