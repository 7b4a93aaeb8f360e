/** Concurrent broadcasting at the level of its locks. One lock orders chained broadcasts,
    another makes each store step atomic, and a read lock covers a fan-out; notices take
    only the last two. Any interleaving keeps every order a reader relies on. */
module Broadcast {
  import opened Basics
  import opened ReplayBatch

  type Thread = nat
  type Client = nat

  /** One stored line: its sequence number, and its height when it is chained. */
  datatype Line = Line(seqno: nat, height: nat)

  predicate Chained(l: Line) {
    l.height != 0
  }

  /** Where a broadcasting thread stands. */
  datatype Pc =
    | Idle
    | Holding
    | Stored(line: Line)
    | Fanning(line: Line, todo: set<Client>)

  /** What the chain lock guards. `log` is everything stored, in store order; `taken` tells
      which of it the disk queue took. */
  datatype Store = Store(log: seq<Line>, ram: seq<Line>, disk: seq<Line>, taken: seq<bool>, seqno: nat, height: nat)

  /** `frames` is what was put into each registered client's queue. */
  datatype State = State(holder: Option<Thread>, pcs: map<Thread, Pc>, store: Store, frames: map<Client, seq<Line>>)

  /** A step some thread may take next; the numbers say how many lines RAM evicts and whether
      the disk queue or a client's queue has room. */
  datatype Step =
    | Acquire(t: Thread)
    | LinkStore(t: Thread, evict: nat, queued: bool)
    | NoticeStore(t: Thread, evict: nat, queued: bool)
    | StartFan(t: Thread, receivers: set<Client>)
    | Deliver(t: Thread, c: Client, room: bool)
    | EndFan(t: Thread)
    | Register(c: Client)
    | Unregister(c: Client)

  function PcOf(s: State, t: Thread): Pc {
    if t in s.pcs then s.pcs[t] else Idle
  }

  /** No fan-out holds the read lock. */
  predicate NoReaders(s: State) {
    forall t :: t in s.pcs ==> !s.pcs[t].Fanning?
  }

  predicate Enabled(s: State, step: Step) {
    match step
    case Acquire(t) => PcOf(s, t).Idle? && s.holder.None?
    case LinkStore(t, _, _) => PcOf(s, t).Holding?
    case NoticeStore(t, _, _) => PcOf(s, t).Idle?
    case StartFan(t, receivers) => PcOf(s, t).Stored? && receivers <= s.frames.Keys
    case Deliver(t, c, _) => PcOf(s, t).Fanning? && c in PcOf(s, t).todo
    case EndFan(t) => PcOf(s, t).Fanning? && PcOf(s, t).todo == {}
    case Register(c) => NoReaders(s) && c !in s.frames
    case Unregister(c) => NoReaders(s) && c in s.frames
  }

  /** What the store's critical section does: append, evict, enqueue. */
  function Put(st: Store, line: Line, evict: nat, queued: bool): Store {
    var all := st.ram + [line];
    Store(st.log + [line],
          if evict <= |all| then all[evict..] else [],
          if queued then st.disk + [line] else st.disk,
          st.taken + [queued],
          line.seqno,
          if Chained(line) then line.height else st.height)
  }

  /** A thread's next line: the next number, and the next height or none. */
  function Stamp(st: Store, chained: bool): Line {
    Line(st.seqno + 1, if chained then st.height + 1 else 0)
  }

  function PutBy(s: State, t: Thread, chained: bool, evict: nat, queued: bool): State {
    var line := Stamp(s.store, chained);
    s.(pcs := s.pcs[t := Stored(line)], store := Put(s.store, line, evict, queued))
  }

  function Apply(s: State, step: Step): State
    requires Enabled(s, step)
  {
    match step
    case Acquire(t) => s.(holder := Some(t), pcs := s.pcs[t := Holding])
    case LinkStore(t, evict, queued) => PutBy(s, t, true, evict, queued)
    case NoticeStore(t, evict, queued) => PutBy(s, t, false, evict, queued)
    case StartFan(t, receivers) => s.(pcs := s.pcs[t := Fanning(PcOf(s, t).line, receivers)])
    case Deliver(t, c, room) =>
      var pc := PcOf(s, t);
      s.(pcs := s.pcs[t := pc.(todo := pc.todo - {c})],
         frames := if room && c in s.frames then s.frames[c := s.frames[c] + [pc.line]] else s.frames)
    case EndFan(t) => s.(pcs := s.pcs[t := Idle], holder := if s.holder == Some(t) then None else s.holder)
    case Register(c) => s.(frames := s.frames[c := []])
    case Unregister(c) => s.(frames := s.frames - {c})
  }

  // ---------------------------------------------------------------- what every state keeps

  predicate SeqsRise(lines: seq<Line>) {
    forall i, j :: 0 <= i < j < |lines| ==> lines[i].seqno < lines[j].seqno
  }

  predicate HeightsRise(lines: seq<Line>) {
    forall i, j :: 0 <= i < j < |lines| && Chained(lines[i]) && Chained(lines[j]) ==> lines[i].height < lines[j].height
  }

  /** The log is ordered, RAM is its tail, and the disk queue is the log without what was shed. */
  predicate StoreOrder(st: Store) {
    && SeqsRise(st.log) && HeightsRise(st.log)
    && (forall i :: 0 <= i < |st.log| ==> st.log[i].seqno <= st.seqno && st.log[i].height <= st.height)
    && IsTail(st.ram, st.log)
    && |st.taken| == |st.log| && st.disk == Kept(st.log, st.taken)
  }

  predicate IsTail(ram: seq<Line>, log: seq<Line>) {
    |ram| <= |log| && ram == log[|log| - |ram|..]
  }

  /** The line a thread is bringing out, if it is a chained one. */
  predicate InFlight(pc: Pc) {
    (pc.Stored? || pc.Fanning?) && Chained(pc.line)
  }

  /** Only the holder of the broadcast lock brings out a chained line: the newest one. */
  predicate LockDiscipline(s: State) {
    forall t :: t in s.pcs && (s.pcs[t].Holding? || InFlight(s.pcs[t])) ==>
      s.holder == Some(t) && (InFlight(s.pcs[t]) ==> s.pcs[t].line.height == s.store.height)
  }

  predicate AllBelow(lines: seq<Line>, height: nat) {
    forall i :: 0 <= i < |lines| && Chained(lines[i]) ==> lines[i].height < height
  }

  predicate AllUpTo(lines: seq<Line>, height: nat) {
    forall i :: 0 <= i < |lines| && Chained(lines[i]) ==> lines[i].height <= height
  }

  /** Does the thread still owe this client the line it brings out? */
  predicate Owes(pc: Pc, c: Client) {
    InFlight(pc) && (pc.Stored? || c in pc.todo)
  }

  /** Every client's chained frames rise, and stay below a line still owed to it. */
  predicate ClientOrder(s: State) {
    && (forall c :: c in s.frames ==> HeightsRise(s.frames[c]) && AllUpTo(s.frames[c], s.store.height))
    && (forall c, t :: c in s.frames && t in s.pcs && Owes(s.pcs[t], c) ==> AllBelow(s.frames[c], s.pcs[t].line.height))
  }

  predicate Inv(s: State) {
    StoreOrder(s.store) && LockDiscipline(s) && ClientOrder(s)
  }

  // ---------------------------------------------------------------- store order

  lemma PutKeepsLog(st: Store, chained: bool, evict: nat, queued: bool)
    requires StoreOrder(st)
    ensures var st' := Put(st, Stamp(st, chained), evict, queued);
            && SeqsRise(st'.log) && HeightsRise(st'.log)
            && (forall i :: 0 <= i < |st'.log| ==> st'.log[i].seqno <= st'.seqno && st'.log[i].height <= st'.height)
  {
  }

  lemma PutKeepsTail(ram: seq<Line>, log: seq<Line>, line: Line, evict: nat)
    requires IsTail(ram, log)
    ensures IsTail(if evict <= |ram + [line]| then (ram + [line])[evict..] else [], log + [line])
  {
  }

  lemma PutKeepsStoreOrder(st: Store, chained: bool, evict: nat, queued: bool)
    requires StoreOrder(st)
    ensures StoreOrder(Put(st, Stamp(st, chained), evict, queued))
  {
    var line := Stamp(st, chained);
    PutKeepsLog(st, chained, evict, queued);
    PutKeepsTail(st.ram, st.log, line, evict);
    KeptMore(st.log, st.taken, [line], queued);
    assert Flags(1, queued) == [queued];
  }

  lemma {:induction false} StepKeepsStoreOrder(s: State, step: Step)
    requires StoreOrder(s.store) && Enabled(s, step)
    ensures StoreOrder(Apply(s, step).store)
  {
    match step
    case LinkStore(t, evict, queued) => PutKeepsStoreOrder(s.store, true, evict, queued);
    case NoticeStore(t, evict, queued) => PutKeepsStoreOrder(s.store, false, evict, queued);
    case _ => assert Apply(s, step).store == s.store;
  }

  // ---------------------------------------------------------------- locks and clients

  lemma {:induction false} StepKeepsLocks(s: State, step: Step)
    requires LockDiscipline(s) && Enabled(s, step)
    ensures LockDiscipline(Apply(s, step))
  {
    match step
    case LinkStore(t, _, _) => assert t in s.pcs && s.pcs[t].Holding?;
    case _ =>
  }

  lemma {:induction false} StepKeepsClients(s: State, step: Step)
    requires LockDiscipline(s) && ClientOrder(s) && Enabled(s, step)
    ensures ClientOrder(Apply(s, step))
  {
    match step
    case LinkStore(t, _, _) => StoreKeepsClients(s, t, step);
    case NoticeStore(t, _, _) => StoreKeepsClients(s, t, step);
    case Deliver(t, c, _) => DeliverKeepsClients(s, t, c, step);
    case _ => QuietKeepsClients(s, step);
  }

  lemma StoreKeepsClients(s: State, t: Thread, step: Step)
    requires LockDiscipline(s) && ClientOrder(s) && Enabled(s, step)
    requires (step.LinkStore? || step.NoticeStore?) && step.t == t
    ensures ClientOrder(Apply(s, step))
  {
  }

  lemma DeliverKeepsClients(s: State, t: Thread, c: Client, step: Step)
    requires LockDiscipline(s) && ClientOrder(s) && Enabled(s, step)
    requires step.Deliver? && step.t == t && step.c == c
    ensures ClientOrder(Apply(s, step))
  {
  }

  lemma QuietKeepsClients(s: State, step: Step)
    requires ClientOrder(s) && Enabled(s, step)
    requires !step.LinkStore? && !step.NoticeStore? && !step.Deliver?
    ensures ClientOrder(Apply(s, step))
  {
  }

  // ---------------------------------------------------------------- every interleaving

  predicate Start(s: State) {
    && StoreOrder(s.store) && s.holder.None? && s.pcs == map[]
    && forall c :: c in s.frames ==> s.frames[c] == []
  }

  predicate Possible(s: State, steps: seq<Step>)
    decreases |steps|, 0
  {
    steps == [] || (Possible(s, steps[..|steps| - 1]) && Enabled(After(s, steps[..|steps| - 1]), steps[|steps| - 1]))
  }

  function After(s: State, steps: seq<Step>): State
    requires Possible(s, steps)
    decreases |steps|, 1
  {
    if steps == [] then s else Apply(After(s, steps[..|steps| - 1]), steps[|steps| - 1])
  }

  /** In every interleaving of broadcasts, notices and registrations the invariant holds. */
  lemma {:induction false} EveryInterleaving(s: State, steps: seq<Step>)
    requires Start(s) && Possible(s, steps)
    ensures Inv(After(s, steps))
  {
    if steps != [] {
      var front, step := steps[..|steps| - 1], steps[|steps| - 1];
      EveryInterleaving(s, front);
      var here := After(s, front);
      StepKeepsStoreOrder(here, step);
      StepKeepsLocks(here, step);
      StepKeepsClients(here, step);
    }
  }

  lemma {:induction false} KeptRises(lines: seq<Line>, mask: seq<bool>)
    requires |lines| == |mask| && SeqsRise(lines)
    ensures SeqsRise(Kept(lines, mask))
    ensures forall i :: 0 <= i < |Kept(lines, mask)| ==> Kept(lines, mask)[i] in lines
  {
    if lines != [] {
      var n := |lines| - 1;
      KeptRises(lines[..n], mask[..n]);
      forall i | 0 <= i < |Kept(lines[..n], mask[..n])| ensures Kept(lines[..n], mask[..n])[i].seqno < lines[n].seqno {
        var j :| 0 <= j < n && lines[..n][j] == Kept(lines[..n], mask[..n])[i];
      }
    }
  }

  /** What a reader relies on: RAM is the tail of one log and the disk queue that log without
      what was shed, so sequence numbers rise along both; and every client's live chained
      frames arrive in strictly increasing height. */
  lemma {:induction false} OrdersAgree(s: State, steps: seq<Step>)
    requires Start(s) && Possible(s, steps)
    ensures var st, frames := After(s, steps).store, After(s, steps).frames;
            && SeqsRise(st.ram) && SeqsRise(st.disk)
            && IsTail(st.ram, st.log) && |st.taken| == |st.log| && st.disk == Kept(st.log, st.taken)
            && forall c :: c in frames ==> HeightsRise(frames[c])
  {
    EveryInterleaving(s, steps);
    var st := After(s, steps).store;
    KeptRises(st.log, st.taken);
    TailRises(st.ram, st.log);
  }

  lemma TailRises(ram: seq<Line>, log: seq<Line>)
    requires IsTail(ram, log) && SeqsRise(log)
    ensures SeqsRise(ram)
  {
    forall i, j | 0 <= i < j < |ram| ensures ram[i].seqno < ram[j].seqno {
      var at := |log| - |ram|;
      assert ram[i] == log[at + i] && ram[j] == log[at + j];
    }
  }

  /** Notices are outside that promise: one stored first may be fanned out after a chained
      line stored later, so a client can see sequence numbers fall. */
  lemma {:induction false} NoticesMayBeOvertaken(s: State, a: Thread, b: Thread, c: Client) returns (steps: seq<Step>)
    requires Start(s) && c in s.frames && a != b
    ensures Possible(s, steps)
    ensures var frames := After(s, steps).frames;
            c in frames && |frames[c]| == 2 && frames[c][0].seqno == frames[c][1].seqno + 1
  {
    steps := StoreBoth(s, a, b);
    assert PcOf(After(s, steps), a).line.seqno == s.store.seqno + 1;
    steps := FanTo(s, steps, b, c);
    steps := FanTo(s, steps, a, c);
  }

  /** `a` stores a notice, then `b` a chained line; neither has fanned out yet. */
  lemma StoreBoth(s: State, a: Thread, b: Thread) returns (steps: seq<Step>)
    requires Start(s) && a != b
    ensures Possible(s, steps)
    ensures var h := After(s, steps);
            && h.frames == s.frames
            && PcOf(h, a) == Stored(Line(s.store.seqno + 1, 0))
            && PcOf(h, b) == Stored(Line(s.store.seqno + 2, s.store.height + 1))
  {
    Extends(s, [], NoticeStore(a, 0, true));
    steps := [] + [NoticeStore(a, 0, true)];
    Extends(s, steps, Acquire(b));
    steps := steps + [Acquire(b)];
    Extends(s, steps, LinkStore(b, 0, true));
    steps := steps + [LinkStore(b, 0, true)];
  }

  /** A stored line can be fanned out to a registered client at once. */
  lemma FanTo(s: State, steps: seq<Step>, t: Thread, c: Client) returns (more: seq<Step>)
    requires Possible(s, steps) && PcOf(After(s, steps), t).Stored? && c in After(s, steps).frames
    ensures Possible(s, more)
    ensures var h, h' := After(s, steps), After(s, more);
            && h'.frames == h.frames[c := h.frames[c] + [PcOf(h, t).line]]
            && forall u :: u != t ==> PcOf(h', u) == PcOf(h, u)
  {
    assert {c} <= After(s, steps).frames.Keys;
    Extends(s, steps, StartFan(t, {c}));
    more := steps + [StartFan(t, {c})];
    Extends(s, more, Deliver(t, c, true));
    more := more + [Deliver(t, c, true)];
  }

  lemma Extends(s: State, steps: seq<Step>, step: Step)
    requires Possible(s, steps) && Enabled(After(s, steps), step)
    ensures Possible(s, steps + [step]) && After(s, steps + [step]) == Apply(After(s, steps), step)
  {
    assert (steps + [step])[..|steps|] == steps;
  }
}
