/** When the sequence numbers one client receives rise: chained lines and notices share one
    counter but not one fan-out order, so it takes fan-outs that do not overlap. */
module ClientNumbers {
  import opened Basics
  import opened Broadcast

  /** The thread has a line out that this client has not been offered yet, or may still be. */
  predicate MayOwe(pc: Pc, c: Client) {
    pc.Stored? || (pc.Fanning? && c in pc.todo)
  }

  predicate NobodyOwes(s: State, c: Client) {
    forall t :: t in s.pcs ==> !MayOwe(s.pcs[t], c)
  }

  predicate OneOwes(s: State, c: Client) {
    forall t, u :: t in s.pcs && u in s.pcs && MayOwe(s.pcs[t], c) && MayOwe(s.pcs[u], c) ==> t == u
  }

  predicate AllOlder(lines: seq<Line>, seqno: nat) {
    forall i :: 0 <= i < |lines| ==> lines[i].seqno < seqno
  }

  /** What the client was sent rises, at most one line is still owed to it, and that line is
      newer than all it was sent. */
  predicate Safe(s: State, c: Client) {
    && OneOwes(s, c)
    && (c in s.frames ==>
          && SeqsRise(s.frames[c])
          && forall t :: t in s.pcs && MayOwe(s.pcs[t], c) ==> AllOlder(s.frames[c], s.pcs[t].line.seqno))
  }

  predicate IsStore(step: Step) {
    step.LinkStore? || step.NoticeStore?
  }

  /** No line is stored while another is still owed to the client. */
  predicate OverlapFree(s: State, steps: seq<Step>, c: Client)
    requires Possible(s, steps)
    decreases |steps|
  {
    steps == [] ||
    (OverlapFree(s, steps[..|steps| - 1], c)
     && (IsStore(steps[|steps| - 1]) ==> NobodyOwes(After(s, steps[..|steps| - 1]), c)))
  }

  /** Nothing sent to anyone is numbered above the counter. */
  predicate Counted(s: State) {
    forall c :: c in s.frames ==> AllOlder(s.frames[c], s.store.seqno + 1)
  }

  predicate OwedCounted(s: State) {
    forall t :: t in s.pcs && (s.pcs[t].Stored? || s.pcs[t].Fanning?) ==> s.pcs[t].line.seqno <= s.store.seqno
  }

  lemma StepCounts(s: State, step: Step)
    requires Counted(s) && OwedCounted(s) && Enabled(s, step)
    ensures Counted(Apply(s, step)) && OwedCounted(Apply(s, step))
  {
  }

  lemma {:induction false} RunCounts(s: State, steps: seq<Step>)
    requires Counted(s) && OwedCounted(s) && Possible(s, steps)
    ensures Counted(After(s, steps)) && OwedCounted(After(s, steps))
  {
    if steps != [] {
      RunCounts(s, steps[..|steps| - 1]);
      StepCounts(After(s, steps[..|steps| - 1]), steps[|steps| - 1]);
    }
  }

  lemma StepSafe(s: State, step: Step, c: Client)
    requires Safe(s, c) && Counted(s) && Enabled(s, step) && (IsStore(step) ==> NobodyOwes(s, c))
    ensures Safe(Apply(s, step), c)
  {
  }

  /** Fan-outs that do not overlap keep what a client receives in number order. */
  lemma {:induction false} NoOverlapKeepsSafe(s: State, steps: seq<Step>, c: Client)
    requires Safe(s, c) && Counted(s) && OwedCounted(s) && Possible(s, steps) && OverlapFree(s, steps, c)
    ensures Safe(After(s, steps), c)
  {
    if steps != [] {
      var front, step := steps[..|steps| - 1], steps[|steps| - 1];
      NoOverlapKeepsSafe(s, front, c);
      RunCounts(s, front);
      StepSafe(After(s, front), step, c);
    }
  }

  predicate NoStores(steps: seq<Step>) {
    forall i :: 0 <= i < |steps| ==> !IsStore(steps[i])
  }

  lemma {:induction false} NoStoresNoOverlap(s: State, steps: seq<Step>, c: Client)
    requires Possible(s, steps) && NoStores(steps)
    ensures OverlapFree(s, steps, c)
  {
    if steps != [] {
      NoStoresNoOverlap(s, steps[..|steps| - 1], c);
    }
  }

  /** The line thread t has out has reached the client; the other threads stand where they stood. */
  predicate OwedDelivered(h: State, t: Thread, c: Client, h': State)
    requires t in h.pcs && MayOwe(h.pcs[t], c) && c in h.frames
  {
    && h'.frames == h.frames[c := h.frames[c] + [h.pcs[t].line]]
    && forall u :: u in h.pcs && u != t ==> u in h'.pcs && h'.pcs[u] == h.pcs[u]
  }

  lemma DeliverFanned(h: State, t: Thread, c: Client)
    requires t in h.pcs && h.pcs[t].Fanning? && c in h.pcs[t].todo && c in h.frames
    ensures Enabled(h, Deliver(t, c, true)) && OwedDelivered(h, t, c, Apply(h, Deliver(t, c, true)))
  {
  }

  lemma FanToOne(h: State, t: Thread, c: Client)
    requires t in h.pcs && h.pcs[t].Stored? && c in h.frames
    ensures Enabled(h, StartFan(t, {c}))
    ensures var h' := Apply(h, StartFan(t, {c}));
            && h'.frames == h.frames && h'.pcs == h.pcs[t := Fanning(h.pcs[t].line, {c})]
  {
    assert {c} <= h.frames.Keys;
  }

  lemma DeliverStored(h: State, t: Thread, c: Client, mid: State, h': State)
    requires t in h.pcs && h.pcs[t].Stored? && c in h.frames && mid.frames == h.frames
    requires mid.pcs == h.pcs[t := Fanning(h.pcs[t].line, {c})] && OwedDelivered(mid, t, c, h')
    ensures OwedDelivered(h, t, c, h')
  {
  }

  /** An owed line can be delivered next, without anything being stored. */
  lemma DeliverOwed(s: State, before: seq<Step>, t: Thread, c: Client) returns (steps: seq<Step>)
    requires Possible(s, before) && NoStores(before)
    requires var h := After(s, before); t in h.pcs && MayOwe(h.pcs[t], c) && c in h.frames
    ensures Possible(s, steps) && NoStores(steps)
    ensures OwedDelivered(After(s, before), t, c, After(s, steps))
  {
    steps := before;
    var h := After(s, before);
    if h.pcs[t].Stored? {
      FanToOne(h, t, c);
      Extends(s, steps, StartFan(t, {c}));
      steps := steps + [StartFan(t, {c})];
    }
    var mid := After(s, steps);
    DeliverFanned(mid, t, c);
    Extends(s, steps, Deliver(t, c, true));
    steps := steps + [Deliver(t, c, true)];
    if h.pcs[t].Stored? {
      DeliverStored(h, t, c, mid, After(s, steps));
    }
  }

  lemma Falls(lines: seq<Line>, more: Line, i: nat)
    requires i < |lines| && lines[i].seqno >= more.seqno
    ensures !SeqsRise(lines + [more])
  {
    var all := lines + [more];
    assert all[i] == lines[i] && all[|lines|] == more;
  }

  /** From any state that is not safe, the client's numbers fall in some continuation. */
  lemma {:induction false} UnsafeCanFall(s: State, c: Client) returns (steps: seq<Step>)
    requires c in s.frames && !Safe(s, c)
    ensures Possible(s, steps) && NoStores(steps)
    ensures c in After(s, steps).frames && !SeqsRise(After(s, steps).frames[c])
  {
    steps := [];
    var lines := s.frames[c];
    if !SeqsRise(lines) {
    } else if OneOwes(s, c) {
      var t :| t in s.pcs && MayOwe(s.pcs[t], c) && !AllOlder(lines, s.pcs[t].line.seqno);
      var i :| 0 <= i < |lines| && lines[i].seqno >= s.pcs[t].line.seqno;
      steps := DeliverOwed(s, [], t, c);
      Falls(lines, s.pcs[t].line, i);
    } else {
      var t, u := TwoOwing(s, c);
      var first := DeliverOwed(s, [], u, c);
      steps := DeliverOwed(s, first, t, c);
      Falls(lines + [s.pcs[u].line], s.pcs[t].line, |lines|);
    }
  }

  /** Two threads owing a line, the older line first. */
  lemma TwoOwing(s: State, c: Client) returns (t: Thread, u: Thread)
    requires !OneOwes(s, c)
    ensures t != u && t in s.pcs && u in s.pcs && MayOwe(s.pcs[t], c) && MayOwe(s.pcs[u], c)
    ensures s.pcs[t].line.seqno <= s.pcs[u].line.seqno
  {
    t, u :| t in s.pcs && u in s.pcs && t != u && MayOwe(s.pcs[t], c) && MayOwe(s.pcs[u], c);
    if s.pcs[t].line.seqno > s.pcs[u].line.seqno {
      t, u := u, t;
    }
  }

  /** Every continuation in which no line is stored while another is owed to the client
      leaves its numbers rising. */
  ghost predicate OrderKept(s: State, c: Client) {
    forall steps :: Possible(s, steps) && OverlapFree(s, steps, c) && c in After(s, steps).frames ==>
      SeqsRise(After(s, steps).frames[c])
  }

  /** In every reachable state: a registered client's numbers rise in every continuation
      without overlap if and only if what it was sent rises, at most one line is owed to it,
      and that line is newer than all it was sent. */
  lemma {:induction false} NumbersRiseIff(s: State, steps: seq<Step>, c: Client)
    requires Start(s) && Possible(s, steps) && c in After(s, steps).frames
    ensures OrderKept(After(s, steps), c) <==> Safe(After(s, steps), c)
  {
    var h := After(s, steps);
    RunCounts(s, steps);
    if Safe(h, c) {
      forall more | Possible(h, more) && OverlapFree(h, more, c) && c in After(h, more).frames
        ensures SeqsRise(After(h, more).frames[c])
      {
        NoOverlapKeepsSafe(h, more, c);
      }
    } else {
      var more := UnsafeCanFall(h, c);
      NoStoresNoOverlap(h, more, c);
    }
  }

  /** Every run from the start without overlap keeps the client's numbers rising. */
  lemma {:induction false} NoOverlapNumbersRise(s: State, steps: seq<Step>, c: Client)
    requires Start(s) && Possible(s, steps) && OverlapFree(s, steps, c)
    ensures Safe(After(s, steps), c)
    ensures c in After(s, steps).frames ==> SeqsRise(After(s, steps).frames[c])
  {
    NoOverlapKeepsSafe(s, steps, c);
  }

  /** Every overlap, wherever it happens, can be made to show: store a line while another is
      owed to a registered client, and some continuation delivers them the wrong way round. */
  lemma {:induction false} OverlapCanFall(s: State, step: Step, c: Client) returns (steps: seq<Step>)
    requires Enabled(s, step) && IsStore(step) && !NobodyOwes(s, c) && c in s.frames
    ensures Possible(Apply(s, step), steps) && NoStores(steps)
    ensures var end := After(Apply(s, step), steps);
            c in end.frames && !SeqsRise(end.frames[c])
  {
    OverlapIsUnsafe(s, step, c);
    steps := UnsafeCanFall(Apply(s, step), c);
  }

  /** The client's order was safe after every step so far. */
  predicate SafeThroughout(s: State, steps: seq<Step>, c: Client)
    requires Possible(s, steps)
    decreases |steps|
  {
    Safe(After(s, steps), c) && (steps == [] || SafeThroughout(s, steps[..|steps| - 1], c))
  }

  lemma OverlapIsUnsafe(s: State, step: Step, c: Client)
    requires Enabled(s, step) && IsStore(step) && !NobodyOwes(s, c)
    ensures !OneOwes(Apply(s, step), c)
  {
    var u :| u in s.pcs && MayOwe(s.pcs[u], c);
    var h := Apply(s, step);
    assert u in h.pcs && MayOwe(h.pcs[u], c);
    assert step.t in h.pcs && MayOwe(h.pcs[step.t], c);
  }

  /** A run is safe for the client after every step if and only if no line is stored in it
      while another is still owed to the client. */
  lemma {:induction false} SafeIffNoOverlap(s: State, steps: seq<Step>, c: Client)
    requires Start(s) && Possible(s, steps)
    ensures SafeThroughout(s, steps, c) <==> OverlapFree(s, steps, c)
  {
    if steps != [] {
      var front, step := steps[..|steps| - 1], steps[|steps| - 1];
      SafeIffNoOverlap(s, front, c);
      if OverlapFree(s, steps, c) {
        NoOverlapKeepsSafe(s, steps, c);
      } else if OverlapFree(s, front, c) {
        OverlapIsUnsafe(After(s, front), step, c);
      }
    }
  }
}
