/** Broadcasting in the program's own shape: one call links and stores a line, then offers it
    to every client's queue. Each call is shown to be a run of the lock-level state machine,
    so what holds of every interleaving holds of the queues it fills. */
module Hubs {
  import opened Basics
  import opened WireModel
  import opened HashChain
  import opened HistoryStores
  import ReplayBatch
  import opened ChainServices
  import B = Broadcast
  import N = ClientNumbers
  import O = BootOrder
  import opened Resume

  /** How a stored text appears in the state machine. */
  function LineOf(c: Codec, text: string): B.Line {
    match c.unmarshal(text)
    case Some(w) => B.Line(w.seqno, w.height)
    case None => B.Line(0, 0)
  }

  function LinesOf(c: Codec, texts: seq<string>): (r: seq<B.Line>)
    ensures |r| == |texts| && forall i :: 0 <= i < |texts| ==> r[i] == LineOf(c, texts[i])
  {
    seq(|texts|, i requires 0 <= i < |texts| => LineOf(c, texts[i]))
  }

  /** RAM and counters agree with the state machine's store. */
  predicate Mirrors(c: Codec, history: seq<string>, seqno: nat, height: nat, st: B.Store) {
    st.ram == LinesOf(c, history) && st.seqno == seqno && st.height == height
  }

  /** RAM and counters now match the store after this put, whose line the text is. */
  predicate PutInto(c: Codec, st: B.Store, chained: bool, evict: nat, queued: bool, data: string, history: seq<string>,
                    seqno: nat, height: nat)
  {
    var line := B.Stamp(st, chained);
    LineOf(c, data) == line && Mirrors(c, history, seqno, height, B.Put(st, line, evict, queued))
  }

  /** Keeping the longest tail that fits is evicting some number of lines from the front. */
  lemma StoringIsPut(c: Codec, st: B.Store, history: seq<string>, data: string, wire: Wire, kept: seq<string>, cap: nat,
                     queued: bool, seqno: nat, height: nat, chained: bool, height': nat) returns (evict: nat)
    requires c.Laws() && data == c.marshal(wire) && Mirrors(c, history, seqno, height, st)
    requires LongestTailWithin(history + [data], kept, cap)
    requires wire.seqno == seqno + 1 && wire.height == (if chained then height + 1 else 0)
    requires height' == if chained then height + 1 else height
    ensures PutInto(c, st, chained, evict, queued, data, kept, wire.seqno, height')
  {
    var all := history + [data];
    evict := |all| - |kept|;
    assert LinesOf(c, all) == st.ram + [LineOf(c, data)];
    assert LinesOf(c, kept) == LinesOf(c, all)[evict..];
  }

  /** `h` is reached from `s` by these steps, and no fan-out in them overlaps a store. */
  ghost predicate ReachedBy(s: B.State, steps: seq<B.Step>, h: B.State) {
    B.Possible(s, steps) && B.After(s, steps) == h && forall k: B.Client :: N.OverlapFree(s, steps, k)
  }

  /** A line is stored only while no thread has one out. */
  predicate InTurn(h: B.State, step: B.Step) {
    N.IsStore(step) ==> forall t :: t in h.pcs ==> !h.pcs[t].Stored? && !h.pcs[t].Fanning?
  }

  /** A step that may be taken here, in turn. */
  predicate MayTake(h: B.State, step: B.Step) {
    B.Enabled(h, step) && InTurn(h, step)
  }

  predicate Took(h: B.State, step: B.Step, h': B.State) {
    MayTake(h, step) && h' == B.Apply(h, step)
  }

  lemma ReachMore(s: B.State, steps: seq<B.Step>, h: B.State, step: B.Step, h': B.State, more: seq<B.Step>)
    requires ReachedBy(s, steps, h) && Took(h, step, h') && more == steps + [step]
    ensures ReachedBy(s, more, h')
  {
    B.Extends(s, steps, step);
    assert more[..|more| - 1] == steps;
    forall k: B.Client ensures N.OverlapFree(s, more, k) {
      assert N.OverlapFree(s, steps, k);
    }
  }

  predicate AllIdle(s: B.State) {
    s.holder.None? && forall t :: t in s.pcs ==> s.pcs[t].Idle?
  }

  predicate FramesMirror(c: Codec, sends: map<B.Client, seq<string>>, frames: map<B.Client, seq<B.Line>>) {
    frames.Keys == sends.Keys && forall k :: k in sends ==> frames[k] == LinesOf(c, sends[k])
  }

  /** Who a line is offered to: everyone but its sender, and the sender too for an echo. */
  function Receivers(clients: set<B.Client>, sender: Option<B.Client>, echo: bool): set<B.Client> {
    set k | k in clients && (sender != Some(k) || echo)
  }

  /** The state machine at start: everything in RAM stored, nothing of it in the disk queue. */
  function Opening(c: Codec, history: seq<string>, seqno: nat, height: nat): B.State {
    var ram := LinesOf(c, history);
    B.State(None, map[], B.Store(ram, ram, [], ReplayBatch.Flags(|ram|, false), seqno, height), map[])
  }

  /** Resumed history with rising numbers and heights below the counters is a proper start. */
  lemma OpeningIsStart(c: Codec, history: seq<string>, seqno: nat, height: nat)
    requires var ram := LinesOf(c, history);
             && B.SeqsRise(ram) && B.HeightsRise(ram)
             && forall i :: 0 <= i < |ram| ==> ram[i].seqno <= seqno && ram[i].height <= height
    ensures B.Start(Opening(c, history, seqno, height))
  {
    var ram := LinesOf(c, history);
    ReplayBatch.KeptMore<B.Line>([], [], ram, false);
    assert [] + ram == ram && [] + ReplayBatch.Flags(|ram|, false) == ReplayBatch.Flags(|ram|, false);
    assert ReplayBatch.Kept<B.Line>([], []) == [];
  }

  /** A booted server is a proper start: its numbers rise when the loaded ones do, its heights
      because what RAM holds is left of one chain. */
  lemma {:induction false} BootIsStart(c: Codec, hs: Hasher, start: Digest, log: seq<Wire>, history: seq<string>,
                                       seqno: nat, height: nat)
    requires O.NumbersRise(c, history) && O.NumbersUpTo(c, history, seqno)
    requires ServerLog(hs, start, log) && Remains(c, log, history) && Tidy(c, history)
    requires height == Resumed(c, hs, history).1
    ensures B.Start(Opening(c, history, seqno, height))
  {
    O.RemainingHeightsRise(c, hs, start, log, history);
    var ram := LinesOf(c, history);
    forall i | 0 <= i < |history|
      ensures ram[i].seqno == O.NumberOf(c, history[i]) && ram[i].height == c.TextHeight(history[i])
    {
    }
    OpeningIsStart(c, history, seqno, height);
  }

  /** What a boot finds: RAM is left of this chain, and records and wires agree and no shown
      record's number falls back. */
  ghost predicate SoundBoot(c: Codec, hs: Hasher, start: Digest, log: seq<Wire>, records: seq<Record>,
                            accepts: Record -> bool, history: seq<string>)
  {
    && c.Laws() && O.Agree(records) && O.ShownForward(c, records, accepts)
    && ServerLog(hs, start, log) && Remains(c, log, history) && Tidy(c, history)
  }

  /** Boot and open: a sound boot opens a hub whose every order is kept from then on. */
  method OpenHub(c: Codec, hs: Hasher, chain: ChainService, records: seq<Record>, accepts: Record -> bool)
    returns (hub: Hub)
    requires chain.Valid() && chain.history == [] && !chain.ready
    modifies chain
    ensures hub.Valid(c) && hub.chain == chain && fresh(hub)
    ensures forall start, log :: SoundBoot(c, hs, start, log, records, accepts, chain.history) ==> B.Start(hub.origin)
  {
    O.Boot(c, hs, chain, records, accepts);
    hub := new Hub(c, chain);
    forall start, log | SoundBoot(c, hs, start, log, records, accepts, chain.history) ensures B.Start(hub.origin) {
      BootIsStart(c, hs, start, log, chain.history, chain.seqno, chain.height);
    }
  }

  class Hub {
    const chain: ChainService
    var sends: map<B.Client, seq<string>>

    /** The state machine alongside: where it stands, and the steps that led there. */
    ghost const origin: B.State
    ghost var run: seq<B.Step>
    ghost var model: B.State

    /** The state machine stands where its steps led, with the same frames queued. */
    ghost predicate Follows(c: Codec)
      reads this
    {
      ReachedBy(origin, run, model) && FramesMirror(c, sends, model.frames)
    }

    ghost predicate Valid(c: Codec)
      reads this, chain
    {
      && chain.Valid() && chain.ready && AllIdle(model) && Follows(c)
      && Mirrors(c, chain.history, chain.seqno, chain.height, model.store)
    }

    /** Opens for business: nobody registered, RAM as resumed. */
    constructor (c: Codec, chain: ChainService)
      requires chain.Valid() && chain.ready
      ensures Valid(c) && this.chain == chain && sends == map[] && run == []
      ensures origin == Opening(c, chain.history, chain.seqno, chain.height)
    {
      this.chain, sends := chain, map[];
      origin, run := Opening(c, chain.history, chain.seqno, chain.height), [];
      model := Opening(c, chain.history, chain.seqno, chain.height);
    }

    /** One more step of the state machine. */
    ghost method Do(step: B.Step)
      requires ReachedBy(origin, run, model) && MayTake(model, step)
      modifies this`run, this`model
      ensures ReachedBy(origin, run, model) && Took(old(model), step, model)
      ensures Grew(old(run), run)
    {
      ghost var h, more := B.Apply(model, step), run + [step];
      ReachMore(origin, run, model, step, h, more);
      run, model := more, h;
    }

    /** One non-blocking offer: a full queue drops the line. */
    method Offer(c: Codec, data: string, k: B.Client, ok: bool, ghost t: B.Thread, ghost before: B.State,
                 ghost todo: set<B.Client>)
      requires Follows(c) && k in sends && k in todo && Fanning(before, model, t, LineOf(c, data), todo)
      modifies this`sends, this`run, this`model
      ensures Follows(c) && Fanning(before, model, t, LineOf(c, data), todo - {k}) && Grew(old(run), run)
      ensures sends == if ok then old(sends)[k := old(sends)[k] + [data]] else old(sends)
    {
      FanningStep(before, model, t, LineOf(c, data), todo, k);
      DeliverMirrors(c, sends, model, t, k, ok, data);
      Do(B.Deliver(t, k, ok));
      if ok {
        sends := sends[k := sends[k] + [data]];
      }
    }

    /** Offers a line to every client but its sender, then echoes it to the sender if asked. */
    method Fanout(c: Codec, data: string, sender: Option<B.Client>, echo: bool, room: B.Client -> bool,
                  ghost t: B.Thread)
      requires Follows(c) && B.PcOf(model, t) == B.Stored(LineOf(c, data))
      modifies this`sends, this`run, this`model
      ensures Follows(c) && FannedOut(old(model), model, t) && Grew(old(run), run)
      ensures sends == Sent(old(sends), Receivers(old(sends).Keys, sender, echo), room, data)
      ensures sends.Keys == old(sends).Keys
      ensures forall k :: k in old(sends) ==>
                sends[k] == if room(k) && (sender != Some(k) || echo) then old(sends)[k] + [data] else old(sends)[k]
    {
      var todo := Receivers(sends.Keys, sender, echo);
      ghost var receivers, done := todo, {};
      assert todo <= model.frames.Keys;
      NothingSent(sends, room, data);
      StartTaken(model, t, LineOf(c, data), todo);
      Do(B.StartFan(t, todo));
      while todo != {}
        invariant receivers <= old(sends).Keys && Parts(receivers, done, todo)
        invariant Grew(old(run), run) && Follows(c) && Fanning(old(model), model, t, LineOf(c, data), todo)
        invariant sends == Sent(old(sends), done, room, data)
        decreases todo
      {
        var k :| k in todo;
        PartsMove(receivers, done, todo, k);
        SentOne(old(sends), done, room, data, k);
        ghost var sofar := run;
        Offer(c, data, k, room(k), t, old(model), todo);
        GrewThrough(old(run), sofar, run);
        todo, done := todo - {k}, done + {k};
      }
      ghost var offered := run;
      EndTaken(old(model), model, t, LineOf(c, data));
      Do(B.EndFan(t));
      GrewThrough(old(run), offered, run);
      SentMeans(old(sends), sender, echo, room, data);
    }

    /** Thread t takes the broadcast lock. */
    ghost method Lock(c: Codec, t: B.Thread)
      requires Follows(c) && AllIdle(model)
      modifies this`run, this`model
      ensures Follows(c) && HoldsAlone(model, t) && model.store == old(model.store) && Grew(old(run), run)
    {
      LockTaken(model, t);
      Do(B.Acquire(t));
    }

    /** Linking on a resumed chain, next to the state machine's store. */
    method LinkNow(c: Codec, hs: Hasher, msg: Wire, ts: string, ghost st: B.Store)
      returns (wire: Wire, data: string, ghost evict: nat, ghost queued: bool)
      requires chain.Valid() && chain.ready && c.Laws() && Mirrors(c, chain.history, chain.seqno, chain.height, st)
      modifies chain, if chain.store == null then {} else {chain.store}
      ensures chain.Valid() && chain.ready && data == c.marshal(wire)
      ensures IsNext(hs, old(chain.tip), old(chain.height), old(chain.seqno) + 1, msg, wire)
      ensures PutInto(c, st, true, evict, queued, data, chain.history, chain.seqno, chain.height)
    {
      ghost var history, seqno, height := chain.history, chain.seqno, chain.height;
      wire, data := chain.LinkAndStore(c, hs, msg, ts);
      queued := chain.store != null
                && |chain.store.queue| > old(if chain.store == null then 0 else |chain.store.queue|);
      evict := StoringIsPut(c, st, history, data, wire, chain.history, chain.maxBytes, queued, seqno, height, true,
                            chain.height);
    }

    /** Numbering and storing a notice, next to the state machine's store. */
    method NumberNow(c: Codec, msg: Wire, ts: string, ghost st: B.Store)
      returns (wire: Wire, data: string, ghost evict: nat, ghost queued: bool)
      requires chain.Valid() && chain.ready && c.Laws() && Mirrors(c, chain.history, chain.seqno, chain.height, st)
      requires msg.height == 0
      modifies chain, if chain.store == null then {} else {chain.store}
      ensures chain.Valid() && chain.ready && data == c.marshal(wire)
      ensures wire == msg.(seqno := old(chain.seqno) + 1)
      ensures PutInto(c, st, false, evict, queued, data, chain.history, chain.seqno, chain.height)
    {
      ghost var history, seqno, height := chain.history, chain.seqno, chain.height;
      wire, data := chain.StoreSystem(c, msg, ts);
      queued := chain.store != null
                && |chain.store.queue| > old(if chain.store == null then 0 else |chain.store.queue|);
      evict := StoringIsPut(c, st, history, data, wire, chain.history, chain.maxBytes, queued, seqno, height, false,
                            height);
    }

    /** The part of a chained broadcast before the fan-out: take the lock, link, store. */
    method StoreChained(c: Codec, hs: Hasher, msg: Wire, ts: string, ghost t: B.Thread)
      returns (wire: Wire, data: string)
      requires Valid(c) && c.Laws()
      modifies this`run, this`model, chain, if chain.store == null then {} else {chain.store}
      ensures Stored(c, data) && Grew(old(run), run) && Outgoing(model, t, LineOf(c, data), true)
      ensures data == c.marshal(wire)
      ensures IsNext(hs, old(chain.tip), old(chain.height), old(chain.seqno) + 1, msg, wire)
    {
      Lock(c, t);
      ghost var locked := run;
      ghost var evict, queued;
      wire, data, evict, queued := LinkNow(c, hs, msg, ts, model.store);
      StoreTaken(model, t, true, evict, queued);
      Do(B.LinkStore(t, evict, queued));
      GrewThrough(old(run), locked, run);
    }

    /** The same for a notice, which takes no broadcast lock and no height. */
    method StoreNotice(c: Codec, msg: Wire, ts: string, ghost t: B.Thread) returns (wire: Wire, data: string)
      requires Valid(c) && c.Laws() && msg.height == 0
      modifies this`run, this`model, chain, if chain.store == null then {} else {chain.store}
      ensures Stored(c, data) && Grew(old(run), run) && Outgoing(model, t, LineOf(c, data), false)
      ensures data == c.marshal(wire) && wire == msg.(seqno := old(chain.seqno) + 1)
    {
      ghost var evict, queued;
      wire, data, evict, queued := NumberNow(c, msg, ts, model.store);
      StoreTaken(model, t, false, evict, queued);
      Do(B.NoticeStore(t, evict, queued));
    }

    /** The chain service and the state machine agree on a line just stored. */
    ghost predicate Stored(c: Codec, data: string)
      reads this, chain
    {
      && chain.Valid() && chain.ready && Follows(c)
      && Mirrors(c, chain.history, chain.seqno, chain.height, model.store)
    }

    /** A chained message: linked, stored and offered to everyone, echo included, in one go. */
    method BroadcastWire(c: Codec, hs: Hasher, msg: Wire, ts: string, sender: B.Client, room: B.Client -> bool,
                         ghost t: B.Thread)
      returns (wire: Wire, data: string)
      requires Valid(c) && c.Laws()
      modifies this, chain, if chain.store == null then {} else {chain.store}
      ensures Valid(c) && Grew(old(run), run) && data == c.marshal(wire)
      ensures IsNext(hs, old(chain.tip), old(chain.height), old(chain.seqno) + 1, msg, wire)
      ensures wire.text == msg.text && wire.typ == msg.typ && wire.display == msg.display && wire.tmpID == msg.tmpID
      ensures wire.height == old(chain.height) + 1 && wire.seqno == old(chain.seqno) + 1
      ensures sends.Keys == old(sends).Keys
      ensures forall k :: k in old(sends) ==>
                sends[k] == if room(k) then old(sends)[k] + [data] else old(sends)[k]
    {
      wire, data := StoreChained(c, hs, msg, ts, t);
      ghost var stored := run;
      SendOut(c, data, Some(sender), true, room, t);
      GrewThrough(old(run), stored, run);
    }

    /** A notice: numbered, stored and offered to everyone but its sender. */
    method StoreSystem(c: Codec, msg: Wire, ts: string, sender: Option<B.Client>, room: B.Client -> bool,
                       ghost t: B.Thread)
      returns (wire: Wire, data: string)
      requires Valid(c) && c.Laws() && msg.height == 0
      modifies this, chain, if chain.store == null then {} else {chain.store}
      ensures Valid(c) && Grew(old(run), run) && data == c.marshal(wire)
      ensures wire == msg.(seqno := old(chain.seqno) + 1)
      ensures sends.Keys == old(sends).Keys
      ensures forall k :: k in old(sends) ==>
                sends[k] == if room(k) && sender != Some(k) then old(sends)[k] + [data] else old(sends)[k]
    {
      wire, data := StoreNotice(c, msg, ts, t);
      ghost var stored := run;
      SendOut(c, data, sender, false, room, t);
      GrewThrough(old(run), stored, run);
    }

    /** Fans a stored line out and leaves every thread idle again. */
    method SendOut(c: Codec, data: string, sender: Option<B.Client>, echo: bool, room: B.Client -> bool,
                   ghost t: B.Thread)
      requires Stored(c, data) && Outgoing(model, t, LineOf(c, data), echo)
      modifies this`sends, this`run, this`model
      ensures Valid(c) && Grew(old(run), run)
      ensures sends.Keys == old(sends).Keys
      ensures forall k :: k in old(sends) ==>
                sends[k] == if room(k) && (sender != Some(k) || echo) then old(sends)[k] + [data] else old(sends)[k]
    {
      ghost var before := model;
      Fanout(c, data, sender, echo, room, t);
      IdleAgain(before, model, t, LineOf(c, data), echo);
    }

    /** A client joins or leaves while nobody fans out. */
    method Register(c: Codec, k: B.Client)
      requires Valid(c) && k !in sends
      modifies this`sends, this`run, this`model
      ensures Valid(c) && Grew(old(run), run) && sends == old(sends)[k := []]
    {
      Do(B.Register(k));
      sends := sends[k := []];
    }

    method Unregister(c: Codec, k: B.Client)
      requires Valid(c) && k in sends
      modifies this`sends, this`run, this`model
      ensures Valid(c) && Grew(old(run), run) && sends == old(sends) - {k}
    {
      Do(B.Unregister(k));
      sends := sends - {k};
    }
  }

  /** Thread t has taken the broadcast lock, and every other thread is idle. */
  predicate HoldsAlone(h: B.State, t: B.Thread) {
    && B.PcOf(h, t).Holding? && h.holder == Some(t)
    && forall u :: u in h.pcs && u != t ==> h.pcs[u].Idle?
  }

  lemma LockTaken(h: B.State, t: B.Thread)
    requires AllIdle(h)
    ensures MayTake(h, B.Acquire(t))
    ensures forall h' :: Took(h, B.Acquire(t), h') ==> HoldsAlone(h', t) && h'.store == h.store && h'.frames == h.frames
  {
  }

  function StoreOf(t: B.Thread, chained: bool, evict: nat, queued: bool): B.Step {
    if chained then B.LinkStore(t, evict, queued) else B.NoticeStore(t, evict, queued)
  }

  /** Storing puts the line into the store and leaves it to be brought out. */
  lemma StoreTaken(h: B.State, t: B.Thread, chained: bool, evict: nat, queued: bool)
    requires MayStore(h, t, chained)
    ensures MayTake(h, StoreOf(t, chained, evict, queued))
    ensures forall h' :: Took(h, StoreOf(t, chained, evict, queued), h') ==>
              && Outgoing(h', t, B.Stamp(h.store, chained), chained) && h'.frames == h.frames
              && h'.store == B.Put(h.store, B.Stamp(h.store, chained), evict, queued)
  {
  }

  /** Storing takes the lock for a chained line and nothing for a notice. */
  predicate MayStore(h: B.State, t: B.Thread, chained: bool) {
    if chained then HoldsAlone(h, t) else AllIdle(h)
  }

  /** Thread t brings out a line, alone; for a chained line it holds the broadcast lock. */
  predicate Outgoing(h: B.State, t: B.Thread, line: B.Line, locked: bool) {
    && B.PcOf(h, t) == B.Stored(line) && h.holder == (if locked then Some(t) else None)
    && forall u :: u in h.pcs && u != t ==> h.pcs[u].Idle?
  }

  lemma IdleAgain(before: B.State, after: B.State, t: B.Thread, line: B.Line, locked: bool)
    requires Outgoing(before, t, line, locked) && FannedOut(before, after, t)
    ensures AllIdle(after) && after.store == before.store
  {
  }

  /** The queues after a line was offered to some clients. */
  function Sent(before: map<B.Client, seq<string>>, receivers: set<B.Client>, room: B.Client -> bool,
                data: string): map<B.Client, seq<string>>
  {
    map k | k in before :: if k in receivers && room(k) then before[k] + [data] else before[k]
  }

  /** Said of each queue: everyone with room gets the line once, at the end, but for a sender that
      wants no echo; nobody comes or goes. */
  lemma {:induction false} SentMeans(before: map<B.Client, seq<string>>, sender: Option<B.Client>, echo: bool,
                                     room: B.Client -> bool, data: string)
    ensures var after := Sent(before, Receivers(before.Keys, sender, echo), room, data);
            && after.Keys == before.Keys
            && forall k :: k in before ==>
                 after[k] == if room(k) && (sender != Some(k) || echo) then before[k] + [data] else before[k]
  {
    var after := Sent(before, Receivers(before.Keys, sender, echo), room, data);
    assert after.Keys == before.Keys;
  }

  /** Some were offered the line, the others are still to come. */
  predicate Parts(all: set<B.Client>, done: set<B.Client>, todo: set<B.Client>) {
    done + todo == all && done !! todo
  }

  lemma PartsMove(all: set<B.Client>, done: set<B.Client>, todo: set<B.Client>, k: B.Client)
    requires Parts(all, done, todo) && k in todo
    ensures Parts(all, done + {k}, todo - {k}) && k in all && k !in done
    ensures todo - {k} == {} ==> done + {k} == all
  {
  }

  lemma NothingSent(before: map<B.Client, seq<string>>, room: B.Client -> bool, data: string)
    ensures Sent(before, {}, room, data) == before
  {
  }

  lemma SentOne(before: map<B.Client, seq<string>>, done: set<B.Client>, room: B.Client -> bool, data: string,
                k: B.Client)
    requires k in before && k !in done
    ensures var sent := Sent(before, done, room, data);
            k in sent && Sent(before, done + {k}, room, data) == if room(k) then sent[k := sent[k] + [data]] else sent
  {
  }

  predicate Grew(was: seq<B.Step>, now: seq<B.Step>) {
    was <= now
  }

  lemma GrewThrough(was: seq<B.Step>, mid: seq<B.Step>, now: seq<B.Step>)
    requires Grew(was, mid) && Grew(mid, now)
    ensures Grew(was, now)
  {
  }

  /** Thread t is offering a line, with these clients still to come; nothing else has moved. */
  predicate Fanning(before: B.State, h: B.State, t: B.Thread, line: B.Line, todo: set<B.Client>) {
    h.store == before.store && h.holder == before.holder && h.pcs == before.pcs[t := B.Fanning(line, todo)]
  }

  lemma StartTaken(h: B.State, t: B.Thread, line: B.Line, todo: set<B.Client>)
    requires B.PcOf(h, t) == B.Stored(line) && todo <= h.frames.Keys
    ensures MayTake(h, B.StartFan(t, todo))
    ensures forall h' :: Took(h, B.StartFan(t, todo), h') ==> Fanning(h, h', t, line, todo) && h'.frames == h.frames
  {
  }

  lemma EndTaken(before: B.State, h: B.State, t: B.Thread, line: B.Line)
    requires Fanning(before, h, t, line, {})
    ensures MayTake(h, B.EndFan(t))
    ensures forall h' :: Took(h, B.EndFan(t), h') ==> FannedOut(before, h', t) && h'.frames == h.frames
  {
  }

  lemma FanningStep(before: B.State, h: B.State, t: B.Thread, line: B.Line, todo: set<B.Client>, k: B.Client)
    requires Fanning(before, h, t, line, todo) && k in todo
    ensures B.PcOf(h, t).line == line
    ensures forall ok :: MayTake(h, B.Deliver(t, k, ok))
    ensures forall ok, h' :: Took(h, B.Deliver(t, k, ok), h') ==> Fanning(before, h', t, line, todo - {k})
  {
  }

  /** Thread t is done, and has let go of the broadcast lock if it held it. */
  predicate FannedOut(before: B.State, after: B.State, t: B.Thread) {
    && after.store == before.store && after.pcs == before.pcs[t := B.Idle]
    && after.holder == if before.holder == Some(t) then None else before.holder
  }

  lemma DeliverMirrors(c: Codec, sends: map<B.Client, seq<string>>, h: B.State, t: B.Thread, k: B.Client, ok: bool,
                       data: string)
    requires FramesMirror(c, sends, h.frames) && k in sends
    requires B.Enabled(h, B.Deliver(t, k, ok)) && B.PcOf(h, t).line == LineOf(c, data)
    ensures FramesMirror(c, if ok then sends[k := sends[k] + [data]] else sends, B.Apply(h, B.Deliver(t, k, ok)).frames)
  {
    assert LinesOf(c, sends[k] + [data]) == LinesOf(c, sends[k]) + [LineOf(c, data)];
  }

  /** What the calls guarantee together: whatever was broadcast, announced, joined or left, the
      numbers in RAM rise, and so do the numbers in every client's queue, chained lines and
      notices alike. */
  lemma {:induction false} HubKeepsOrder(hub: Hub, c: Codec)
    requires hub.Valid(c) && B.Start(hub.origin)
    ensures B.SeqsRise(LinesOf(c, hub.chain.history))
    ensures forall k :: k in hub.sends ==> B.SeqsRise(LinesOf(c, hub.sends[k]))
    ensures forall k :: k in hub.sends ==> B.HeightsRise(LinesOf(c, hub.sends[k]))
  {
    B.OrdersAgree(hub.origin, hub.run);
    forall k | k in hub.sends ensures B.SeqsRise(LinesOf(c, hub.sends[k])) {
      N.NoOverlapNumbersRise(hub.origin, hub.run, k);
    }
  }
}
