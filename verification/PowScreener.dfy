/** In-chat proof-of-work challenges: two maps that must stay each other's inverse, a mute
    list, and the ways a challenge leaves the books. */
module PowScreeners {

  /** A connection's identity. */
  type Conn = nat

  datatype Challenge = Challenge(id: string, conn: Conn, expires: int)

  datatype Books = Books(screens: map<Conn, Challenge>, byID: map<string, Conn>, muted: set<Conn>)

  const EMPTY := Books(map[], map[], {})

  /** What may happen next. `passes` is the verdict of the proof check on the stored preset. */
  datatype Op =
    | Issue(ch: Challenge)
    | Resolve(id: string, passes: bool, now: int)
    | Decline(id: string)
    | Deadline(now: int, underAttack: bool)
    | Unmute(conn: Conn)
    | Drop(conn: Conn)

  function Overdue(b: Books, now: int): set<Conn> {
    set conn | conn in b.screens && now >= b.screens[conn].expires
  }

  function IdsOf(b: Books, conns: set<Conn>): set<string> {
    set conn | conn in conns && conn in b.screens :: b.screens[conn].id
  }

  /** The identifiers an operation takes off the books. */
  function Leaving(b: Books, op: Op): set<string> {
    match op
    case Issue(ch) => IdsOf(b, {ch.conn})
    case Resolve(id, _, _) => if id in b.byID then {id} else {}
    case Decline(id) => if id in b.byID then {id} else {}
    case Deadline(now, _) => IdsOf(b, Overdue(b, now))
    case Unmute(_) => {}
    case Drop(conn) => IdsOf(b, {conn})
  }

  function Apply(b: Books, op: Op): Books {
    match op
    case Issue(ch) => Books(b.screens[ch.conn := ch], (b.byID - Leaving(b, op))[ch.id := ch.conn], b.muted - {ch.conn})
    case Resolve(id, passes, now) =>
      if id !in b.byID then b
      else
        var conn := b.byID[id];
        var passed := conn in b.screens && now <= b.screens[conn].expires && passes;
        Books(b.screens - {conn}, b.byID - {id}, if passed then b.muted - {conn} else b.muted)
    case Decline(id) =>
      if id !in b.byID then b
      else Books(b.screens - {b.byID[id]}, b.byID - {id}, b.muted + {b.byID[id]})
    case Deadline(now, underAttack) =>
      Books(b.screens - Overdue(b, now), b.byID - Leaving(b, op), if underAttack then b.muted
            else b.muted + Overdue(b, now))
    case Unmute(conn) => b.(muted := b.muted - {conn})
    case Drop(conn) => Books(b.screens - {conn}, b.byID - Leaving(b, op), b.muted - {conn})
  }

  // ---------------------------------------------------------------- the books stay straight

  /** The two maps are each other's inverse, and nobody muted has a challenge. */
  predicate Straight(b: Books) {
    && (forall conn :: conn in b.screens ==> b.screens[conn].conn == conn)
    && (forall conn :: conn in b.screens ==> b.screens[conn].id in b.byID && b.byID[b.screens[conn].id] == conn)
    && (forall id :: id in b.byID ==> b.byID[id] in b.screens && b.screens[b.byID[id]].id == id)
    && b.muted !! b.screens.Keys
  }

  /** An identifier not on the books, or only as this connection's own. */
  predicate FreshFor(b: Books, ch: Challenge) {
    ch.id in b.byID ==> b.byID[ch.id] == ch.conn
  }

  /** Every operation keeps the books straight; issuing does so exactly when the identifier is
      fresh. */
  lemma {:induction false} BooksStayStraight(b: Books, op: Op)
    requires Straight(b)
    ensures op.Issue? ==> (Straight(Apply(b, op)) <==> FreshFor(b, op.ch))
    ensures !op.Issue? ==> Straight(Apply(b, op))
  {
    var b' := Apply(b, op);
    match op
    case Issue(ch) => {
      if !FreshFor(b, ch) {
        var other := b.byID[ch.id];
        assert other in b'.screens && b'.byID[ch.id] == ch.conn != other;
      } else {
        IssueKeeps(b, ch);
      }
    }
    case Resolve(id, _, _) =>
    case Decline(id) =>
    case Deadline(now, _) => DeadlineKeeps(b, op);
    case Unmute(_) =>
    case Drop(_) =>
  }

  lemma IssueKeeps(b: Books, ch: Challenge)
    requires Straight(b) && FreshFor(b, ch)
    ensures Straight(Apply(b, Issue(ch)))
  {
    var b' := Apply(b, Issue(ch));
    forall conn | conn in b'.screens && conn != ch.conn
      ensures b'.screens[conn].id in b'.byID && b'.byID[b'.screens[conn].id] == conn
    {
      assert b.screens[conn].id !in Leaving(b, Issue(ch));
    }
  }

  lemma DeadlineKeeps(b: Books, op: Op)
    requires Straight(b) && op.Deadline?
    ensures Straight(Apply(b, op))
  {
    var b' := Apply(b, op);
    forall conn | conn in b'.screens ensures b'.screens[conn].id in b'.byID {
      assert b.screens[conn].id !in Leaving(b, op);
    }
    forall id | id in b'.byID ensures b'.byID[id] in b'.screens {
      assert b.byID[id] !in Overdue(b, op.now);
    }
  }

  // ---------------------------------------------------------------- each challenge leaves once

  function Run(ops: seq<Op>): Books {
    if ops == [] then EMPTY else Apply(Run(ops[..|ops| - 1]), ops[|ops| - 1])
  }

  function Issues(ops: seq<Op>, id: string): nat {
    if ops == [] then 0
    else Issues(ops[..|ops| - 1], id)
           + match ops[|ops| - 1] case Issue(ch) => (if ch.id == id then 1 else 0) case _ => 0
  }

  /** How often an identifier has left the books. */
  function Exits(ops: seq<Op>, id: string): nat {
    if ops == [] then 0
    else Exits(ops[..|ops| - 1], id) + if id in Leaving(Run(ops[..|ops| - 1]), ops[|ops| - 1]) then 1 else 0
  }

  /** No identifier is issued twice. */
  ghost predicate FreshIds(ops: seq<Op>) {
    forall id: string :: Issues(ops, id) <= 1
  }

  lemma {:induction false} FreshPrefix(ops: seq<Op>)
    requires ops != [] && FreshIds(ops)
    ensures FreshIds(ops[..|ops| - 1])
  {
    var front := ops[..|ops| - 1];
    forall id: string ensures Issues(front, id) <= 1 {
      assert Issues(ops, id) <= 1;
    }
  }

  lemma StepBalance(b: Books, op: Op, id: string)
    requires Straight(b) && (op.Issue? ==> op.ch.id !in b.byID)
    ensures id in Leaving(b, op) ==> id in b.byID
    ensures id in Apply(b, op).byID <==> (op.Issue? && op.ch.id == id) || (id in b.byID && id !in Leaving(b, op))
  {
  }

  /** Over every run with fresh identifiers the books are straight, and each issued challenge
      is either outstanding or has left exactly once. */
  lemma {:induction false} LeavesExactlyOnce(ops: seq<Op>)
    requires FreshIds(ops)
    ensures Straight(Run(ops))
    ensures forall id: string :: Issues(ops, id) == Exits(ops, id) + if id in Run(ops).byID then 1 else 0
  {
    if ops != [] {
      var front, op := ops[..|ops| - 1], ops[|ops| - 1];
      FreshPrefix(ops);
      LeavesExactlyOnce(front);
      var b := Run(front);
      if op.Issue? {
        assert Issues(ops, op.ch.id) <= 1;
      }
      BooksStayStraight(b, op);
      forall id: string ensures Issues(ops, id) == Exits(ops, id) + if id in Run(ops).byID then 1 else 0 {
        assert Issues(front, id) == Exits(front, id) + if id in b.byID then 1 else 0;
        assert Issues(ops, id) <= 1;
        StepBalance(b, op, id);
      }
    }
  }

  // ---------------------------------------------------------------- who is muted

  /** A declined challenge mutes its connection, and outside an attack an overdue one does. */
  predicate Mutes(b: Books, op: Op, conn: Conn) {
    match op
    case Decline(id) => id in b.byID && b.byID[id] == conn
    case Deadline(now, underAttack) => !underAttack && conn in b.screens && now >= b.screens[conn].expires
    case _ => false
  }

  /** A new challenge, an unmute and a disconnect lift it. */
  predicate Lifts(op: Op, conn: Conn) {
    match op
    case Issue(ch) => ch.conn == conn
    case Unmute(other) => other == conn
    case Drop(other) => other == conn
    case _ => false
  }

  lemma {:induction false} MutedApart(ops: seq<Op>)
    ensures Run(ops).muted !! Run(ops).screens.Keys
  {
    if ops != [] {
      MutedApart(ops[..|ops| - 1]);
    }
  }

  lemma StepMutes(b: Books, op: Op, conn: Conn)
    requires b.muted !! b.screens.Keys
    ensures conn in Apply(b, op).muted <==> Mutes(b, op, conn) || (conn in b.muted && !Lifts(op, conn))
  {
  }

  /** The i-th operation mutes the connection, and none after it lifts that. */
  predicate MutedSince(ops: seq<Op>, conn: Conn, i: nat) {
    && i < |ops| && Mutes(Run(ops[..i]), ops[i], conn)
    && forall j :: i < j < |ops| ==> !Lifts(ops[j], conn)
  }

  lemma SinceMore(front: seq<Op>, op: Op, conn: Conn, i: nat)
    requires i < |front|
    ensures MutedSince(front + [op], conn, i) <==> MutedSince(front, conn, i) && !Lifts(op, conn)
  {
    var ops := front + [op];
    assert ops[..i] == front[..i] && ops[i] == front[i];
    if MutedSince(ops, conn, i) {
      assert !Lifts(ops[|front|], conn);
      forall j | i < j < |front| ensures !Lifts(front[j], conn) {
        assert !Lifts(ops[j], conn);
      }
    }
  }

  lemma SinceLast(front: seq<Op>, op: Op, conn: Conn)
    ensures MutedSince(front + [op], conn, |front|) <==> Mutes(Run(front), op, conn)
  {
    assert (front + [op])[..|front|] == front;
  }

  /** After any run a connection is muted exactly when some operation muted it and none has lifted
      that since: no result, right or wrong, can. */
  lemma {:induction false} MutedIff(ops: seq<Op>, conn: Conn)
    ensures conn in Run(ops).muted <==> exists i: nat :: MutedSince(ops, conn, i)
  {
    if ops != [] {
      var n := |ops| - 1;
      var front, op := ops[..n], ops[n];
      assert ops == front + [op];
      MutedIff(front, conn);
      MutedApart(front);
      StepMutes(Run(front), op, conn);
      SinceLast(front, op, conn);
      forall i: nat | i < n
        ensures MutedSince(ops, conn, i) <==> MutedSince(front, conn, i) && !Lifts(op, conn)
      {
        SinceMore(front, op, conn, i);
      }
      SinceSplits(front, op, conn);
    }
  }

  lemma SinceSplits(front: seq<Op>, op: Op, conn: Conn)
    requires forall i: nat :: i < |front| ==>
               (MutedSince(front + [op], conn, i) <==> MutedSince(front, conn, i) && !Lifts(op, conn))
    ensures (exists i: nat :: MutedSince(front + [op], conn, i)) <==>
              || MutedSince(front + [op], conn, |front|)
              || (!Lifts(op, conn) && exists i: nat :: MutedSince(front, conn, i))
  {
    var ops := front + [op];
    if !Lifts(op, conn) && exists i: nat :: MutedSince(front, conn, i) {
      var i: nat :| MutedSince(front, conn, i);
      assert MutedSince(ops, conn, i);
    }
    if exists i: nat :: MutedSince(ops, conn, i) {
      var i: nat :| MutedSince(ops, conn, i);
      if i < |front| {
        assert MutedSince(front, conn, i);
      } else {
        assert i == |front|;
      }
    }
  }

  /** The books once these connections' challenges are decided. */
  function Decided(b: Books, done: set<Conn>, underAttack: bool): Books {
    Books(b.screens - done, b.byID - IdsOf(b, done), if underAttack then b.muted else b.muted + done)
  }

  lemma NoneDecided(b: Books, underAttack: bool)
    ensures Decided(b, {}, underAttack) == b
  {
    assert IdsOf(b, {}) == {};
    assert b.screens - {} == b.screens && b.byID - {} == b.byID;
  }

  lemma AllDecided(b: Books, now: int, underAttack: bool)
    ensures Decided(b, Overdue(b, now), underAttack) == Apply(b, Deadline(now, underAttack))
  {
  }

  function TakenOut(b: Books, conn: Conn, id: string, underAttack: bool): Books {
    Books(b.screens - {conn}, b.byID - {id}, if underAttack then b.muted else b.muted + {conn})
  }

  lemma OneMoreOut(b: Books, done: set<Conn>, conn: Conn, underAttack: bool)
    requires conn in b.screens
    ensures Decided(b, done + {conn}, underAttack)
         == TakenOut(Decided(b, done, underAttack), conn, b.screens[conn].id, underAttack)
  {
    assert IdsOf(b, done + {conn}) == IdsOf(b, done) + {b.screens[conn].id};
  }

  // ---------------------------------------------------------------- the screener

  class PowScreener {
    var screens: map<Conn, Challenge>
    var byID: map<string, Conn>
    var muted: set<Conn>

    ghost function View(): Books
      reads this
    {
      Books(screens, byID, muted)
    }

    constructor ()
      ensures View() == EMPTY
    {
      screens, byID, muted := map[], map[], {};
    }

    /** Records a challenge, replacing the connection's old one and lifting its mute. */
    method Issue(ch: Challenge)
      modifies this
      ensures View() == Apply(old(View()), Op.Issue(ch))
    {
      if ch.conn in screens {
        byID := byID - {screens[ch.conn].id};
      }
      screens := screens[ch.conn := ch];
      byID := byID[ch.id := ch.conn];
      muted := muted - {ch.conn};
    }

    /** A result consumes its challenge, right or wrong; only a right and timely one counts. */
    method Resolve(id: string, passes: bool, now: int) returns (conn: Conn, ok: bool)
      modifies this
      ensures View() == Apply(old(View()), Op.Resolve(id, passes, now))
      ensures ok <==> && id in old(byID) && old(byID)[id] in old(screens)
                      && now <= old(screens)[old(byID)[id]].expires && passes
      ensures ok ==> conn == old(byID)[id]
    {
      if id !in byID {
        return 0, false;
      }
      conn := byID[id];
      if conn !in screens || now > screens[conn].expires {
        screens, byID := screens - {conn}, byID - {id};
        return 0, false;
      }
      if !passes {
        screens, byID := screens - {conn}, byID - {id};
        return 0, false;
      }
      screens, byID, muted := screens - {conn}, byID - {id}, muted - {conn};
      ok := true;
    }

    method Decline(id: string) returns (conn: Conn, ok: bool)
      modifies this
      ensures View() == Apply(old(View()), Op.Decline(id))
      ensures ok == (id in old(byID)) && (ok ==> conn == old(byID)[id])
      ensures ok ==> conn in muted && conn !in screens && id !in byID
    {
      if id !in byID {
        return 0, false;
      }
      conn := byID[id];
      screens, byID, muted := screens - {conn}, byID - {id}, muted + {conn};
      ok := true;
    }

    /** Clears out every connection whose challenge has expired; the attack flag alone decides
        whether the caller is told to close them or to ignore them. */
    method CheckDeadline(now: int, underAttack: bool) returns (kick: seq<Conn>, mute: seq<Conn>)
      modifies this
      ensures View() == Apply(old(View()), Deadline(now, underAttack))
      ensures forall conn :: conn in kick <==> underAttack && conn in Overdue(old(View()), now)
      ensures forall conn :: conn in mute <==> !underAttack && conn in Overdue(old(View()), now)
    {
      var out: seq<Conn> := [];
      ghost var b, done := View(), {};
      var todo := screens.Keys;
      NoneDecided(b, underAttack);
      while todo != {}
        invariant todo <= b.screens.Keys
        invariant forall conn :: conn in done <==> conn in Overdue(b, now) && conn !in todo
        invariant View() == Decided(b, done, underAttack)
        invariant forall conn :: conn in out <==> conn in done
        decreases |todo|
      {
        var conn :| conn in todo;
        todo := todo - {conn};
        if now < screens[conn].expires {
          continue;
        }
        OneMoreOut(b, done, conn, underAttack);
        done := done + {conn};
        TakeOut(conn, underAttack);
        out := out + [conn];
      }
      assert done == Overdue(b, now);
      AllDecided(b, now, underAttack);
      if underAttack {
        kick, mute := out, [];
      } else {
        kick, mute := [], out;
      }
    }

    /** An overdue challenge leaves the books; outside an attack its connection is muted. */
    method TakeOut(conn: Conn, underAttack: bool)
      requires conn in screens
      modifies this
      ensures View() == TakenOut(old(View()), conn, old(screens)[conn].id, underAttack)
    {
      byID := byID - {screens[conn].id};
      screens := screens - {conn};
      if !underAttack {
        muted := muted + {conn};
      }
    }

    method IsMuted(conn: Conn) returns (r: bool)
      ensures r == (conn in View().muted)
    {
      return conn in muted;
    }

    method Unmute(conn: Conn)
      modifies this`muted
      ensures View() == Apply(old(View()), Op.Unmute(conn))
    {
      muted := muted - {conn};
    }

    /** Forgets everything about a disconnected connection. */
    method DropConn(conn: Conn)
      modifies this
      ensures View() == Apply(old(View()), Drop(conn))
    {
      if conn in screens {
        byID := byID - {screens[conn].id};
        screens := screens - {conn};
      }
      muted := muted - {conn};
    }
  }
}
