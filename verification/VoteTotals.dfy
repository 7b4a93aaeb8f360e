/** Vote totals: a toggle per address and height with expiring memory, kept in cumulative
    counters. Every counted vote is accounted for: at boot, remembered, or forgotten. */
module VoteTotals {
  import opened Basics

  const UP := 1
  const DOWN := -1
  const WITHDRAW := 0

  /** How long a vote is remembered, and when the memory is swept (nanoseconds, entries). */
  const DEDUP_TTL := 86_400_000_000_000
  const SWEEP_ABOVE := 10000

  datatype Key = Key(ip: string, target: nat)

  datatype Entry = Entry(direction: int, at: int)

  datatype Score = Score(up: nat, down: nat)

  type Scores = map<nat, Score>
  type Dedup = map<Key, Entry>

  function ScoreOf(scores: Scores, target: nat): Score {
    if target in scores then scores[target] else Score(0, 0)
  }

  predicate Direction(d: int) {
    d == UP || d == DOWN || d == WITHDRAW
  }

  predicate Expired(e: Entry, now: int) {
    now - e.at > DEDUP_TTL
  }

  /** A full memory is swept of what has expired. */
  function Swept(dedup: Dedup, now: int): Dedup {
    if |dedup| > SWEEP_ABOVE then map k | k in dedup && !Expired(dedup[k], now) :: dedup[k] else dedup
  }

  /** What this address is remembered to hold on this height. */
  function Holding(dedup: Dedup, key: Key, now: int): Option<int> {
    if key in dedup && !Expired(dedup[key], now) then Some(dedup[key].direction) else None
  }

  /** The held direction goes, the new one comes; a counter never goes below zero. */
  function Recounted(s: Score, held: Option<int>, next: int): Score {
    var up := if held == Some(UP) && s.up > 0 then s.up - 1 else s.up;
    var down := if held == Some(DOWN) && s.down > 0 then s.down - 1 else s.down;
    Score(if next == UP then up + 1 else up, if next == DOWN then down + 1 else down)
  }

  /** Pressing what is held takes it back. */
  function NextHeld(held: Option<int>, direction: int): int {
    if held == Some(direction) then WITHDRAW else direction
  }

  datatype Votes = Votes(scores: Scores, dedup: Dedup)

  /** Withdrawing nothing changes nothing. */
  predicate Changes(held: Option<int>, direction: int) {
    direction != WITHDRAW || (held.Some? && held != Some(WITHDRAW))
  }

  function Pressed(v: Votes, key: Key, direction: int, now: int): Votes {
    var dedup := Swept(v.dedup, now);
    var held, score := Holding(dedup, key, now), ScoreOf(v.scores, key.target);
    if !Changes(held, direction) then Votes(v.scores[key.target := score], dedup)
    else
      var next := NextHeld(held, direction);
      Votes(v.scores[key.target := Recounted(score, held, next)], dedup[key := Entry(next, now)])
  }

  // ---------------------------------------------------------------- conservation

  function HolderSet(dedup: Dedup, target: nat, direction: int): set<Key> {
    set k | k in dedup && k.target == target && dedup[k].direction == direction
  }

  /** How many remembered entries hold a direction on a height, expired or not. */
  function Holders(dedup: Dedup, target: nat, direction: int): nat {
    |HolderSet(dedup, target, direction)|
  }

  /** Boot totals and what has been forgotten since, per height. */
  ghost predicate Conserved(v: Votes, boot: Scores, forgotten: nat -> Score) {
    forall t: nat ::
      && ScoreOf(v.scores, t).up == ScoreOf(boot, t).up + Holders(v.dedup, t, UP) + forgotten(t).up
      && ScoreOf(v.scores, t).down == ScoreOf(boot, t).down + Holders(v.dedup, t, DOWN) + forgotten(t).down
  }

  /** What a press forgets: swept entries, and an expired entry it writes over. */
  function Dropped(v: Votes, key: Key, direction: int, now: int): Dedup {
    var swept := Swept(v.dedup, now);
    var over := Changes(Holding(swept, key, now), direction) && key in swept && Expired(swept[key], now);
    map k | k in v.dedup && (k !in swept || (over && k == key)) :: v.dedup[k]
  }

  function Forgetting(forgotten: nat -> Score, dropped: Dedup): nat -> Score {
    (t: nat) => Score(forgotten(t).up + Holders(dropped, t, UP), forgotten(t).down + Holders(dropped, t, DOWN))
  }

  lemma Partition(whole: Dedup, a: Dedup, b: Dedup, target: nat, direction: int)
    requires a.Keys !! b.Keys && a.Keys + b.Keys == whole.Keys
    requires (forall k :: k in a ==> a[k] == whole[k]) && (forall k :: k in b ==> b[k] == whole[k])
    ensures Holders(whole, target, direction) == Holders(a, target, direction) + Holders(b, target, direction)
  {
    assert forall k :: k in whole ==> k in a.Keys + b.Keys;
    assert HolderSet(whole, target, direction) == HolderSet(a, target, direction) + HolderSet(b, target, direction);
    assert HolderSet(a, target, direction) !! HolderSet(b, target, direction);
  }

  function Own(dedup: Dedup, key: Key, target: nat, direction: int): nat {
    if key in dedup && key.target == target && dedup[key].direction == direction then 1 else 0
  }

  /** Writing one entry moves its own vote only. */
  lemma WriteHolders(dedup: Dedup, key: Key, e: Entry, target: nat, direction: int)
    ensures Holders(dedup[key := e], target, direction) + Own(dedup, key, target, direction)
         == Holders(dedup, target, direction) + if key.target == target && e.direction == direction then 1 else 0
  {
    var before, after := HolderSet(dedup, target, direction), HolderSet(dedup[key := e], target, direction);
    var others := before - {key};
    assert after == if key.target == target && e.direction == direction then others + {key} else others;
    assert before == if Own(dedup, key, target, direction) == 1 then others + {key} else others;
  }

  /** A held vote is among the counted ones, so taking it back never meets the floor. */
  lemma HeldIsCounted(v: Votes, boot: Scores, forgotten: nat -> Score, key: Key)
    requires Conserved(v, boot, forgotten) && key in v.dedup
    ensures v.dedup[key].direction == UP ==> ScoreOf(v.scores, key.target).up > 0
    ensures v.dedup[key].direction == DOWN ==> ScoreOf(v.scores, key.target).down > 0
  {
    if v.dedup[key].direction == UP {
      assert key in HolderSet(v.dedup, key.target, UP);
    }
    if v.dedup[key].direction == DOWN {
      assert key in HolderSet(v.dedup, key.target, DOWN);
    }
  }

  function SweptAway(dedup: Dedup, now: int): Dedup {
    var swept := Swept(dedup, now);
    map k | k in dedup && k !in swept :: dedup[k]
  }

  /** The entry a press writes over without having honoured it. */
  function WrittenOver(dedup: Dedup, key: Key, direction: int, now: int): Dedup {
    if Changes(Holding(dedup, key, now), direction) && key in dedup && Expired(dedup[key], now)
    then map[key := dedup[key]] else map[]
  }

  lemma SweepHolders(v: Votes, key: Key, direction: int, now: int, target: nat, d: int)
    ensures var swept := Swept(v.dedup, now);
            (Holders(v.dedup, target, d) + Holders(WrittenOver(swept, key, direction, now), target, d)
             == Holders(swept, target, d) + Holders(Dropped(v, key, direction, now), target, d))
  {
    var swept, away := Swept(v.dedup, now), SweptAway(v.dedup, now);
    Partition(v.dedup, swept, away, target, d);
    DroppedParts(v, key, direction, now, target, d);
  }

  /** What a press drops: the swept entries, and the expired one it writes over. */
  lemma DroppedParts(v: Votes, key: Key, direction: int, now: int, target: nat, d: int)
    ensures Holders(Dropped(v, key, direction, now), target, d)
         == Holders(SweptAway(v.dedup, now), target, d)
            + Holders(WrittenOver(Swept(v.dedup, now), key, direction, now), target, d)
  {
    Partition(Dropped(v, key, direction, now), SweptAway(v.dedup, now),
              WrittenOver(Swept(v.dedup, now), key, direction, now), target, d);
  }

  lemma OneHolder(key: Key, e: Entry, target: nat, d: int)
    ensures Holders(map[key := e], target, d) == if key.target == target && e.direction == d then 1 else 0
    ensures Holders(map[], target, d) == 0
  {
    assert HolderSet(map[key := e], target, d) == if key.target == target && e.direction == d then {key} else {};
    assert HolderSet(map[], target, d) == {};
  }

  /** On one height and side: what a press adds and takes is what the memory gains and loses. */
  lemma PressBalance(v: Votes, key: Key, direction: int, now: int, target: nat, d: int)
    requires d == UP || d == DOWN
    ensures var held := Holding(Swept(v.dedup, now), key, now);
            var moves := Changes(held, direction) && key.target == target;
            (Holders(v.dedup, target, d) + (if moves && NextHeld(held, direction) == d then 1 else 0)
             == Holders(Pressed(v, key, direction, now).dedup, target, d)
                  + Holders(Dropped(v, key, direction, now), target, d)
                + (if moves && held == Some(d) then 1 else 0))
  {
    var swept := Swept(v.dedup, now);
    var held := Holding(swept, key, now);
    SweepHolders(v, key, direction, now, target, d);
    OneHolder(key, if key in swept then swept[key] else Entry(0, 0), target, d);
    WriteHolders(swept, key, Entry(NextHeld(held, direction), now), target, d);
  }

  lemma WrittenTwice(scores: Scores, target: nat, first: Score, second: Score)
    ensures scores[target := first][target := second] == scores[target := second]
    ensures ScoreOf(scores[target := second], target) == second
  {
  }

  lemma HeldAfterSweep(v: Votes, key: Key, now: int)
    ensures Holding(Swept(v.dedup, now), key, now) == Holding(v.dedup, key, now)
  {
  }

  /** One press, on any memory: totals stay boot plus remembered plus forgotten. */
  lemma {:induction false} PressConserves(v: Votes, boot: Scores, forgotten: nat -> Score, key: Key, direction: int,
                                          now: int)
    requires Conserved(v, boot, forgotten)
    ensures Conserved(Pressed(v, key, direction, now), boot, Forgetting(forgotten, Dropped(v, key, direction, now)))
  {
    var v', f' := Pressed(v, key, direction, now), Forgetting(forgotten, Dropped(v, key, direction, now));
    forall t: nat
      ensures ScoreOf(v'.scores, t).up == ScoreOf(boot, t).up + Holders(v'.dedup, t, UP) + f'(t).up
      ensures ScoreOf(v'.scores, t).down == ScoreOf(boot, t).down + Holders(v'.dedup, t, DOWN) + f'(t).down
    {
      PressScores(v, boot, forgotten, key, direction, now, t);
      PressBalance(v, key, direction, now, t, UP);
      PressBalance(v, key, direction, now, t, DOWN);
    }
  }

  /** What a press moves on one height, side by side. */
  lemma PressScores(v: Votes, boot: Scores, forgotten: nat -> Score, key: Key, direction: int, now: int, t: nat)
    requires Conserved(v, boot, forgotten)
    ensures var held := Holding(Swept(v.dedup, now), key, now);
            var moves := Changes(held, direction) && key.target == t;
            var was, now' := ScoreOf(v.scores, t), ScoreOf(Pressed(v, key, direction, now).scores, t);
            && now'.up + (if moves && held == Some(UP) then 1 else 0)
                 == was.up + (if moves && NextHeld(held, direction) == UP then 1 else 0)
            && now'.down + (if moves && held == Some(DOWN) then 1 else 0)
                 == was.down + (if moves && NextHeld(held, direction) == DOWN then 1 else 0)
  {
    HeldAfterSweep(v, key, now);
    if Holding(v.dedup, key, now).Some? {
      HeldIsCounted(v, boot, forgotten, key);
    }
  }

  // ---------------------------------------------------------------- runs

  datatype Press = Press(key: Key, direction: int, now: int)

  function Run(boot: Scores, presses: seq<Press>): Votes {
    if presses == [] then Votes(boot, map[])
    else
      var p := presses[|presses| - 1];
      Pressed(Run(boot, presses[..|presses| - 1]), p.key, p.direction, p.now)
  }

  function Forgotten(boot: Scores, presses: seq<Press>): nat -> Score {
    if presses == [] then (t: nat) => Score(0, 0)
    else
      var front, p := presses[..|presses| - 1], presses[|presses| - 1];
      Forgetting(Forgotten(boot, front), Dropped(Run(boot, front), p.key, p.direction, p.now))
  }

  /** Over any run of votes, expiries and sweeps, each height's totals are what boot had, plus
      who is remembered holding, plus who was forgotten holding. */
  lemma {:induction false} VotesAreConserved(boot: Scores, presses: seq<Press>)
    ensures Conserved(Run(boot, presses), boot, Forgotten(boot, presses))
  {
    if presses == [] {
      forall t: nat, d: int ensures Holders(map[], t, d) == 0 {
        assert HolderSet(map[], t, d) == {};
      }
    } else {
      var front, p := presses[..|presses| - 1], presses[|presses| - 1];
      VotesAreConserved(boot, front);
      PressConserves(Run(boot, front), boot, Forgotten(boot, front), p.key, p.direction, p.now);
    }
  }

  /** After any run, taking back a held vote lowers its counter by exactly one. */
  lemma {:induction false} FloorIsIdle(boot: Scores, presses: seq<Press>, key: Key, now: int)
    ensures var v := Run(boot, presses);
            && (Holding(v.dedup, key, now) == Some(UP) ==> ScoreOf(v.scores, key.target).up > 0)
            && (Holding(v.dedup, key, now) == Some(DOWN) ==> ScoreOf(v.scores, key.target).down > 0)
  {
    VotesAreConserved(boot, presses);
    var v := Run(boot, presses);
    if key in v.dedup {
      HeldIsCounted(v, boot, Forgotten(boot, presses), key);
    }
  }

  /** Pressing twice restores the totals: within the memory's span exactly when the opposite
      vote was not held, after it exactly when the pressed vote itself was. */
  lemma {:induction false} PressTwice(boot: Scores, presses: seq<Press>, key: Key, direction: int, now: int, later: int)
    requires direction == UP || direction == DOWN
    ensures var v := Run(boot, presses);
            var once := Pressed(v, key, direction, now);
            var twice := Pressed(once, key, direction, later);
            && (later - now <= DEDUP_TTL ==>
                  (ScoreOf(twice.scores, key.target) == ScoreOf(v.scores, key.target)
                   <==> Holding(v.dedup, key, now) != Some(-direction)))
            && (later - now > DEDUP_TTL ==>
                  (ScoreOf(twice.scores, key.target) == ScoreOf(v.scores, key.target)
                   <==> Holding(v.dedup, key, now) == Some(direction)))
  {
    var v := Run(boot, presses);
    FloorIsIdle(boot, presses, key, now);
    HeldAfterSweep(v, key, now);
    HeldAfterSweep(Pressed(v, key, direction, now), key, later);
  }

  // ---------------------------------------------------------------- the counters themselves

  class VoteBook {
    var scores: Scores
    var dedup: Dedup

    ghost function View(): Votes
      reads this
    {
      Votes(scores, dedup)
    }

    constructor (boot: Scores)
      ensures View() == Run(boot, [])
    {
      scores, dedup := boot, map[];
    }

    /** Sweeps the memory entry by entry, in any order. */
    method Sweep(now: int)
      modifies this`dedup
      ensures dedup == Swept(old(dedup), now)
      ensures forall k :: k in old(dedup) ==>
                (k in dedup <==> |old(dedup)| <= 10000 || now - old(dedup)[k].at <= 86_400_000_000_000)
      ensures dedup.Keys <= old(dedup).Keys && forall k :: k in dedup ==> dedup[k] == old(dedup)[k]
    {
      if |dedup| > SWEEP_ABOVE {
        var todo := dedup.Keys;
        while todo != {}
          invariant todo <= old(dedup).Keys
          invariant forall k :: k in dedup <==> k in old(dedup) && (k in todo || !Expired(old(dedup)[k], now))
          invariant forall k :: k in dedup ==> dedup[k] == old(dedup)[k]
          decreases |todo|
        {
          var k :| k in todo;
          todo := todo - {k};
          if now - dedup[k].at > DEDUP_TTL {
            dedup := dedup - {k};
          }
        }
        assert dedup == Swept(old(dedup), now);
      }
    }

    method Dec(v: nat) returns (r: nat)
      ensures r == if v > 0 then v - 1 else v
    {
      r := if v > 0 then v - 1 else v;
    }

    /** Folds one press into the totals and the memory. */
    method ApplyVote(key: Key, direction: int, now: int) returns (total: Score, dup: bool, changed: bool)
      requires Direction(direction)
      modifies this
      ensures View() == Pressed(old(View()), key, direction, now) && total == ScoreOf(scores, key.target)
      ensures changed == Changes(Holding(old(dedup), key, now), direction)
      ensures dup == (direction == WITHDRAW && Holding(old(dedup), key, now) == Some(WITHDRAW))
      ensures var kept := key in old(dedup) && now - old(dedup)[key].at <= 86_400_000_000_000;
              var held := if kept then old(dedup)[key].direction else 0;
              var was := ScoreOf(old(scores), key.target);
              && total.up == (if held == 1 && was.up > 0 then was.up - 1 else was.up)
                             + (if direction == 1 && held != 1 then 1 else 0)
              && total.down == (if held == -1 && was.down > 0 then was.down - 1 else was.down)
                               + (if direction == -1 && held != -1 then 1 else 0)
              && scores == old(scores)[key.target := total]
              && (direction != 0 ==>
                    key in dedup && dedup[key] == Entry(if held == direction then 0 else direction, now))
    {
      HeldAfterSweep(View(), key, now);
      Sweep(now);
      var has := key in dedup && !(now - dedup[key].at > DEDUP_TTL);
      var prev := if key in dedup then dedup[key].direction else 0;
      total := ScoreOf(scores, key.target);
      if has && prev == direction {
        scores := scores[key.target := total];
        if direction == WITHDRAW {
          return total, true, false;
        }
        total := Drop(total, direction);
        WrittenTwice(old(scores), key.target, ScoreOf(old(scores), key.target), total);
        scores := scores[key.target := total];
        dedup := dedup[key := Entry(WITHDRAW, now)];
        return total, false, true;
      }
      scores := scores[key.target := total];
      if has {
        total := Switch(total, prev, direction);
      } else if direction == UP {
        total := total.(up := total.up + 1);
      } else if direction == DOWN {
        total := total.(down := total.down + 1);
      } else {
        return total, false, false;
      }
      WrittenTwice(old(scores), key.target, ScoreOf(old(scores), key.target), total);
      scores := scores[key.target := total];
      dedup := dedup[key := Entry(direction, now)];
      return total, false, true;
    }

    /** A vote taken back, but never below zero. */
    method Drop(s: Score, direction: int) returns (r: Score)
      requires direction == UP || direction == DOWN
      ensures r == Recounted(s, Some(direction), WITHDRAW)
    {
      r := s;
      if direction == UP {
        var up := Dec(r.up);
        r := r.(up := up);
      } else {
        var down := Dec(r.down);
        r := r.(down := down);
      }
    }

    /** Another direction than the held one: the old vote goes, the new one comes. */
    method Switch(s: Score, prev: int, direction: int) returns (r: Score)
      requires Direction(direction) && prev != direction
      ensures r == Recounted(s, Some(prev), direction)
    {
      r := s;
      if direction == WITHDRAW && prev == UP {
        var up := Dec(r.up);
        r := r.(up := up);
      } else if direction == WITHDRAW && prev == DOWN {
        var down := Dec(r.down);
        r := r.(down := down);
      } else if direction == UP && prev == DOWN {
        var down := Dec(r.down);
        r := r.(down := down, up := r.up + 1);
      } else if direction == DOWN && prev == UP {
        var up := Dec(r.up);
        r := r.(up := up, down := r.down + 1);
      } else if direction == UP {
        r := r.(up := r.up + 1);
      } else if direction == DOWN {
        r := r.(down := r.down + 1);
      }
    }
  }
}
