/** The circular window of server/history.go: it keeps the last `limit` lines fed to
    it and refuses everything from the first chained height at or above a cutoff. */
module WindowRings {
  import opened Basics
  import opened WireModel

  /** Does this line end the window? A zero cutoff never cuts. */
  predicate Cuts(c: Codec, text: string, before: nat) {
    before != 0 && c.TextHeight(text) != 0 && c.TextHeight(text) >= before
  }

  /** The lines standing before the first one that cuts. */
  function Upto(c: Codec, texts: seq<string>, before: nat): (r: seq<string>)
    ensures |r| <= |texts|
  {
    if texts == [] || Cuts(c, texts[0], before) then [] else [texts[0]] + Upto(c, texts[1..], before)
  }

  predicate Reached(c: Codec, texts: seq<string>, before: nat) {
    |Upto(c, texts, before)| < |texts|
  }

  /** What Upto means: everything before the first cutting line, and no more. */
  lemma {:induction false} UptoMeaning(c: Codec, texts: seq<string>, before: nat)
    ensures Upto(c, texts, before) == texts[..|Upto(c, texts, before)|]
    ensures forall i :: 0 <= i < |Upto(c, texts, before)| ==> !Cuts(c, texts[i], before)
    ensures Reached(c, texts, before) ==> Cuts(c, texts[|Upto(c, texts, before)|], before)
  {
    if texts != [] && !Cuts(c, texts[0], before) {
      UptoMeaning(c, texts[1..], before);
      var k := |Upto(c, texts[1..], before)|;
      assert texts[..k + 1] == [texts[0]] + texts[1..][..k];
    }
  }

  lemma {:induction false} UptoConcat(c: Codec, a: seq<string>, b: seq<string>, before: nat)
    ensures Reached(c, a, before) ==> Upto(c, a + b, before) == Upto(c, a, before)
    ensures !Reached(c, a, before) ==> Upto(c, a, before) == a && Upto(c, a + b, before) == a + Upto(c, b, before)
    ensures Reached(c, a + b, before) <==> Reached(c, a, before) || Reached(c, b, before)
  {
    if a == [] {
      assert a + b == b;
    } else if !Cuts(c, a[0], before) {
      assert (a + b)[1..] == a[1..] + b;
      UptoConcat(c, a[1..], b, before);
    }
  }

  lemma {:induction false} UptoClear(c: Codec, texts: seq<string>, before: nat)
    requires forall i :: 0 <= i < |texts| ==> !Cuts(c, texts[i], before)
    ensures Upto(c, texts, before) == texts
  {
    if texts != [] {
      UptoClear(c, texts[1..], before);
    }
  }

  /** `shown` and `done` are what a window of `limit` lines started from `base` holds
      after being fed `fed`. */
  predicate Windowed(c: Codec, base: seq<string>, fed: seq<string>, before: nat, limit: nat,
                     shown: seq<string>, done: bool)
  {
    shown == LastN(base + Upto(c, fed, before), limit) && done == Reached(c, fed, before)
  }

  lemma WindowStep(c: Codec, base: seq<string>, fed: seq<string>, text: string, before: nat, limit: nat,
                   shown: seq<string>, done: bool, shown': seq<string>)
    requires Windowed(c, base, fed, before, limit, shown, done)
    requires shown' == if done || Cuts(c, text, before) then shown else LastN(shown + [text], limit)
    ensures Windowed(c, base, fed + [text], before, limit, shown', done || Cuts(c, text, before))
  {
    UptoMore(c, fed, text, before);
    if !done && !Cuts(c, text, before) {
      LastNOfCapped(base + fed, [text], limit);
      assert base + fed + [text] == base + (fed + [text]);
    }
  }

  lemma UptoMore(c: Codec, fed: seq<string>, text: string, before: nat)
    ensures Reached(c, fed + [text], before) <==> Reached(c, fed, before) || Cuts(c, text, before)
    ensures Upto(c, fed + [text], before) ==
              if Reached(c, fed, before) || Cuts(c, text, before) then Upto(c, fed, before) else fed + [text]
    ensures !Reached(c, fed, before) ==> Upto(c, fed, before) == fed
  {
    UptoConcat(c, fed, [text], before);
    UptoOne(c, text, before);
    assert fed + [] == fed;
  }

  lemma UptoOne(c: Codec, text: string, before: nat)
    ensures Upto(c, [text], before) == if Cuts(c, text, before) then [] else [text]
  {
    assert [text][1..] == [];
  }

  /** Once the cutoff is reached, what follows makes no difference. */
  lemma WindowClosed(c: Codec, base: seq<string>, fed: seq<string>, rest: seq<string>, before: nat, limit: nat,
                     shown: seq<string>)
    requires Windowed(c, base, fed, before, limit, shown, true)
    ensures Windowed(c, base, fed + rest, before, limit, shown, true)
  {
    UptoConcat(c, fed, rest, before);
  }

  class WindowRing {
    var buf: seq<string>
    var start: nat
    var n: nat
    const limit: nat
    var done: bool

    ghost predicate Valid()
      reads this
    {
      && n == |buf| <= limit
      && (n < limit ==> start == 0)
      && (limit == 0 ==> start == 0)
      && (limit > 0 ==> start < limit)
    }

    /** The window, oldest line first. */
    ghost function Contents(): seq<string>
      reads this
      requires Valid()
    {
      buf[start..] + buf[..start]
    }

    constructor (limit: int)
      ensures Valid() && Contents() == [] && !done
      ensures this.limit == if limit < 0 then 0 else limit
    {
      this.limit := if limit < 0 then 0 else limit;
      buf, start, n, done := [], 0, 0, false;
    }

    /** Adds one line unless it, or an earlier one, reached the cutoff. */
    method Feed(c: Codec, text: string, before: nat) returns (cut: bool)
      requires Valid()
      modifies this
      ensures Valid()
      ensures cut == done == (old(done) || Cuts(c, text, before))
      ensures Contents() == if cut then old(Contents()) else LastN(old(Contents()) + [text], limit)
    {
      if done {
        return true;
      }
      if before != 0 {
        var h := c.TextHeight(text);
        if h != 0 && h >= before {
          done := true;
          return true;
        }
      }
      if limit == 0 {
        return false;
      }
      Put(text);
      return false;
    }

    /** Appends while there is room, then overwrites the oldest line. */
    method Put(text: string)
      requires Valid() && limit > 0
      modifies this`buf, this`start, this`n
      ensures Valid() && Contents() == LastN(old(Contents()) + [text], limit)
    {
      ghost var was := Contents();
      if n < limit {
        buf := buf + [text];
        n := n + 1;
        assert Contents() == was + [text];
      } else {
        Wrap(start + 1, limit);
        buf := buf[start := text];
        start := (start + 1) % limit;
        assert Contents() == was[1..] + [text];
      }
    }

    method Drain() returns (out: seq<string>)
      requires Valid()
      ensures out == Contents()
    {
      out := [];
      for i := 0 to n
        invariant out == Contents()[..i]
      {
        Wrap(start + i, limit);
        out := out + [buf[(start + i) % limit]];
      }
    }
  }

  lemma Wrap(x: nat, m: nat)
    requires x < 2 * m
    ensures x % m == if x < m then x else x - m
  {
    if x >= m {
      assert x == (x - m) + 1 * m;
    }
  }

}
