/** The refill round trip: what the client asks for, what the server finds in RAM, and what
    the client makes of it. */
module RefillRoundTrip {
  import opened Basics
  import opened WireModel
  import opened HashChain
  import opened Refill
  import opened Tracker
  import opened TrackerSafety
  import opened TrackerGenuine

  /** RAM history holds log wires in rising height order, with other lines between. */
  ghost predicate StoresLog(c: Codec, log: seq<Wire>, history: seq<string>) {
    && (forall i :: 0 <= i < |history| && c.TextHeight(history[i]) != 0 ==>
          c.TextHeight(history[i]) <= |log|
          && c.unmarshal(history[i]) == Some(log[c.TextHeight(history[i]) - 1])
          && !log[c.TextHeight(history[i]) - 1].hash.Absent?)
    && (forall i, j :: 0 <= i < j < |history| && c.TextHeight(history[i]) != 0 && c.TextHeight(history[j]) != 0
          ==> c.TextHeight(history[i]) < c.TextHeight(history[j]))
  }

  predicate Stored(c: Codec, history: seq<string>, h: nat) {
    exists i :: 0 <= i < |history| && c.TextHeight(history[i]) == h
  }

  /** The wires of chained lines. */
  function WiresOf(c: Codec, texts: seq<string>): seq<Wire>
    requires forall t :: t in texts ==> c.unmarshal(t).Some?
  {
    if texts == [] then [] else WiresOf(c, texts[..|texts| - 1]) + [c.unmarshal(texts[|texts| - 1]).value]
  }

  lemma {:induction false} LinesAreStored(c: Codec, history: seq<string>, rs: seq<HeightRange>, maxTo: nat)
    ensures forall t :: t in LinesIn(c, history, rs, maxTo) ==> t in history && c.TextHeight(t) != 0
    ensures forall t :: t in LinesIn(c, history, rs, maxTo) ==> c.unmarshal(t).Some?
  {
    if history != [] {
      LinesAreStored(c, history[..|history| - 1], rs, maxTo);
    }
  }

  lemma {:induction false} WiresAt(c: Codec, texts: seq<string>, t: string)
    requires forall t :: t in texts ==> c.unmarshal(t).Some?
    requires c.unmarshal(t).Some?
    ensures WiresOf(c, texts + [t]) == WiresOf(c, texts) + [c.unmarshal(t).value]
  {
    assert (texts + [t])[..|texts|] == texts;
  }

  lemma StoredStep(c: Codec, front: seq<string>, last: string, x: nat)
    ensures Stored(c, front + [last], x) <==> Stored(c, front, x) || c.TextHeight(last) == x
  {
    var all := front + [last];
    assert all[|front|] == last;
    assert forall i :: 0 <= i < |front| ==> all[i] == front[i];
    if Stored(c, front, x) {
      var i :| 0 <= i < |front| && c.TextHeight(front[i]) == x;
      assert c.TextHeight(all[i]) == x;
    }
  }

  lemma StoresPrefix(c: Codec, log: seq<Wire>, front: seq<string>, last: string)
    requires StoresLog(c, log, front + [last])
    ensures StoresLog(c, log, front)
    ensures var h := c.TextHeight(last);
            h != 0 ==>
              && h <= |log| && c.unmarshal(last) == Some(log[h - 1]) && !log[h - 1].hash.Absent?
              && log[h - 1].height == h
              && forall x: nat :: Stored(c, front, x) ==> x < h
  {
    var all, h := front + [last], c.TextHeight(last);
    assert all[|front|] == last;
    assert forall i :: 0 <= i < |front| ==> all[i] == front[i];
    if h != 0 {
      forall x: nat | Stored(c, front, x) ensures x < h {
        var i :| 0 <= i < |front| && c.TextHeight(front[i]) == x;
        if x != 0 {
          assert c.TextHeight(all[i]) < c.TextHeight(all[|front|]);
        }
      }
    }
  }

  /** The heights a lookup finds in a history. */
  ghost predicate Found(c: Codec, history: seq<string>, rs: seq<HeightRange>, maxTo: nat, found: set<nat>) {
    forall h: nat :: h in found <==> h != 0 && h <= maxTo && InRanges(rs, h) && Stored(c, history, h)
  }

  lemma FoundStep(c: Codec, front: seq<string>, last: string, rs: seq<HeightRange>, maxTo: nat, found: set<nat>)
    requires Found(c, front + [last], rs, maxTo, found)
    requires c.TextHeight(last) != 0 ==> !Stored(c, front, c.TextHeight(last))
    ensures Found(c, front, rs, maxTo, if Wanted(c, last, rs, maxTo) then found - {c.TextHeight(last)} else found)
    ensures Wanted(c, last, rs, maxTo) ==> c.TextHeight(last) in found
  {
    forall x: nat ensures Stored(c, front + [last], x) <==> Stored(c, front, x) || c.TextHeight(last) == x {
      StoredStep(c, front, last, x);
    }
  }

  /** One more stored wire, higher than all found so far. */
  lemma AnswerMore(c: Codec, log: seq<Wire>, found: set<nat>, lines: seq<string>, last: string, h: nat)
    requires forall t :: t in lines ==> c.unmarshal(t).Some?
    requires h in found && IsAnswer(log, found - {h}, WiresOf(c, lines)) && forall x :: x in found - {h} ==> x < h
    requires 0 < h <= |log| && c.unmarshal(last) == Some(log[h - 1]) && log[h - 1].height == h
             && !log[h - 1].hash.Absent?
    ensures forall t :: t in lines + [last] ==> c.unmarshal(t).Some?
    ensures IsAnswer(log, found, WiresOf(c, lines + [last]))
  {
    WiresAt(c, lines, last);
    AddAnswer(log, found - {h}, WiresOf(c, lines), log[h - 1], h);
    assert found - {h} + {h} == found;
  }

  lemma LastOf(history: seq<string>)
    requires history != []
    ensures history == history[..|history| - 1] + [history[|history| - 1]]
  {
  }

  /** The lines found at the asked heights are the log's wires at those heights that are
      stored, lowest first. */
  lemma {:induction false} FoundIsAnswer(c: Codec, log: seq<Wire>, history: seq<string>, rs: seq<HeightRange>,
                                         maxTo: nat, found: set<nat>)
    requires StoresLog(c, log, history) && Found(c, history, rs, maxTo, found)
    ensures forall t :: t in LinesIn(c, history, rs, maxTo) ==> c.unmarshal(t).Some?
    ensures IsAnswer(log, found, WiresOf(c, LinesIn(c, history, rs, maxTo)))
  {
    LinesAreStored(c, history, rs, maxTo);
    if history == [] {
      assert found == {};
    } else {
      var front, last := history[..|history| - 1], history[|history| - 1];
      var h := c.TextHeight(last);
      LastOf(history);
      StoresPrefix(c, log, front, last);
      FoundStep(c, front, last, rs, maxTo, found);
      if Wanted(c, last, rs, maxTo) {
        FoundIsAnswer(c, log, front, rs, maxTo, found - {h});
        AnswerMore(c, log, found, LinesIn(c, front, rs, maxTo), last, h);
      } else {
        FoundIsAnswer(c, log, front, rs, maxTo, found);
      }
    }
  }

  lemma AddAnswer(log: seq<Wire>, found: set<nat>, answer: seq<Wire>, w: Wire, h: nat)
    requires IsAnswer(log, found, answer) && 0 < h <= |log| && w == log[h - 1] && w.height == h && !w.hash.Absent?
    requires forall x :: x in found ==> x < h
    ensures IsAnswer(log, found + {h}, answer + [w])
  {
    var answer' := answer + [w];
    forall i | 0 <= i < |answer| ensures answer[i].height < h {
      assert answer[i].height in found;
    }
    forall x ensures x in found + {h} <==> exists i :: 0 <= i < |answer'| && answer'[i].height == x {
      assert answer'[|answer|].height == h;
      if x in found {
        var i :| 0 <= i < |answer| && answer[i].height == x;
        assert answer'[i].height == x;
      }
    }
  }

  lemma {:induction false} WiresSize(c: Codec, texts: seq<string>)
    requires forall t :: t in texts ==> c.unmarshal(t).Some?
    ensures |WiresOf(c, texts)| == |texts|
    ensures forall i :: 0 <= i < |texts| ==> WiresOf(c, texts)[i] == c.unmarshal(texts[i]).value
  {
    if texts != [] {
      WiresSize(c, texts[..|texts| - 1]);
    }
  }

  /** Ask for the missing runs with the client's own limit, look them up in RAM, process the
      answer: nothing is missing any more. Needs every missing line still in RAM. */
  lemma {:induction false} RefillRoundTrips(c: Codec, hs: Hasher, cfg: Config, start: Digest, log: seq<Wire>,
                                            history: seq<string>, s: State, runs: seq<HeightRange>, maxTo: nat)
    requires ServerLog(hs, start, log) && Sound(hs, s.core) && Real(hs, start, log, s.core)
             && StoresLog(c, log, history)
    requires s.core.pending.Some? && s.inRecover
    requires Separated(runs) && forall h :: h in s.core.pending.value.missing <==> InRanges(runs, h)
    requires runs != [] ==> IsScanLimit(runs, maxTo)
    requires forall h :: h in s.core.pending.value.missing ==> Stored(c, history, h)
    ensures ValidRanges(runs) == runs
    ensures var p := s.core.pending.value;
            var lines := FirstN(LinesIn(c, history, runs, maxTo), |p.missing|);
            && |lines| == |p.missing|
            && (forall t :: t in lines ==> c.unmarshal(t).Some?)
            && var s' := Run(hs, cfg, s, Frames(WiresOf(c, lines)));
            && s'.core.pending.Some? && s'.core.pending.value.missing == {}
            && s'.core.pending.value.failed == p.failed && s'.inOlder == s.inOlder
  {
    var missing := s.core.pending.value.missing;
    RunsAreCovered(missing, runs, maxTo);
    FoundIsAnswer(c, log, history, runs, maxTo, missing);
    var lines := LinesIn(c, history, runs, maxTo);
    AnswerSize(log, missing, WiresOf(c, lines));
    WiresSize(c, lines);
    AnswerEmptiesWindow(hs, cfg, start, log, s, WiresOf(c, lines));
  }
}
