/** Small vocabulary shared by every module: options, bytes, and the tail window of a sequence. */
module Basics {

  datatype Option<+T> = None | Some(value: T)

  newtype Byte = b: int | 0 <= b < 256

  type Bytes = seq<Byte>

  /** The last n elements of s, or all of them when there are fewer. */
  function LastN<T>(s: seq<T>, n: nat): (r: seq<T>)
    ensures |r| == if |s| <= n then |s| else n
  {
    if |s| <= n then s else s[|s| - n..]
  }

  function Reverse<T>(s: seq<T>): (r: seq<T>)
    ensures |r| == |s|
  {
    if s == [] then [] else Reverse(s[1..]) + [s[0]]
  }

  lemma ConcatAssoc<T>(x: seq<T>, y: seq<T>, z: seq<T>)
    ensures (x + y) + z == x + (y + z)
  {
  }

  function Flatten<T>(ss: seq<seq<T>>): seq<T> {
    if ss == [] then [] else ss[0] + Flatten(ss[1..])
  }

  lemma {:induction false} FlattenAppend<T>(ss: seq<seq<T>>, s: seq<T>)
    ensures Flatten(ss + [s]) == Flatten(ss) + s
  {
    if ss == [] {
      assert ss + [s] == [s];
      assert Flatten([s]) == s + Flatten<T>([]);
    } else {
      assert (ss + [s])[1..] == ss[1..] + [s];
      FlattenAppend(ss[1..], s);
    }
  }

  lemma {:induction false} ReverseAppend<T>(s: seq<T>, x: T)
    ensures Reverse(s + [x]) == [x] + Reverse(s)
  {
    if s == [] {
      assert s + [x] == [x];
    } else {
      assert (s + [x])[1..] == s[1..] + [x];
      ReverseAppend(s[1..], x);
    }
  }

  /** Capping a front part at n loses nothing a final cap at n would keep. */
  lemma LastNOfCapped<T>(a: seq<T>, b: seq<T>, n: nat)
    ensures LastN(LastN(a, n) + b, n) == LastN(a + b, n)
  {
  }

  lemma LastNTail<T>(a: seq<T>, b: seq<T>, n: nat)
    ensures LastN(a + LastN(b, n), n) == LastN(a + b, n)
  {
    if |b| > n {
      assert LastN(a + LastN(b, n), n) == LastN(b, n);
    }
  }

  /** `at` are positions in s, and these are the elements there. */
  predicate Picks<T(==)>(s: seq<T>, at: seq<nat>, picked: seq<T>) {
    |at| == |picked| && forall k :: 0 <= k < |at| ==> at[k] < |s| && picked[k] == s[at[k]]
  }

  predicate Rises(at: seq<nat>) {
    forall j, k :: 0 <= j < k < |at| ==> at[j] < at[k]
  }

  predicate Falls(at: seq<nat>) {
    forall j, k :: 0 <= j < k < |at| ==> at[j] > at[k]
  }

  lemma InMore(at: seq<nat>, n: nat, i: nat)
    ensures i in at + [n] <==> i in at || i == n
    ensures i in [n] + at <==> i in at || i == n
  {
  }

  lemma PicksMore<T>(s: seq<T>, x: T, at: seq<nat>, picked: seq<T>)
    requires Picks(s, at, picked)
    ensures Picks(s + [x], at, picked)
    ensures Picks(s + [x], at + [|s|], picked + [x]) && Picks(s + [x], [|s|] + at, [x] + picked)
    ensures Rises(at) ==> Rises(at + [|s|])
    ensures Falls(at) ==> Falls([|s|] + at)
    ensures |s| !in at
  {
  }
}
