/** Loops over sequences in the shape the services write them: a `for` loop
    whose body may raise (the first failure aborts the whole loop), and a
    loop that appends only some of its elements. */
module Collect {
  import opened Wrappers

  /** Apply `f` to every element in order; the first failure is the result. */
  function MapResult<T, U>(xs: seq<T>, f: T -> Result<U>): (r: Result<seq<U>>)
    ensures r.Ok? ==> |r.value| == |xs|
    ensures r.Ok? ==> forall i :: 0 <= i < |xs| ==> f(xs[i]) == Ok(r.value[i])
    ensures r.Err? ==> exists i :: 0 <= i < |xs| && f(xs[i]) == Err(r.msg)
                                   && forall j :: 0 <= j < i ==> f(xs[j]).Ok?
    ensures r.Ok? <==> forall i :: 0 <= i < |xs| ==> f(xs[i]).Ok?
  {
    if |xs| == 0 then Ok([])
    else
      match f(xs[0])
      case Err(e) => Err(e)
      case Ok(y) =>
        match MapResult(xs[1..], f)
        case Err(e) =>
          assert forall j :: 1 <= j < |xs| ==> xs[1..][j - 1] == xs[j];
          Err(e)
        case Ok(ys) => Ok([y] + ys)
  }

  /** The present values from position `from` on, in order. */
  function SomesFrom<T>(xs: seq<Option<T>>, from: nat): (r: seq<T>)
    requires from <= |xs|
    ensures |r| <= |xs| - from
    decreases |xs| - from
  {
    if from == |xs| then []
    else if xs[from].Some? then [xs[from].value] + SomesFrom(xs, from + 1)
    else SomesFrom(xs, from + 1)
  }

  /** The present values, in order. */
  function Somes<T>(xs: seq<Option<T>>): (r: seq<T>)
    ensures |r| <= |xs|
  {
    SomesFrom(xs, 0)
  }

  /** The positions, from `from` on, that hold a value, in increasing order. */
  function IndicesFrom<T>(xs: seq<Option<T>>, from: nat): (r: seq<nat>)
    requires from <= |xs|
    ensures forall k :: 0 <= k < |r| ==> from <= r[k] < |xs| && xs[r[k]].Some?
    ensures forall i :: from <= i < |xs| && xs[i].Some? ==> i in r
    ensures forall a, b :: 0 <= a < b < |r| ==> r[a] < r[b]
    decreases |xs| - from
  {
    if from == |xs| then []
    else if xs[from].Some? then [from] + IndicesFrom(xs, from + 1)
    else IndicesFrom(xs, from + 1)
  }

  /** The positions that hold a value, in increasing order. */
  function SomeIndices<T>(xs: seq<Option<T>>): (r: seq<nat>)
    ensures forall k :: 0 <= k < |r| ==> r[k] < |xs| && xs[r[k]].Some?
    ensures forall i :: 0 <= i < |xs| && xs[i].Some? ==> i in r
    ensures forall a, b :: 0 <= a < b < |r| ==> r[a] < r[b]
  {
    IndicesFrom(xs, 0)
  }

  lemma {:induction false} SomesIndicesSameLength<T>(xs: seq<Option<T>>, from: nat)
    requires from <= |xs|
    ensures |SomesFrom(xs, from)| == |IndicesFrom(xs, from)|
    decreases |xs| - from
  {
    if from < |xs| {
      SomesIndicesSameLength(xs, from + 1);
    }
  }

  /** The k-th present value from `from` on sits at the k-th index found. */
  lemma {:induction false} SomeAtIndexFrom<T>(xs: seq<Option<T>>, from: nat, k: nat)
    requires from <= |xs|
    ensures k < |SomesFrom(xs, from)| ==>
              k < |IndicesFrom(xs, from)| && xs[IndicesFrom(xs, from)[k]] == Some(SomesFrom(xs, from)[k])
    decreases |xs| - from
  {
    if from < |xs| {
      if xs[from].Some? && k > 0 {
        SomeAtIndexFrom(xs, from + 1, k - 1);
      } else if xs[from].None? {
        SomeAtIndexFrom(xs, from + 1, k);
      }
    }
  }

  lemma SomesAtIndicesFrom<T>(xs: seq<Option<T>>, from: nat)
    requires from <= |xs|
    ensures |SomesFrom(xs, from)| == |IndicesFrom(xs, from)|
    ensures forall k :: 0 <= k < |SomesFrom(xs, from)| ==>
              xs[IndicesFrom(xs, from)[k]] == Some(SomesFrom(xs, from)[k])
  {
    SomesIndicesSameLength(xs, from);
    forall k | 0 <= k < |SomesFrom(xs, from)|
      ensures xs[IndicesFrom(xs, from)[k]] == Some(SomesFrom(xs, from)[k])
    {
      SomeAtIndexFrom(xs, from, k);
    }
  }

  /** `Somes` keeps exactly the present values, in their order: the k-th
      kept value sits at the k-th position that holds a value. */
  lemma SomesAtIndices<T>(xs: seq<Option<T>>)
    ensures |Somes(xs)| == |SomeIndices(xs)|
    ensures forall k :: 0 <= k < |Somes(xs)| ==> xs[SomeIndices(xs)[k]] == Some(Somes(xs)[k])
  {
    SomesAtIndicesFrom(xs, 0);
  }
}
