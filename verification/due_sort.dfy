/** Stable sorting by an optional due date. The dashboard's comparator and the
    store's `sort({ dueDate: ±1 })` are both instances: the direction among dated
    elements and the side on which undated elements end up. */
module DueSort {
  import opened Wrappers

  datatype Direction = Ascending | Descending
  datatype Placement = UndatedFirst | UndatedLast
  datatype Order = Order(dir: Direction, undated: Placement)

  /** `a` may stand before `b` under order `o`: the comparator returns a value
      `<= 0` for the pair. */
  predicate Precedes(o: Order, a: Option<int>, b: Option<int>)
  {
    match (a, b)
    case (None, None) => true
    case (None, Some(_)) => o.undated == UndatedFirst
    case (Some(_), None) => o.undated == UndatedLast
    case (Some(x), Some(y)) => if o.dir == Ascending then x <= y else y <= x
  }

  /** Every pair of positions is in order. */
  ghost predicate SortedBy<T>(s: seq<T>, due: T -> Option<int>, o: Order)
  {
    forall i, j :: 0 <= i < j < |s| ==> Precedes(o, due(s[i]), due(s[j]))
  }

  /** Puts `x` before the first element it may precede. */
  function Insert<T>(x: T, s: seq<T>, due: T -> Option<int>, o: Order): seq<T>
  {
    if s == [] then [x]
    else if Precedes(o, due(x), due(s[0])) then [x] + s
    else [s[0]] + Insert(x, s[1..], due, o)
  }

  /** Insertion sort: each element goes in front of the already sorted rest,
      before the elements it compares equal to, so equal keys keep their
      original relative order. */
  function Sort<T>(s: seq<T>, due: T -> Option<int>, o: Order): seq<T>
  {
    if s == [] then [] else Insert(s[0], Sort(s[1..], due, o), due, o)
  }

  lemma {:induction false} InsertPermutes<T>(x: T, s: seq<T>, due: T -> Option<int>, o: Order)
    ensures multiset(Insert(x, s, due, o)) == multiset(s) + multiset{x}
  {
    if s != [] && !Precedes(o, due(x), due(s[0])) {
      InsertPermutes(x, s[1..], due, o);
      assert s == [s[0]] + s[1..];
    }
  }

  lemma {:induction false} InsertSorted<T>(x: T, s: seq<T>, due: T -> Option<int>, o: Order)
    requires SortedBy(s, due, o)
    ensures SortedBy(Insert(x, s, due, o), due, o)
  {
    if s != [] && !Precedes(o, due(x), due(s[0])) {
      var rest := Insert(x, s[1..], due, o);
      InsertSorted(x, s[1..], due, o);
      InsertPermutes(x, s[1..], due, o);
      forall k | 0 <= k < |rest|
        ensures Precedes(o, due(s[0]), due(rest[k]))
      {
        assert rest[k] in multiset(rest);
        if rest[k] != x {
          assert rest[k] in multiset(s[1..]);
          var m :| 0 <= m < |s[1..]| && s[1..][m] == rest[k];
          assert s[m + 1] == rest[k];
        }
      }
    }
  }

  /** The sort returns a rearrangement of its input that is in order. */
  lemma {:induction false} SortCorrect<T>(s: seq<T>, due: T -> Option<int>, o: Order)
    ensures multiset(Sort(s, due, o)) == multiset(s)
    ensures |Sort(s, due, o)| == |s|
    ensures SortedBy(Sort(s, due, o), due, o)
  {
    if s != [] {
      SortCorrect(s[1..], due, o);
      InsertPermutes(s[0], Sort(s[1..], due, o), due, o);
      InsertSorted(s[0], Sort(s[1..], due, o), due, o);
      assert s == [s[0]] + s[1..];
    }
    assert |Sort(s, due, o)| == |multiset(Sort(s, due, o))|;
  }

  /** No two elements share a key. */
  ghost predicate DistinctBy<T, K>(s: seq<T>, key: T -> K)
  {
    forall i, j :: 0 <= i < j < |s| ==> key(s[i]) != key(s[j])
  }

  lemma {:induction false} InsertDistinct<T, K>(x: T, s: seq<T>, due: T -> Option<int>, o: Order, key: T -> K)
    requires DistinctBy(s, key)
    requires forall k :: 0 <= k < |s| ==> key(s[k]) != key(x)
    ensures DistinctBy(Insert(x, s, due, o), key)
  {
    if s != [] && !Precedes(o, due(x), due(s[0])) {
      var rest := Insert(x, s[1..], due, o);
      InsertDistinct(x, s[1..], due, o, key);
      InsertPermutes(x, s[1..], due, o);
      forall k | 0 <= k < |rest|
        ensures key(s[0]) != key(rest[k])
      {
        assert rest[k] in multiset(rest);
        if rest[k] != x {
          assert rest[k] in multiset(s[1..]);
          var m :| 0 <= m < |s[1..]| && s[1..][m] == rest[k];
          assert s[m + 1] == rest[k];
        }
      }
    }
  }

  /** Sorting never makes two elements share a key. */
  lemma {:induction false} SortDistinct<T, K>(s: seq<T>, due: T -> Option<int>, o: Order, key: T -> K)
    requires DistinctBy(s, key)
    ensures DistinctBy(Sort(s, due, o), key)
  {
    if s != [] {
      var rest := Sort(s[1..], due, o);
      SortDistinct(s[1..], due, o, key);
      SortCorrect(s[1..], due, o);
      forall k | 0 <= k < |rest|
        ensures key(rest[k]) != key(s[0])
      {
        assert rest[k] in multiset(s[1..]);
        var m :| 0 <= m < |s[1..]| && s[1..][m] == rest[k];
        assert s[m + 1] == rest[k];
      }
      InsertDistinct(s[0], rest, due, o, key);
    }
  }

  /** Under an "undated last" order, no undated element precedes a dated one. */
  lemma UndatedLastInSorted<T>(s: seq<T>, due: T -> Option<int>, o: Order, i: int, j: int)
    requires o.undated == UndatedLast
    requires SortedBy(s, due, o)
    requires 0 <= i < j < |s| && due(s[j]).Some?
    ensures due(s[i]).Some?
  {
    assert Precedes(o, due(s[i]), due(s[j]));
  }
}
