/** Small value types and facts about finite sets and text that every other module uses. */
module Prelude {

  datatype Option<+T> = None | Some(value: T)

  datatype Result<+T, +E> = Ok(value: T) | Err(error: E) {
    predicate IsFailure() {
      Err?
    }

    function PropagateFailure<U>(): Result<U, E>
      requires Err?
    {
      Err(error)
    }

    function Extract(): T
      requires Ok?
    {
      value
    }
  }

  /** Rust's and SQLite's (BINARY collation) order on text. */
  predicate TextLess(a: string, b: string) {
    b != [] && (a == [] || a[0] < b[0] || (a[0] == b[0] && TextLess(a[1..], b[1..])))
  }

  predicate TextAtMost(a: string, b: string) {
    !TextLess(b, a)
  }

  /** `a` ends, or has the smaller character, at the first place where the texts differ. */
  ghost predicate DifferAt(a: string, b: string, k: nat) {
    k <= |a| && k < |b| && a[..k] == b[..k] && (k == |a| || a[k] < b[k])
  }

  lemma {:induction false} TextLessExactly(a: string, b: string)
    ensures TextLess(a, b) <==> exists k: nat :: DifferAt(a, b, k)
  {
    if b != [] && (a == [] || a[0] < b[0]) {
      assert DifferAt(a, b, 0);
    } else if a != [] && b != [] && a[0] == b[0] {
      TextLessExactly(a[1..], b[1..]);
      forall k: nat
        ensures DifferAt(a[1..], b[1..], k) <==> DifferAt(a, b, k + 1)
      {
        if k < |a| && k + 1 < |b| {
          assert a[..k + 1] == [a[0]] + a[1..][..k] && b[..k + 1] == [b[0]] + b[1..][..k];
        }
      }
      if k: nat :| DifferAt(a, b, k) {
        assert k > 0 && DifferAt(a[1..], b[1..], k - 1);
      }
    } else {
      assert forall k: nat :: k > 0 && k <= |a| && k < |b| ==> a[..k][0] != b[..k][0];
    }
  }

  lemma {:induction false} TextLessTotal(a: string, b: string)
    ensures a != b ==> TextLess(a, b) || TextLess(b, a)
    ensures !(TextLess(a, b) && TextLess(b, a))
  {
    if a != [] && b != [] {
      TextLessTotal(a[1..], b[1..]);
      if a[0] == b[0] && a[1..] == b[1..] {
        assert a == [a[0]] + a[1..] && b == [b[0]] + b[1..];
      }
    }
  }

  lemma {:induction false} TextLessTransitive(a: string, b: string, c: string)
    requires TextLess(a, b) && TextLess(b, c)
    ensures TextLess(a, c)
  {
    if a != [] && a[0] == b[0] && b[0] == c[0] {
      TextLessTransitive(a[1..], b[1..], c[1..]);
    }
  }

  ghost predicate TotalOrder<K(!new)>(less: (K, K) -> bool) {
    && (forall a, b :: a != b ==> less(a, b) || less(b, a))
    && (forall a, b :: !(less(a, b) && less(b, a)))
    && (forall a, b, c :: less(a, b) && less(b, c) ==> less(a, c))
  }

  lemma TextLessIsTotalOrder()
    ensures TotalOrder(TextLess)
  {
    forall a, b {:trigger TextLess(a, b)}
      ensures (a != b ==> TextLess(a, b) || TextLess(b, a)) && !(TextLess(a, b) && TextLess(b, a))
    {
      TextLessTotal(a, b);
    }
    forall a, b, c | TextLess(a, b) && TextLess(b, c)
      ensures TextLess(a, c)
    {
      TextLessTransitive(a, b, c);
    }
  }

  predicate IsLeast<K(!new, ==)>(m: K, s: set<K>, less: (K, K) -> bool) {
    m in s && forall k :: k in s && k != m ==> less(m, k)
  }

  lemma {:induction false} LeastExists<K(!new)>(s: set<K>, less: (K, K) -> bool)
    requires TotalOrder(less) && s != {}
    ensures exists m :: m in s && IsLeast(m, s, less)
    ensures forall m, n :: m in s && n in s && IsLeast(m, s, less) && IsLeast(n, s, less) ==> m == n
    decreases |s|
  {
    var x :| x in s;
    if s == {x} {
      assert IsLeast(x, s, less);
    } else {
      LeastExists(s - {x}, less);
      var m :| m in s - {x} && IsLeast(m, s - {x}, less);
      assert IsLeast(if less(m, x) then m else x, s, less);
    }
  }

  /** The keys of a table in the order `ORDER BY` its key lists them. */
  function Ordered<K(!new, ==)>(s: set<K>, less: (K, K) -> bool): (r: seq<K>)
    requires TotalOrder(less)
    ensures |r| == |s|
    ensures forall k :: k in s <==> k in r
    ensures forall i, j :: 0 <= i < j < |r| ==> less(r[i], r[j])
    decreases |s|
  {
    if s == {} then
      []
    else
      LeastExists(s, less);
      var m :| m in s && IsLeast(m, s, less);
      var rest := Ordered(s - {m}, less);
      assert forall k :: k in s <==> k in [m] + rest;
      [m] + rest
  }

  function Only<T>(s: set<T>): (x: T)
    requires |s| == 1
    ensures s == {x}
  {
    SingletonIsUnique(s);
    var x :| x in s;
    x
  }

  lemma SingletonIsUnique<T>(s: set<T>)
    requires |s| == 1
    ensures forall x, y :: x in s && y in s ==> x == y
    ensures forall x :: x in s ==> s == {x}
  {
    var x :| x in s;
    assert |s - {x}| == 0;
    assert s == {x};
  }

  lemma {:induction false} PrefixesOfEqualLength<T>(a: seq<T>, b: seq<T>, x: seq<T>, y: seq<T>)
    requires a + x == b + y && |a| == |b|
    ensures a == b && x == y
  {
    assert a == (a + x)[..|a|] && b == (b + y)[..|b|];
    assert x == (a + x)[|a|..] && y == (b + y)[|b|..];
  }
}
