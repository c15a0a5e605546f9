/** Small shared notions: optional values, order-preserving de-duplication and sorted listings. */
module Base {

  datatype Option<+T> = None | Some(value: T)

  /** `list(dict.fromkeys(s))`: keep the first occurrence of every element. */
  function Dedup<T(==,!new)>(s: seq<T>): (r: seq<T>)
    ensures forall x :: x in r <==> x in s
    ensures r == [] <==> s == []
  {
    if s == [] then []
    else
      var front := Dedup(s[..|s| - 1]);
      assert forall x :: x in s <==> x in s[..|s| - 1] || x == s[|s| - 1];
      if s[|s| - 1] in front then front else front + [s[|s| - 1]]
  }

  ghost predicate NoDuplicates<T>(s: seq<T>) {
    forall i, j :: 0 <= i < j < |s| ==> s[i] != s[j]
  }

  /** De-duplication changes nothing when every element already occurs once. */
  lemma {:induction false} DedupOfDistinct<T(!new)>(s: seq<T>)
    requires NoDuplicates(s)
    ensures Dedup(s) == s
  {
    if s != [] {
      DedupOfDistinct(s[..|s| - 1]);
      assert s == s[..|s| - 1] + [s[|s| - 1]];
    }
  }

  lemma {:induction false} DedupIsDistinct<T(!new)>(s: seq<T>)
    ensures NoDuplicates(Dedup(s))
  {
    if s != [] {
      DedupIsDistinct(s[..|s| - 1]);
    }
  }

  /** The code-point order Python's `sorted` uses on strings. */
  predicate TextLeq(a: string, b: string) {
    a == "" || (b != "" && (a[0] < b[0] || (a[0] == b[0] && TextLeq(a[1..], b[1..]))))
  }

  lemma {:induction false} TextLeqTotal(a: string, b: string)
    ensures TextLeq(a, b) || TextLeq(b, a)
  {
    if a != "" && b != "" && a[0] == b[0] {
      TextLeqTotal(a[1..], b[1..]);
    }
  }

  lemma {:induction false} TextLeqAntisymmetric(a: string, b: string)
    requires TextLeq(a, b) && TextLeq(b, a)
    ensures a == b
  {
    if a != "" {
      TextLeqAntisymmetric(a[1..], b[1..]);
      assert a == [a[0]] + a[1..] && b == [b[0]] + b[1..];
    }
  }

  lemma {:induction false} TextLeqTransitive(a: string, b: string, c: string)
    requires TextLeq(a, b) && TextLeq(b, c)
    ensures TextLeq(a, c)
  {
    if a != "" && a[0] == b[0] && b[0] == c[0] {
      TextLeqTransitive(a[1..], b[1..], c[1..]);
    }
  }

  predicate IsLeast(m: string, s: set<string>) {
    m in s && forall x :: x in s ==> TextLeq(m, x)
  }

  lemma {:induction false} LeastExists(s: set<string>)
    requires s != {}
    ensures exists m :: IsLeast(m, s)
  {
    var x :| x in s;
    TextLeqTotal(x, x);
    if s != {x} {
      LeastExists(s - {x});
      var m :| IsLeast(m, s - {x});
      TextLeqTotal(x, m);
      if TextLeq(x, m) {
        forall y | y in s ensures TextLeq(x, y) {
          if y != x { TextLeqTransitive(x, m, y); }
        }
        assert IsLeast(x, s);
      } else {
        assert IsLeast(m, s);
      }
    } else {
      assert IsLeast(x, s);
    }
  }

  lemma LeastIsUnique(s: set<string>, a: string, b: string)
    requires IsLeast(a, s) && IsLeast(b, s)
    ensures a == b
  {
    TextLeqAntisymmetric(a, b);
  }

  /** `sorted(s)`: depends on the set alone, so never on the order the elements were met in. */
  function Sorted(s: set<string>): (r: seq<string>)
    ensures forall x :: x in r <==> x in s
  {
    if s == {} then []
    else
      LeastExists(s);
      assert forall a, b :: IsLeast(a, s) && IsLeast(b, s) ==> a == b by {
        forall a, b | IsLeast(a, s) && IsLeast(b, s) ensures a == b { LeastIsUnique(s, a, b); }
      }
      var m :| IsLeast(m, s);
      [m] + Sorted(s - {m})
  }

  lemma {:induction false} SortedAscends(s: set<string>)
    ensures forall i, j :: 0 <= i < j < |Sorted(s)| ==> TextLeq(Sorted(s)[i], Sorted(s)[j])
  {
    if s != {} {
      LeastExists(s);
      var m :| IsLeast(m, s) && Sorted(s) == [m] + Sorted(s - {m});
      SortedAscends(s - {m});
    }
  }

  lemma {:induction false} SortedDistinct(s: set<string>)
    ensures |Sorted(s)| == |s| && NoDuplicates(Sorted(s))
  {
    if s != {} {
      LeastExists(s);
      var m :| IsLeast(m, s) && Sorted(s) == [m] + Sorted(s - {m});
      SortedDistinct(s - {m});
    }
  }

  /** Concatenate the images of the elements. */
  function FlatMap<A, B>(f: A -> seq<B>, s: seq<A>): seq<B> {
    if s == [] then [] else f(s[0]) + FlatMap(f, s[1..])
  }

  lemma {:induction false} FlatMapAppend<A, B>(f: A -> seq<B>, a: seq<A>, b: seq<A>)
    ensures FlatMap(f, a + b) == FlatMap(f, a) + FlatMap(f, b)
  {
    if a == [] {
      assert a + b == b;
    } else {
      FlatMapAppend(f, a[1..], b);
      assert (a + b)[1..] == a[1..] + b;
    }
  }

  lemma {:induction false} FlatMapEmpty<A, B>(f: A -> seq<B>, s: seq<A>)
    requires forall i :: 0 <= i < |s| ==> f(s[i]) == []
    ensures FlatMap(f, s) == []
  {
    if s != [] { FlatMapEmpty(f, s[1..]); }
  }

  lemma FlatMapOne<A, B>(f: A -> seq<B>, x: A)
    ensures FlatMap(f, [x]) == f(x)
  {
    assert FlatMap(f, [x]) == f(x) + FlatMap(f, [x][1..]);
  }

  lemma FlatMapSnoc<A, B>(f: A -> seq<B>, s: seq<A>, i: nat)
    requires i < |s|
    ensures FlatMap(f, s[..i + 1]) == FlatMap(f, s[..i]) + f(s[i])
  {
    FlatMapAppend(f, s[..i], [s[i]]);
    FlatMapOne(f, s[i]);
    assert s[..i + 1] == s[..i] + [s[i]];
  }

  lemma {:induction false} FlatMapMember<A, B>(f: A -> seq<B>, s: seq<A>, i: nat)
    requires i < |s| && f(s[i]) != []
    ensures FlatMap(f, s) != []
  {
    if i > 0 { FlatMapMember(f, s[1..], i - 1); }
  }

  /** A concatenation is empty exactly when every image is. */
  lemma FlatMapEmptyExactly<A(!new), B>(f: A -> seq<B>, s: seq<A>)
    ensures FlatMap(f, s) == [] <==> forall x :: x in s ==> f(x) == []
  {
    if forall x :: x in s ==> f(x) == [] {
      FlatMapEmpty(f, s);
    } else {
      var x :| x in s && f(x) != [];
      var i :| 0 <= i < |s| && s[i] == x;
      FlatMapMember(f, s, i);
    }
  }

  lemma FlatMapPair<A(!new), B>(f: A -> seq<B>, x: A, y: A)
    ensures FlatMap(f, [x, y]) == f(x) + f(y)
  {
    FlatMapAppend(f, [x], [y]);
    FlatMapOne(f, x);
    FlatMapOne(f, y);
    assert [x, y] == [x] + [y];
  }

  lemma {:induction false} FlatMapContains<A(!new), B(!new)>(f: A -> seq<B>, s: seq<A>)
    ensures forall y :: y in FlatMap(f, s) <==> exists x :: x in s && y in f(x)
  {
    if s != [] {
      FlatMapContains(f, s[1..]);
      forall y ensures y in FlatMap(f, s) <==> exists x :: x in s && y in f(x) {
        assert y in FlatMap(f, s) <==> y in f(s[0]) || y in FlatMap(f, s[1..]);
        assert forall x :: x in s <==> x == s[0] || x in s[1..];
      }
    }
  }
}
