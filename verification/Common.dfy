/** Vocabulary shared by every module: optional values, outcomes, identifiers and instants. */
module Common {

  datatype Option<+T> = None | Some(value: T)

  datatype Result<+T, +E> = Ok(value: T) | Err(error: E)

  /** Identifiers are the strings the database uses as primary keys. */
  type Id = string

  /** Instants count seconds; ZERO_TIME is the zero value an unset time field holds. */
  type Time = int

  const ZERO_TIME: Time := 0

  function Min(a: int, b: int): int {
    if a <= b then a else b
  }

  /** The elements of a sequence, as a set. */
  function Elements<T>(xs: seq<T>): set<T> {
    set x | x in xs
  }

  ghost predicate Distinct<T>(xs: seq<T>) {
    forall i, j :: 0 <= i < j < |xs| ==> xs[i] != xs[j]
  }

  /** A duplicate-free sequence has as many elements as its set of elements. */
  lemma {:induction false} DistinctSize<T>(xs: seq<T>)
    requires Distinct(xs)
    ensures |Elements(xs)| == |xs|
  {
    if xs != [] {
      var front, last := xs[..|xs| - 1], xs[|xs| - 1];
      DistinctSize(front);
      assert xs == front + [last];
      assert Elements(xs) == Elements(front) + {last};
      assert last !in Elements(front);
    }
  }

  /** Taking one more element of a duplicate-free sequence adds exactly that element. */
  lemma PrefixElements<T>(xs: seq<T>, i: nat)
    requires Distinct(xs) && i < |xs|
    ensures xs[i] in Elements(xs) && xs[i] !in Elements(xs[..i])
    ensures Elements(xs[..i + 1]) == Elements(xs[..i]) + {xs[i]}
  {
    assert xs[..i + 1] == xs[..i] + [xs[i]];
  }

  lemma WholePrefix<T>(xs: seq<T>)
    ensures Elements(xs[..0]) == {} && xs[..|xs|] == xs
  {
  }

  lemma NoElements<T>()
    ensures Elements<T>([]) == {} && Distinct<T>([])
  {
  }

  lemma AppendNew<T>(xs: seq<T>, x: T)
    requires Distinct(xs) && x !in Elements(xs)
    ensures Distinct(xs + [x]) && Elements(xs + [x]) == Elements(xs) + {x}
  {
  }

  lemma SubsetSize<T>(a: set<T>, b: set<T>)
    requires a <= b
    ensures |a| <= |b|
  {
    assert b == a + (b - a);
  }

  /** A duplicate-free list of exactly a set's members has the set's multiset. */
  lemma ListOfSet<T(!new)>(xs: seq<T>, s: set<T>)
    requires Distinct(xs) && forall x :: x in xs <==> x in s
    ensures multiset(xs) == multiset(s)
  {
    forall x ensures multiset(xs)[x] == multiset(s)[x] {
      if x in xs {
        var i :| 0 <= i < |xs| && xs[i] == x;
        assert xs == xs[..i] + [x] + xs[i + 1..];
        assert x !in xs[..i] && x !in xs[i + 1..];
      }
    }
  }

  lemma DistinctByMultiset<T>(xs: seq<T>)
    requires forall x :: multiset(xs)[x] <= 1
    ensures Distinct(xs)
  {
    forall i, j | 0 <= i < j < |xs| ensures xs[i] != xs[j] {
      var x := xs[j];
      assert xs == xs[..j] + [x] + xs[j + 1..];
      assert multiset(xs)[x] == multiset(xs[..j])[x] + 1 + multiset(xs[j + 1..])[x];
      assert x !in multiset(xs[..j]);
      assert xs[..j][i] == xs[i] && xs[i] in xs[..j];
    }
  }
}
