/** Lists without repetitions, first occurrences, and optional values. */
module Collections {

  datatype Option<+T> = None | Some(value: T)

  function Elements<T(==)>(s: seq<T>): set<T> {
    set x | x in s
  }

  function DropLast<T>(s: seq<T>): seq<T> {
    if s == [] then [] else s[..|s| - 1]
  }

  ghost predicate NoRepeats<T(!new)>(s: seq<T>) {
    forall i, j :: Differ(s, i, j)
  }

  ghost predicate Differ<T(!new)>(s: seq<T>, i: int, j: int) {
    0 <= i < j < |s| ==> s[i] != s[j]
  }

  lemma LastIsNew<T(!new)>(s: seq<T>)
    requires NoRepeats(s) && s != []
    ensures NoRepeats(s[..|s| - 1]) && s[|s| - 1] !in s[..|s| - 1]
  {
    var init := s[..|s| - 1];
    forall i, j ensures Differ(init, i, j) { assert Differ(s, i, j); }
    forall i | 0 <= i < |init| ensures init[i] != s[|s| - 1] { assert Differ(s, i, |s| - 1); }
  }

  /** A list has as many elements as entries exactly when it repeats none. */
  lemma {:induction false} ElementsSize<T(!new)>(s: seq<T>)
    ensures |Elements(s)| <= |s|
    ensures |Elements(s)| == |s| <==> NoRepeats(s)
  {
    if s != [] {
      var init, last := s[..|s| - 1], s[|s| - 1];
      ElementsSize(init);
      assert s == init + [last];
      assert Elements(s) == Elements(init) + {last};
      if last in init {
        var i :| 0 <= i < |init| && init[i] == last;
        assert !Differ(s, i, |s| - 1);
      } else {
        if NoRepeats(s) { LastIsNew(s); }
        if NoRepeats(init) {
          forall i, j ensures Differ(s, i, j) { assert Differ(init, i, j); }
        }
      }
    }
  }

  /** Keep the first occurrence of every value: what a `Map` or a `Set` does with insertion order. */
  function FirstOccurrences<T(==, !new)>(s: seq<T>): (r: seq<T>)
    ensures forall x :: x in r <==> x in s
  {
    if s == [] then []
    else
      var init := FirstOccurrences(s[..|s| - 1]);
      if s[|s| - 1] in s[..|s| - 1] then init else init + [s[|s| - 1]]
  }

  lemma {:induction false} FirstOccurrencesDistinct<T(!new)>(s: seq<T>)
    ensures NoRepeats(FirstOccurrences(s))
  {
    if s != [] {
      FirstOccurrencesDistinct(s[..|s| - 1]);
      var init := FirstOccurrences(s[..|s| - 1]);
      forall i, j ensures Differ(FirstOccurrences(s), i, j) { assert Differ(init, i, j); }
    }
  }

  lemma {:induction false} FirstOccurrencesShort<T(!new)>(s: seq<T>)
    ensures |FirstOccurrences(s)| <= |s|
  {
    if s != [] { FirstOccurrencesShort(s[..|s| - 1]); }
  }

  /** What is kept of a prefix comes first in what is kept of the whole. */
  lemma {:induction false} FirstOccurrencesGrow<T(!new)>(a: seq<T>, b: seq<T>)
    ensures FirstOccurrences(a) <= FirstOccurrences(a + b)
    decreases |b|
  {
    if b == [] {
      assert a + b == a;
    } else {
      assert (a + b)[..|a + b| - 1] == a + b[..|b| - 1];
      FirstOccurrencesGrow(a, b[..|b| - 1]);
    }
  }

  lemma {:induction false} FirstOccurrencesOfDistinct<T(!new)>(s: seq<T>)
    requires NoRepeats(s)
    ensures FirstOccurrences(s) == s
  {
    if s != [] {
      LastIsNew(s);
      FirstOccurrencesOfDistinct(s[..|s| - 1]);
      assert s == s[..|s| - 1] + [s[|s| - 1]];
    }
  }

  /** Where a value first stands, or the length of the list. */
  function IndexIn<T(==)>(s: seq<T>, x: T): (i: nat)
    ensures x in s ==> i < |s| && s[i] == x
    ensures x !in s ==> i == |s|
  {
    if s == [] || s[0] == x then 0 else 1 + IndexIn(s[1..], x)
  }

  /** The first occurrence of `x` comes before that of `y`. */
  predicate Precedes<T(==)>(s: seq<T>, x: T, y: T) {
    IndexIn(s, x) < IndexIn(s, y)
  }

  lemma {:induction false} IndexConcat<T>(a: seq<T>, b: seq<T>, x: T)
    ensures IndexIn(a + b, x) == if x in a then IndexIn(a, x) else |a| + IndexIn(b, x)
  {
    if a == [] {
      assert a + b == b;
    } else {
      assert (a + b)[1..] == a[1..] + b;
      IndexConcat(a[1..], b, x);
    }
  }

  lemma IndexSnoc<T>(s: seq<T>, x: T)
    requires s != []
    ensures var init, last := s[..|s| - 1], s[|s| - 1];
            IndexIn(s, x) == if x in init then IndexIn(init, x) else if x == last then |init| else |s|
  {
    assert s == s[..|s| - 1] + [s[|s| - 1]];
    IndexConcat(s[..|s| - 1], [s[|s| - 1]], x);
  }

  lemma IndexIs<T(!new)>(s: seq<T>, k: nat)
    requires NoRepeats(s) && k < |s|
    ensures IndexIn(s, s[k]) == k
  {
    var i := IndexIn(s, s[k]);
    assert Differ(s, i, k) && Differ(s, k, i);
  }

  /** What is kept keeps its order. */
  lemma {:induction false} FirstOccurrencesOrder<T(!new)>(s: seq<T>, x: T, y: T)
    requires x in s && y in s
    ensures Precedes(FirstOccurrences(s), x, y) <==> Precedes(s, x, y)
  {
    var init, last, kept := s[..|s| - 1], s[|s| - 1], FirstOccurrences(s[..|s| - 1]);
    assert s == init + [last];
    IndexSnoc(s, x);
    IndexSnoc(s, y);
    IndexConcat(kept, [last], x);
    IndexConcat(kept, [last], y);
    if x in init && y in init {
      FirstOccurrencesOrder(init, x, y);
    }
  }
}
