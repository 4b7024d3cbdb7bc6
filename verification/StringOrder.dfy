/** The order of Go strings, sorting, and lists of the elements of a set. */
module StringOrder {
  import opened Digraph

  /** Lexicographic order by code points, which is also the order of the UTF-8 bytes. */
  predicate AtMost(a: string, b: string) {
    a == "" || (b != "" && (a[0] < b[0] || (a[0] == b[0] && AtMost(a[1..], b[1..]))))
  }

  /** a and b agree up to i, where a has the smaller character. */
  predicate DecidedAt(a: string, b: string, i: nat) {
    i < |a| && i < |b| && a[i] < b[i] && forall j :: 0 <= j < i ==> a[j] == b[j]
  }

  predicate Decided(a: string, b: string) {
    exists i :: 0 <= i < |a| && DecidedAt(a, b, i)
  }

  lemma DecidedStep(a: string, b: string)
    requires a != "" && b != "" && a[0] == b[0]
    ensures Decided(a, b) <==> Decided(a[1..], b[1..])
  {
    if i :| 0 <= i < |a| && DecidedAt(a, b, i) {
      assert DecidedAt(a[1..], b[1..], i - 1);
    }
    if i :| 0 <= i < |a| - 1 && DecidedAt(a[1..], b[1..], i) {
      forall j | 0 <= j < i + 1 ensures a[j] == b[j] {
        if j > 0 { assert a[1..][j - 1] == b[1..][j - 1]; }
      }
      assert DecidedAt(a, b, i + 1);
    }
  }

  lemma DecidedAtOnce(a: string, b: string)
    requires a != "" && b != "" && a[0] != b[0]
    ensures Decided(a, b) <==> a[0] < b[0]
  {
    if a[0] < b[0] { assert DecidedAt(a, b, 0); }
  }

  /** The first difference decides, and a prefix comes first. */
  lemma {:induction false} AtMostMeaning(a: string, b: string)
    ensures AtMost(a, b) <==> a <= b || Decided(a, b)
  {
    if a != "" && b != "" {
      assert a == [a[0]] + a[1..] && b == [b[0]] + b[1..];
      if a[0] == b[0] {
        AtMostMeaning(a[1..], b[1..]);
        DecidedStep(a, b);
      } else {
        DecidedAtOnce(a, b);
      }
    }
  }

  lemma {:induction false} AtMostIsTotal(a: string, b: string)
    ensures AtMost(a, b) || AtMost(b, a)
  {
    if a != "" && b != "" && a[0] == b[0] { AtMostIsTotal(a[1..], b[1..]); }
  }

  lemma {:induction false} AtMostIsTransitive(a: string, b: string, c: string)
    requires AtMost(a, b) && AtMost(b, c)
    ensures AtMost(a, c)
  {
    if a != "" && a[0] == b[0] == c[0] { AtMostIsTransitive(a[1..], b[1..], c[1..]); }
  }

  lemma {:induction false} AtMostIsAntisymmetric(a: string, b: string)
    requires AtMost(a, b) && AtMost(b, a)
    ensures a == b
  {
    if a != "" {
      AtMostIsAntisymmetric(a[1..], b[1..]);
      assert a == [a[0]] + a[1..] && b == [b[0]] + b[1..];
    }
  }

  predicate InOrder(s: seq<string>) {
    forall i, j :: 0 <= i < j < |s| ==> AtMost(s[i], s[j])
  }

  // ---------------------------------------------------------------- sorting

  function Insert(s: seq<string>, x: string): seq<string> {
    if s == [] || AtMost(x, s[0]) then [x] + s else [s[0]] + Insert(s[1..], x)
  }

  lemma {:induction false} InsertKeepsOrder(s: seq<string>, x: string)
    requires InOrder(s)
    ensures InOrder(Insert(s, x)) && multiset(Insert(s, x)) == multiset(s) + multiset{x}
  {
    if s != [] {
      assert s == [s[0]] + s[1..];
      if AtMost(x, s[0]) {
        forall i | 0 <= i < |s| ensures AtMost(x, s[i]) {
          if i > 0 { AtMostIsTransitive(x, s[0], s[i]); }
        }
      } else {
        var rest := Insert(s[1..], x);
        InsertKeepsOrder(s[1..], x);
        AtMostIsTotal(x, s[0]);
        forall i | 0 <= i < |rest| ensures AtMost(s[0], rest[i]) {
          assert rest[i] in multiset(rest);
          assert rest[i] == x || rest[i] in s[1..];
        }
      }
    }
  }

  /** sort.Strings. */
  function Sorted(s: seq<string>): (r: seq<string>)
    ensures InOrder(r) && multiset(r) == multiset(s)
  {
    if s == [] then []
    else
      InsertKeepsOrder(Sorted(s[1..]), s[0]);
      assert s == [s[0]] + s[1..];
      Insert(Sorted(s[1..]), s[0])
  }

  lemma LeastIsFirst(s: seq<string>, x: string)
    requires InOrder(s) && x in s
    ensures AtMost(s[0], x)
  {
    var i :| 0 <= i < |s| && s[i] == x;
    if i == 0 { AtMostIsTotal(x, x); }
  }

  lemma SameFirst(s: seq<string>, t: seq<string>)
    requires InOrder(s) && InOrder(t) && multiset(s) == multiset(t) && s != []
    ensures t != [] && s[0] == t[0]
  {
    assert s[0] in multiset(t);
    assert t[0] in multiset(s);
    LeastIsFirst(s, t[0]);
    LeastIsFirst(t, s[0]);
    AtMostIsAntisymmetric(s[0], t[0]);
  }

  lemma SameRest<T>(s: seq<T>, t: seq<T>)
    requires s != [] && t != [] && s[0] == t[0] && multiset(s) == multiset(t)
    ensures multiset(s[1..]) == multiset(t[1..])
  {
    assert s == [s[0]] + s[1..] && t == [t[0]] + t[1..];
    assert multiset(s[1..]) == multiset(s) - multiset{s[0]};
  }

  /** Sorting leaves no freedom: lists of the same elements with the same multiplicities sort to the same list. */
  lemma {:induction false} SortedIsUnique(s: seq<string>, t: seq<string>)
    requires InOrder(s) && InOrder(t) && multiset(s) == multiset(t)
    ensures s == t
  {
    if s == [] {
      assert |multiset(t)| == 0;
    } else {
      SameFirst(s, t);
      SameRest(s, t);
      SortedIsUnique(s[1..], t[1..]);
    }
  }

  // ---------------------------------------------------------------- lists of the elements of a set

  /** Each element of the set once, in any order. */
  ghost predicate Lists<T(!new)>(s: seq<T>, elements: set<T>) {
    NoDuplicates(s) && forall x :: x in s <==> x in elements
  }

  /** Each element of the set once, in order. */
  ghost predicate SortedList(s: seq<string>, elements: set<string>) {
    Lists(s, elements) && InOrder(s)
  }

  lemma {:induction false} ListedOnce<T>(s: seq<T>, x: T)
    requires NoDuplicates(s)
    ensures multiset(s)[x] == if x in s then 1 else 0
  {
    if s != [] {
      assert s == [s[0]] + s[1..];
      ListedOnce(s[1..], x);
    }
  }

  lemma {:induction false} OnceEach<T(!new)>(s: seq<T>)
    requires forall x :: multiset(s)[x] <= 1
    ensures NoDuplicates(s)
  {
    if s != [] {
      assert s == [s[0]] + s[1..];
      forall x ensures multiset(s[1..])[x] <= 1 { assert multiset(s)[x] >= multiset(s[1..])[x]; }
      OnceEach(s[1..]);
      assert s[0] !in s[1..] by { assert multiset(s)[s[0]] == 1 + multiset(s[1..])[s[0]]; }
    }
  }

  /** Two lists of a set differ in their order only. */
  lemma ListsArePermutations<T(!new)>(s: seq<T>, t: seq<T>, elements: set<T>)
    requires Lists(s, elements) && Lists(t, elements)
    ensures multiset(s) == multiset(t)
  {
    forall x ensures multiset(s)[x] == multiset(t)[x] {
      ListedOnce(s, x);
      ListedOnce(t, x);
    }
  }

  lemma SortedListing(s: seq<string>, elements: set<string>)
    requires Lists(s, elements)
    ensures SortedList(Sorted(s), elements)
  {
    forall x ensures multiset(s)[x] <= 1 { ListedOnce(s, x); }
    OnceEach(Sorted(s));
    forall x ensures x in Sorted(s) <==> x in s { assert x in multiset(Sorted(s)) <==> x in multiset(s); }
  }

  lemma SortedListIsUnique(s: seq<string>, t: seq<string>, elements: set<string>)
    requires SortedList(s, elements) && SortedList(t, elements)
    ensures s == t
  {
    ListsArePermutations(s, t, elements);
    SortedIsUnique(s, t);
  }

  /** Some list of the set. */
  ghost function Listing<T(!new)>(elements: set<T>): (s: seq<T>)
    ensures Lists(s, elements)
  {
    if elements == {} then []
    else
      var x :| x in elements;
      [x] + Listing(elements - {x})
  }

  /** A set has only one list if and only if it has at most one element. */
  lemma OneList<T(!new)>(s: seq<T>, elements: set<T>)
    requires Lists(s, elements)
    ensures (forall t :: Lists(t, elements) ==> t == s) <==> |elements| <= 1
  {
    ListLength(s, elements);
    if |s| >= 2 {
      var t := Exchanged(s);
      assert forall x :: x in t <==> x in s by {
        assert s == [s[0], s[1]] + s[2..];
      }
      assert t[0] != s[0];
      assert Lists(t, elements);
    }
    forall t | Lists(t, elements) && |elements| <= 1 ensures t == s {
      ListLength(t, elements);
      if |t| == 1 { assert t[0] in s; }
    }
  }

  /** The first two elements change places. */
  function Exchanged<T>(s: seq<T>): seq<T>
    requires |s| >= 2
  {
    [s[1], s[0]] + s[2..]
  }

  lemma {:induction false} ListLength<T(!new)>(s: seq<T>, elements: set<T>)
    requires Lists(s, elements)
    ensures |s| == |elements|
  {
    if s != [] {
      assert s == [s[0]] + s[1..];
      assert s[0] in elements;
      ListLength(s[1..], elements - {s[0]});
    } else {
      assert elements == set x | x in s;
    }
  }
}
