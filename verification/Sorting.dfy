/** Stable sorting: what sort.SliceStable promises, and that the promise determines the result. */
module Sorting {

  /** Any two elements compare, and comparison is transitive; Go's less(a, b) is !leq(b, a). */
  ghost predicate TotalPreorder<T(!new)>(leq: (T, T) -> bool) {
    && (forall a, b :: leq(a, b) || leq(b, a))
    && (forall a, b, c :: leq(a, b) && leq(b, c) ==> leq(a, c))
  }

  predicate Tied<T>(leq: (T, T) -> bool, a: T, b: T) {
    leq(a, b) && leq(b, a)
  }

  ghost predicate Sorted<T>(leq: (T, T) -> bool, s: seq<T>) {
    forall i, j :: 0 <= i < j < |s| ==> leq(s[i], s[j])
  }

  /** The elements tied with x, in their order. */
  function Ties<T>(leq: (T, T) -> bool, s: seq<T>, x: T): seq<T> {
    if s == [] then [] else (if Tied(leq, s[0], x) then [s[0]] else []) + Ties(leq, s[1..], x)
  }

  /** Sorted, with every group of ties exactly as it was in the input. */
  ghost predicate IsStableSort<T(!new)>(leq: (T, T) -> bool, input: seq<T>, output: seq<T>) {
    Sorted(leq, output) && forall x :: Ties(leq, output, x) == Ties(leq, input, x)
  }

  lemma {:induction false} TiesConcat<T>(leq: (T, T) -> bool, s: seq<T>, t: seq<T>, x: T)
    ensures Ties(leq, s + t, x) == Ties(leq, s, x) + Ties(leq, t, x)
  {
    if s == [] {
      assert s + t == t;
    } else {
      TiesConcat(leq, s[1..], t, x);
      assert (s + t)[1..] == s[1..] + t;
    }
  }

  lemma TiesOne<T>(leq: (T, T) -> bool, item: T, x: T)
    ensures Ties(leq, [item], x) == if Tied(leq, item, x) then [item] else []
  {
  }

  lemma {:induction false} TiesMembers<T>(leq: (T, T) -> bool, s: seq<T>, x: T)
    ensures forall y :: y in Ties(leq, s, x) <==> y in s && Tied(leq, y, x)
  {
    if s != [] {
      TiesMembers(leq, s[1..], x);
      assert forall y :: y in s <==> y == s[0] || y in s[1..];
    }
  }

  lemma {:induction false} TiesCount<T>(leq: (T, T) -> bool, s: seq<T>, x: T)
    requires leq(x, x)
    ensures multiset(Ties(leq, s, x))[x] == multiset(s)[x]
  {
    if s != [] {
      TiesCount(leq, s[1..], x);
      assert s == [s[0]] + s[1..];
    }
  }

  /** A stable sort is a permutation. */
  lemma SameItems<T(!new)>(leq: (T, T) -> bool, input: seq<T>, output: seq<T>)
    requires TotalPreorder(leq) && IsStableSort(leq, input, output)
    ensures multiset(output) == multiset(input)
  {
    forall x ensures multiset(output)[x] == multiset(input)[x] {
      TiesCount(leq, input, x);
      TiesCount(leq, output, x);
    }
  }

  /** Two stable sorts of one input begin alike. */
  lemma SameFirst<T(!new)>(leq: (T, T) -> bool, a: seq<T>, b: seq<T>)
    requires TotalPreorder(leq) && Sorted(leq, a) && Sorted(leq, b) && a != [] && b != []
    requires forall x :: Ties(leq, a, x) == Ties(leq, b, x)
    ensures a[0] == b[0]
  {
    TiesMembers(leq, b, a[0]);
    TiesMembers(leq, a, b[0]);
    assert leq(a[0], a[0]) && leq(b[0], b[0]);
    assert a[0] in Ties(leq, a, a[0]) && b[0] in Ties(leq, b, b[0]);
    assert a[0] in b && b[0] in a;
    assert leq(b[0], a[0]) && leq(a[0], b[0]);
    assert Ties(leq, a, a[0])[0] == a[0] && Ties(leq, b, a[0])[0] == b[0];
  }

  lemma RestTies<T>(leq: (T, T) -> bool, a: seq<T>, b: seq<T>, x: T)
    requires a != [] && b != [] && a[0] == b[0] && Ties(leq, a, x) == Ties(leq, b, x)
    ensures Ties(leq, a[1..], x) == Ties(leq, b[1..], x)
  {
    var first := if Tied(leq, a[0], x) then [a[0]] else [];
    assert Ties(leq, a, x)[|first|..] == Ties(leq, a[1..], x);
    assert Ties(leq, b, x)[|first|..] == Ties(leq, b[1..], x);
  }

  lemma SameEmptiness<T(!new)>(leq: (T, T) -> bool, a: seq<T>, b: seq<T>)
    requires TotalPreorder(leq) && a != [] && forall x :: Ties(leq, a, x) == Ties(leq, b, x)
    ensures b != []
  {
    assert leq(a[0], a[0]);
    assert Ties(leq, a, a[0])[0] == a[0];
  }

  /** The promise determines the result: two stable sorts of one input are equal. */
  lemma {:induction false} StableSortUnique<T(!new)>(leq: (T, T) -> bool, a: seq<T>, b: seq<T>)
    requires TotalPreorder(leq) && Sorted(leq, a) && Sorted(leq, b)
    requires forall x :: Ties(leq, a, x) == Ties(leq, b, x)
    ensures a == b
    decreases |a|
  {
    if a != [] {
      SameEmptiness(leq, a, b);
      SameFirst(leq, a, b);
      forall x ensures Ties(leq, a[1..], x) == Ties(leq, b[1..], x) { RestTies(leq, a, b, x); }
      StableSortUnique(leq, a[1..], b[1..]);
    } else if b != [] {
      SameEmptiness(leq, b, a);
    }
  }

  lemma {:induction false} NoTies<T(!new)>(leq: (T, T) -> bool, r: seq<T>, item: T, x: T)
    requires TotalPreorder(leq) && Tied(leq, item, x)
    requires forall j :: 0 <= j < |r| ==> !leq(r[j], item)
    ensures Ties(leq, r, x) == []
  {
    if r != [] { NoTies(leq, r[1..], item, x); }
  }

  /** Putting an item before strictly greater ones is, for ties, the same as appending it. */
  lemma TiesInsert<T(!new)>(leq: (T, T) -> bool, l: seq<T>, r: seq<T>, item: T, x: T)
    requires TotalPreorder(leq) && forall j :: 0 <= j < |r| ==> !leq(r[j], item)
    ensures Ties(leq, l + [item] + r, x) == Ties(leq, l + r, x) + Ties(leq, [item], x)
  {
    TiesConcat(leq, l + [item], r, x);
    TiesConcat(leq, l, [item], x);
    TiesConcat(leq, l, r, x);
    MiddleApart(leq, r, item, x);
    EmptyCommutes(Ties(leq, l, x), Ties(leq, [item], x), Ties(leq, r, x));
  }

  /** The item and what follows it are never tied with one element both. */
  lemma MiddleApart<T(!new)>(leq: (T, T) -> bool, r: seq<T>, item: T, x: T)
    requires TotalPreorder(leq) && forall j :: 0 <= j < |r| ==> !leq(r[j], item)
    ensures Ties(leq, [item], x) == [] || Ties(leq, r, x) == []
  {
    TiesOne(leq, item, x);
    if Tied(leq, item, x) { NoTies(leq, r, item, x); }
  }

  lemma EmptyCommutes<T>(a: seq<T>, b: seq<T>, c: seq<T>)
    requires b == [] || c == []
    ensures a + b + c == a + c + b
  {
  }

  lemma SortedInsert<T(!new)>(leq: (T, T) -> bool, l: seq<T>, r: seq<T>, item: T)
    requires TotalPreorder(leq) && Sorted(leq, l + r)
    requires l != [] ==> leq(l[|l| - 1], item)
    requires forall j :: 0 <= j < |r| ==> !leq(r[j], item)
    ensures Sorted(leq, l + [item] + r)
  {
    var s, t := l + r, l + [item] + r;
    forall i | 0 <= i < |l| ensures leq(l[i], item) {
      if i < |l| - 1 { assert leq(s[i], s[|l| - 1]); }
    }
    forall i, j | 0 <= i < j < |t| ensures leq(t[i], t[j]) {
      if i < |l| {
        if j < |l| { assert leq(s[i], s[j]); } else if j > |l| { assert leq(s[i], s[j - 1]); }
      } else if i > |l| {
        assert leq(s[i - 1], s[j - 1]);
      }
    }
  }

  /** Where an item belongs: after everything it is not smaller than. */
  method Position<T(!new)>(leq: (T, T) -> bool, s: seq<T>, item: T) returns (i: nat)
    ensures i <= |s|
    ensures i > 0 ==> leq(s[i - 1], item)
    ensures forall j :: i <= j < |s| ==> !leq(s[j], item)
  {
    i := |s|;
    while i > 0 && !leq(s[i - 1], item)
      invariant i <= |s|
      invariant forall j :: i <= j < |s| ==> !leq(s[j], item)
    {
      i := i - 1;
    }
  }

  /** Insertion sort. */
  method StableSort<T(!new)>(leq: (T, T) -> bool, input: seq<T>) returns (output: seq<T>)
    requires TotalPreorder(leq)
    ensures IsStableSort(leq, input, output)
    ensures multiset(output) == multiset(input)
  {
    output := [];
    for k := 0 to |input|
      invariant IsStableSort(leq, input[..k], output)
      invariant multiset(output) == multiset(input[..k])
    {
      output := Insert(leq, output, input[k]);
      assert input[..k + 1] == input[..k] + [input[k]];
      forall x ensures Ties(leq, output, x) == Ties(leq, input[..k + 1], x) {
        TiesConcat(leq, input[..k], [input[k]], x);
      }
    }
    assert input[..|input|] == input;
  }

  lemma Inserted<T(!new)>(leq: (T, T) -> bool, l: seq<T>, r: seq<T>, item: T)
    requires TotalPreorder(leq) && Sorted(leq, l + r)
    requires l != [] ==> leq(l[|l| - 1], item)
    requires forall j :: 0 <= j < |r| ==> !leq(r[j], item)
    ensures Sorted(leq, l + [item] + r)
    ensures multiset(l + [item] + r) == multiset(l + r) + multiset{item}
    ensures forall x :: Ties(leq, l + [item] + r, x) == Ties(leq, l + r, x) + Ties(leq, [item], x)
  {
    SortedInsert(leq, l, r, item);
    forall x ensures Ties(leq, l + [item] + r, x) == Ties(leq, l + r, x) + Ties(leq, [item], x) {
      TiesInsert(leq, l, r, item, x);
    }
  }

  method Insert<T(!new)>(leq: (T, T) -> bool, s: seq<T>, item: T) returns (longer: seq<T>)
    requires TotalPreorder(leq) && Sorted(leq, s)
    ensures Sorted(leq, longer)
    ensures multiset(longer) == multiset(s) + multiset{item}
    ensures forall x :: Ties(leq, longer, x) == Ties(leq, s, x) + Ties(leq, [item], x)
  {
    var i := Position(leq, s, item);
    assert s == s[..i] + s[i..];
    longer := s[..i] + [item] + s[i..];
    Inserted(leq, s[..i], s[i..], item);
  }
}
