/** The order of Go strings, as sort.Strings and `<` use it. */
module Strings {

  predicate Less(a: string, b: string) {
    b != "" && (a == "" || a[0] < b[0] || (a[0] == b[0] && Less(a[1..], b[1..])))
  }

  lemma {:induction false} Irreflexive(a: string)
    ensures !Less(a, a)
  {
    if a != "" { Irreflexive(a[1..]); }
  }

  lemma {:induction false} Transitive(a: string, b: string, c: string)
    requires Less(a, b) && Less(b, c)
    ensures Less(a, c)
  {
    if a != "" && a[0] == b[0] == c[0] { Transitive(a[1..], b[1..], c[1..]); }
  }

  lemma {:induction false} Total(a: string, b: string)
    ensures a == b || Less(a, b) || Less(b, a)
  {
    if a != "" && b != "" && a[0] == b[0] {
      Total(a[1..], b[1..]);
      if a[1..] == b[1..] { assert a == [a[0]] + a[1..] == b; }
    }
  }

  /** A proper prefix, or smaller at the first place where the two differ. */
  ghost predicate Precedes(a: string, b: string) {
    || (|a| < |b| && a == b[..|a|])
    || exists k: nat :: SmallerAt(a, b, k)
  }

  ghost predicate SmallerAt(a: string, b: string, k: nat) {
    k < |a| && k < |b| && a[..k] == b[..k] && a[k] < b[k]
  }

  lemma SmallerStart(a: string, b: string, k: nat)
    requires SmallerAt(a, b, k)
    ensures k > 0 ==> a[0] == b[0]
  {
    assert k > 0 ==> a[..k][0] == a[0] && b[..k][0] == b[0];
  }

  lemma {:induction false} LessExactly(a: string, b: string)
    ensures Less(a, b) <==> Precedes(a, b)
  {
    if a != "" && b != "" && a[0] == b[0] {
      LessExactly(a[1..], b[1..]);
      assert a == [a[0]] + a[1..] && b == [b[0]] + b[1..];
      if k: nat :| SmallerAt(a[1..], b[1..], k) {
        assert a[..k + 1] == [a[0]] + a[1..][..k] && b[..k + 1] == [b[0]] + b[1..][..k];
        assert SmallerAt(a, b, k + 1);
      }
      if k: nat :| SmallerAt(a, b, k) {
        assert a[1..][..k - 1] == a[..k][1..] && b[1..][..k - 1] == b[..k][1..];
        assert SmallerAt(a[1..], b[1..], k - 1);
      }
      if |a| < |b| {
        assert b[..|a|] == [b[0]] + b[1..][..|a| - 1];
      }
    } else if a != "" && b != "" {
      assert a[0] < b[0] ==> SmallerAt(a, b, 0);
      if k: nat :| SmallerAt(a, b, k) {
        SmallerStart(a, b, k);
      }
      assert |a| < |b| ==> b[..|a|][0] == b[0];
    }
  }

  predicate StrictlySorted(s: seq<string>) {
    forall i, j :: 0 <= i < j < |s| ==> Less(s[i], s[j])
  }

  /** A strictly sorted listing of a set is unique, so it cannot depend on the order the set was visited in. */
  lemma {:induction false} ListingUnique(s: seq<string>, t: seq<string>)
    requires StrictlySorted(s) && StrictlySorted(t)
    requires forall x :: x in s <==> x in t
    ensures s == t
    decreases |s|
  {
    assert s != [] ==> s[0] in s;
    assert t != [] ==> t[0] in t;
    if s != [] {
      assert s[0] in t && t[0] in s;
      var i :| 0 <= i < |t| && t[i] == s[0];
      var j :| 0 <= j < |s| && s[j] == t[0];
      if i > 0 && j > 0 {
        Transitive(t[0], s[0], s[j]);
        Irreflexive(t[0]);
      }
      forall x ensures x in s[1..] <==> x in t[1..] {
        Irreflexive(s[0]);
        assert x in s <==> x == s[0] || x in s[1..];
        assert x in t <==> x == t[0] || x in t[1..];
      }
      ListingUnique(s[1..], t[1..]);
    }
  }

  method Smallest(states: set<string>) returns (least: string)
    requires states != {}
    ensures least in states && forall x :: x in states && x != least ==> Less(least, x)
  {
    least :| least in states;
    var todo := states - {least};
    while todo != {}
      invariant least in states && todo <= states && least !in todo
      invariant forall x :: x in states && x !in todo && x != least ==> Less(least, x)
      decreases |todo|
    {
      var x :| x in todo;
      if Less(x, least) {
        forall y | y in states && y !in todo && y != least ensures Less(x, y) { Transitive(x, least, y); }
        Irreflexive(x);
        least := x;
      } else {
        Total(x, least);
      }
      todo := todo - {x};
    }
  }

  /** The keys of a map, collected and sorted. */
  method SortedListing(states: set<string>) returns (listing: seq<string>)
    ensures StrictlySorted(listing) && forall x :: x in listing <==> x in states
  {
    listing := [];
    var rest := states;
    while rest != {}
      invariant rest <= states
      invariant forall x :: x in listing <==> x in states && x !in rest
      invariant StrictlySorted(listing)
      invariant forall x, y :: x in listing && y in rest ==> Less(x, y)
      decreases |rest|
    {
      var least := Smallest(rest);
      listing := listing + [least];
      rest := rest - {least};
    }
  }
}
