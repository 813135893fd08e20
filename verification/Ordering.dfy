/** Sorted listings of a set of strings, as sort.Slice gives them. */
module Ordering {
  import opened Model

  /** Go's order on strings: octet by octet, a proper prefix first. */
  predicate StrLess(a: Str, b: Str) {
    if b == [] then false
    else if a == [] then true
    else a[0] < b[0] || (a[0] == b[0] && StrLess(a[1..], b[1..]))
  }

  lemma {:induction false} StrLessTransitive(a: Str, b: Str, c: Str)
    requires StrLess(a, b) && StrLess(b, c)
    ensures StrLess(a, c)
  {
    if a != [] && a[0] == b[0] == c[0] {
      StrLessTransitive(a[1..], b[1..], c[1..]);
    }
  }

  lemma {:induction false} StrLessTotal(a: Str, b: Str)
    ensures StrLess(a, b) || StrLess(b, a) || a == b
    ensures !(StrLess(a, b) && StrLess(b, a))
    ensures a == b ==> !StrLess(a, b)
  {
    if a != [] && b != [] {
      StrLessTotal(a[1..], b[1..]);
      if a[0] == b[0] && a[1..] == b[1..] {
        assert a == [a[0]] + a[1..] && b == [b[0]] + b[1..];
      }
    }
  }

  /** a comes before b in the order of octets: at the first place where they differ it
      has the smaller octet, or it ends there. */
  predicate Before(a: Str, b: Str, i: nat) {
    && i <= |a| && i < |b| && a[..i] == b[..i]
    && (i == |a| || a[i] < b[i])
  }

  lemma {:induction false} StrLessExact(a: Str, b: Str)
    ensures StrLess(a, b) <==> exists i: nat :: Before(a, b, i)
  {
    if StrLess(a, b) {
      if a == [] || a[0] < b[0] {
        assert Before(a, b, 0);
      } else {
        StrLessExact(a[1..], b[1..]);
        var i: nat :| Before(a[1..], b[1..], i);
        assert a[..i + 1] == [a[0]] + a[1..][..i] && b[..i + 1] == [b[0]] + b[1..][..i];
        assert Before(a, b, i + 1);
      }
    }
    if i: nat :| Before(a, b, i) {
      if i > 0 {
        assert a[0] == a[..i][0] == b[..i][0] == b[0];
        assert a[1..][..i - 1] == a[..i][1..] && b[1..][..i - 1] == b[..i][1..];
        assert Before(a[1..], b[1..], i - 1);
        StrLessExact(a[1..], b[1..]);
      }
    }
  }

  ghost predicate Sorted(s: seq<Str>) {
    forall i, j :: 0 <= i < j < |s| ==> StrLess(s[i], s[j])
  }

  /** `s` lists exactly the members of `members`, each once, in order. */
  ghost predicate SortedListing(s: seq<Str>, members: set<Str>) {
    && Sorted(s)
    && (forall x :: x in s <==> x in members)
  }

  /** The smallest member. */
  method Smallest(members: set<Str>) returns (m: Str)
    requires members != {}
    ensures m in members
    ensures forall x :: x in members && x != m ==> StrLess(m, x)
  {
    m :| m in members;
    var rest := members - {m};
    while rest != {}
      invariant rest <= members && m in members && m !in rest
      invariant forall x :: x in members && x !in rest && x != m ==> StrLess(m, x)
      decreases rest
    {
      var x :| x in rest;
      rest := rest - {x};
      StrLessTotal(m, x);
      if StrLess(x, m) {
        forall y | y in members && y !in rest && y != x ensures StrLess(x, y) {
          if y != m { StrLessTransitive(x, m, y); }
        }
        m := x;
      }
    }
  }

  method SortStrings(members: set<Str>) returns (s: seq<Str>)
    ensures SortedListing(s, members)
  {
    s := [];
    var rest := members;
    while rest != {}
      invariant rest <= members
      invariant Sorted(s)
      invariant forall x :: x in s <==> x in members && x !in rest
      invariant forall x, y :: x in s && y in rest ==> StrLess(x, y)
      decreases rest
    {
      var m := Smallest(rest);
      rest := rest - {m};
      s := s + [m];
    }
  }

  /** A listing is determined by its members. */
  lemma {:induction false} SortedListingUnique(s: seq<Str>, t: seq<Str>, members: set<Str>)
    requires SortedListing(s, members) && SortedListing(t, members)
    ensures s == t
    decreases |s|
  {
    ListingEmpty(s, members);
    ListingEmpty(t, members);
    if s != [] {
      assert s[0] in t && t != [];
      assert t[0] in s;
      StrLessTotal(s[0], t[0]);
      assert s[0] == t[0];
      forall x ensures x in s[1..] <==> x in members - {s[0]} {
        TailMembers(s, x);
      }
      forall x ensures x in t[1..] <==> x in members - {s[0]} {
        TailMembers(t, x);
      }
      SortedListingUnique(s[1..], t[1..], members - {s[0]});
      assert s == [s[0]] + s[1..] && t == [t[0]] + t[1..];
    }
  }

  lemma ListingEmpty(s: seq<Str>, members: set<Str>)
    requires SortedListing(s, members)
    ensures s == [] <==> members == {}
  {
    if s != [] {
      assert s[0] in members;
    }
    if members != {} {
      var x :| x in members;
      assert x in s;
    }
  }

  lemma TailMembers(s: seq<Str>, x: Str)
    requires Sorted(s) && s != []
    ensures x in s[1..] <==> x in s && x != s[0]
  {
    StrLessTotal(s[0], s[0]);
    if x in s[1..] {
      var i :| 0 <= i < |s[1..]| && s[1..][i] == x;
      assert s[i + 1] == x && StrLess(s[0], s[i + 1]);
    }
    if x in s && x != s[0] {
      var i :| 0 <= i < |s| && s[i] == x;
      assert s[1..][i - 1] == x;
    }
  }
}
