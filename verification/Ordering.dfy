/** Listings of the members of a set under a sort order, as a database returns them. */
module Ordering {
  /** `le` compares any two values, consistently. */
  ghost predicate TotalPreorder<T(!new)>(le: (T, T) -> bool) {
    && (forall a, b :: le(a, b) || le(b, a))
    && (forall a, b, c :: le(a, b) && le(b, c) ==> le(a, c))
  }

  ghost predicate Sorted<T>(s: seq<T>, le: (T, T) -> bool) {
    forall i, j :: 0 <= i < j < |s| ==> le(s[i], s[j])
  }

  ghost predicate Distinct<T>(s: seq<T>) {
    forall i, j :: 0 <= i < j < |s| ==> s[i] != s[j]
  }

  /** `out` lists each member of `members` once, in order. Members that tie may come in any order. */
  ghost predicate Listing<T(!new)>(members: set<T>, le: (T, T) -> bool, out: seq<T>) {
    (forall x :: x in out <==> x in members) && Distinct(out) && Sorted(out, le)
  }

  function Insert<T>(x: T, s: seq<T>, le: (T, T) -> bool): seq<T> {
    if s == [] || le(x, s[0]) then [x] + s else [s[0]] + Insert(x, s[1..], le)
  }

  lemma {:induction false} InsertLists<T(!new)>(x: T, s: seq<T>, members: set<T>, le: (T, T) -> bool)
    requires TotalPreorder(le) && Listing(members, le, s) && x !in members
    ensures Listing(members + {x}, le, Insert(x, s, le))
  {
    if s == [] {
    } else if le(x, s[0]) {
      assert forall i :: 0 <= i < |s| ==> le(x, s[i]) by {
        assert forall i :: 1 <= i < |s| ==> le(s[0], s[i]);
      }
    } else {
      var rest := s[1..];
      assert forall y :: y in rest <==> y in members - {s[0]} by {
        assert forall y :: y in s <==> y == s[0] || y in rest;
      }
      InsertLists(x, rest, members - {s[0]}, le);
      var out := Insert(x, rest, le);
      forall i | 0 <= i < |out|
        ensures le(s[0], out[i]) && out[i] != s[0]
      {
        assert out[i] in out;
        if out[i] != x {
          assert out[i] in s;
          HeadIsLeast(s, out[i], le);
        }
      }
      assert forall y :: y in Insert(x, s, le) <==> y == s[0] || y in out;
    }
  }

  /** A listing has as many entries as there are members. */
  lemma {:induction false} ListingLength<T(!new)>(members: set<T>, le: (T, T) -> bool, s: seq<T>)
    requires Listing(members, le, s)
    ensures |s| == |members|
  {
    if s == [] {
      assert members == {};
    } else {
      var rest := s[1..];
      assert forall y :: y in s <==> y == s[0] || y in rest;
      ListingLength(members - {s[0]}, le, rest);
    }
  }

  /** When no two members tie, there is only one listing. */
  lemma {:induction false} ListingUnique<T(!new)>(members: set<T>, le: (T, T) -> bool, a: seq<T>, b: seq<T>)
    requires Listing(members, le, a) && Listing(members, le, b)
    requires forall x, y :: x in members && y in members && le(x, y) && le(y, x) ==> x == y
    ensures a == b
  {
    ListingLength(members, le, a);
    ListingLength(members, le, b);
    if a != [] {
      assert a[0] in members && b[0] in members;
      HeadIsLeast(a, b[0], le);
      HeadIsLeast(b, a[0], le);
      assert forall y :: y in a <==> y == a[0] || y in a[1..];
      assert forall y :: y in b <==> y == b[0] || y in b[1..];
      ListingUnique(members - {a[0]}, le, a[1..], b[1..]);
    }
  }

  lemma HeadIsLeast<T>(s: seq<T>, x: T, le: (T, T) -> bool)
    requires Sorted(s, le) && x in s
    ensures x == s[0] || le(s[0], x)
  {
  }

  function Elements<T>(s: seq<T>): set<T> {
    set x | x in s
  }

  lemma {:induction false} DistinctCount<T(!new)>(s: seq<T>)
    requires Distinct(s)
    ensures |Elements(s)| == |s|
  {
    if s != [] {
      var rest := s[1..];
      DistinctCount(rest);
      assert Elements(s) == Elements(rest) + {s[0]};
    }
  }

  /** A cut of a listing is clean when the two members next to it do not tie. */
  predicate CleanCut<T>(s: seq<T>, le: (T, T) -> bool, at: nat)
    requires 0 < at < |s|
  {
    !le(s[at], s[at - 1])
  }

  /** Whatever stands behind a clean cut of one listing stands behind it in every listing. */
  lemma BehindCleanCut<T(!new)>(members: set<T>, le: (T, T) -> bool, a: seq<T>, c: seq<T>, at: nat, j: nat)
    requires TotalPreorder(le) && Listing(members, le, a) && Listing(members, le, c)
    requires 0 < at < |a| && CleanCut(a, le, at) && j < |c| && c[j] in a[at..]
    ensures at <= j
  {
    var y := c[j];
    forall x | x in a[..at]
      ensures x in c[..j]
    {
      assert x in members;
      var i :| 0 <= i < |c| && c[i] == x;
      assert le(x, a[at - 1]) && le(a[at], y);
      assert !le(y, x) && y != x;
    }
    DistinctCount(a[..at]);
    DistinctCount(c[..j]);
    SubsetCount(Elements(a[..at]), Elements(c[..j]));
  }

  lemma SubsetCount<T>(a: set<T>, b: set<T>)
    requires a <= b
    ensures |a| <= |b|
  {
    assert b == a + (b - a);
  }

  /** The front of one listing and the back of another make a listing when the cut is clean. */
  lemma CrossOver<T(!new)>(members: set<T>, le: (T, T) -> bool, a: seq<T>, c: seq<T>, at: nat)
    requires TotalPreorder(le) && Listing(members, le, a) && Listing(members, le, c)
    requires 0 < at < |a| && CleanCut(a, le, at)
    ensures |c| == |a| && Listing(members, le, a[..at] + c[at..])
  {
    ListingLength(members, le, a);
    ListingLength(members, le, c);
    var out := a[..at] + c[at..];
    SameFront(members, le, a, c, at);
    forall x
      ensures x in out <==> x in members
    {
      assert x in a <==> x in members;
      assert x in c <==> x in c[..at] || x in c[at..];
      assert x in a <==> x in a[..at] || x in a[at..];
    }
    forall i, j | 0 <= i < j < |out|
      ensures out[i] != out[j] && le(out[i], out[j])
    {
      if i < at <= j {
        assert out[i] in a[..at] && out[j] in a[at..];
      }
    }
  }

  /** Both sides of a clean cut hold the same members in every listing. */
  lemma SameFront<T(!new)>(members: set<T>, le: (T, T) -> bool, a: seq<T>, c: seq<T>, at: nat)
    requires TotalPreorder(le) && Listing(members, le, a) && Listing(members, le, c)
    requires 0 < at < |a| == |c| && CleanCut(a, le, at)
    ensures forall x :: x in c[..at] ==> x in a[..at]
    ensures forall x :: x in c[at..] ==> x in a[at..]
  {
    assert a == a[..at] + a[at..];
    forall x | x in c[..at]
      ensures x in a[..at]
    {
      var j :| 0 <= j < at && c[j] == x;
      assert x in members && x in a;
      if x in a[at..] {
        BehindCleanCut(members, le, a, c, at, j);
      }
    }
    SameSet(a[..at], c[..at]);
    forall x | x in c[at..]
      ensures x in a[at..]
    {
      var j :| at <= j < |c| && c[j] == x;
      assert x in members && x in a;
      assert x !in c[..at];
    }
  }

  /** As many distinct entries, all from the other list, are all of it. */
  lemma SameSet<T(!new)>(a: seq<T>, c: seq<T>)
    requires Distinct(a) && Distinct(c) && |a| == |c| && forall x :: x in c ==> x in a
    ensures forall x :: x in a ==> x in c
  {
    DistinctCount(a);
    DistinctCount(c);
    var rest := Elements(a) - Elements(c);
    assert Elements(a) == Elements(c) + rest;
    assert |rest| == 0;
    assert forall x :: x in a ==> x in Elements(a);
  }

  /** A cut that is clean in one listing is clean in every other. */
  lemma CleanElsewhere<T(!new)>(members: set<T>, le: (T, T) -> bool, a: seq<T>, c: seq<T>, at: nat)
    requires TotalPreorder(le) && Listing(members, le, a) && Listing(members, le, c)
    requires 0 < at < |a| == |c| && CleanCut(a, le, at)
    ensures CleanCut(c, le, at)
  {
    SameFront(members, le, a, c, at);
    var x, y := c[at - 1], c[at];
    assert c[..at][at - 1] == x && c[at..][0] == y;
    assert le(x, a[at - 1]) && le(a[at], y) by {
      assert x in a[..at] && y in a[at..];
    }
  }

  /** Swapping two neighbours that tie gives another listing. */
  lemma SwapTied<T(!new)>(members: set<T>, le: (T, T) -> bool, a: seq<T>, at: nat)
    requires TotalPreorder(le) && Listing(members, le, a) && 0 < at < |a| && !CleanCut(a, le, at)
    ensures Listing(members, le, a[at - 1 := a[at]][at := a[at - 1]])
  {
    var b := a[at - 1 := a[at]][at := a[at - 1]];
    forall x
      ensures x in b <==> x in members
    {
      if x in members {
        var i :| 0 <= i < |a| && a[i] == x;
        assert b[if i == at then at - 1 else if i == at - 1 then at else i] == x;
      }
    }
  }

  /** The database's own sort: some listing of the members. */
  method ListMembers<T(!new, ==)>(members: set<T>, le: (T, T) -> bool) returns (out: seq<T>)
    requires TotalPreorder(le)
    ensures Listing(members, le, out)
  {
    var rest := members;
    out := [];
    while rest != {}
      invariant rest <= members && Listing(members - rest, le, out)
      decreases |rest|
    {
      var x :| x in rest;
      InsertLists(x, out, members - rest, le);
      assert members - (rest - {x}) == members - rest + {x};
      out := Insert(x, out, le);
      rest := rest - {x};
    }
    assert members - {} == members;
  }

  /**
    The first `n` entries of a listing are the least `n` members: in order, each once, and nothing
    left out comes before anything kept.
   */
  lemma FirstOfListing<T(!new)>(members: set<T>, le: (T, T) -> bool, all: seq<T>, n: nat)
    requires Listing(members, le, all) && n <= |all|
    ensures Sorted(all[..n], le) && Distinct(all[..n])
    ensures forall x :: x in all[..n] ==> x in members
    ensures forall x, y :: x in all[..n] && y in members && y !in all[..n] ==> le(x, y)
    ensures |all| == |members|
  {
    ListingLength(members, le, all);
    assert forall x :: x in all[..n] ==> x in all;
    forall x, y | x in all[..n] && y in members && y !in all[..n]
      ensures le(x, y)
    {
      var i :| 0 <= i < n && all[i] == x;
      assert all == all[..n] + all[n..];
      var j :| n <= j < |all| && all[j] == y;
    }
  }
}
