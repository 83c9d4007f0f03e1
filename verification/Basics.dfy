// Shared vocabulary: optional values, and the meaning of a SQL `ORDER BY` over
// a finite set of rows.
module Basics {

  datatype Option<+T> = None | Some(value: T) {
    function GetOr(default: T): T {
      match this
      case None => default
      case Some(v) => v
    }
  }

  /** `xs` lists every element of `s` once. */
  ghost predicate Enumerates<T(!new)>(xs: seq<T>, s: set<T>) {
    && (forall i, j | 0 <= i < j < |xs| :: xs[i] != xs[j])
    && (forall x :: x in xs <==> x in s)
  }

  ghost predicate SortedBy<T>(xs: seq<T>, le: (T, T) -> bool) {
    forall i, j | 0 <= i < j < |xs| :: le(xs[i], xs[j])
  }

  /** `xs` is an answer SQLite may give to `SELECT ... ORDER BY le` over `s`. */
  ghost predicate OrderedListing<T(!new)>(xs: seq<T>, s: set<T>, le: (T, T) -> bool) {
    Enumerates(xs, s) && SortedBy(xs, le)
  }

  ghost predicate TotalPreorder<T(!new)>(le: (T, T) -> bool) {
    && (forall x :: le(x, x))
    && (forall x, y :: le(x, y) || le(y, x))
    && (forall x, y, z :: le(x, y) && le(y, z) ==> le(x, z))
  }

  /** A non-empty finite set has a least element under a total preorder. */
  lemma {:induction false} LeastExists<T(!new)>(s: set<T>, le: (T, T) -> bool) returns (least: T)
    requires s != {} && TotalPreorder(le)
    ensures least in s && forall x | x in s :: le(least, x)
  {
    var pick :| pick in s;
    var rest := s - {pick};
    if rest == {} {
      assert s == {pick};
      least := pick;
    } else {
      var other := LeastExists(rest, le);
      least := if le(pick, other) then pick else other;
      assert forall x | x in s :: x == pick || x in rest;
    }
  }

  /** The rows of `s` in an order that `ORDER BY le` allows; ties come out in any order. */
  method OrderBy<T(!new)>(s: set<T>, le: (T, T) -> bool) returns (xs: seq<T>)
    requires TotalPreorder(le)
    ensures OrderedListing(xs, s, le)
  {
    xs := [];
    var rest := s;
    while rest != {}
      invariant rest <= s
      invariant Enumerates(xs, s - rest) && SortedBy(xs, le)
      invariant forall x, y | x in xs && y in rest :: le(x, y)
      decreases rest
    {
      ghost var witnessed := LeastExists(rest, le);
      var next :| next in rest && forall y | y in rest :: le(next, y);
      xs, rest := xs + [next], rest - {next};
    }
    assert s - rest == s;
  }

  /** Two listings of one set under an antisymmetric order are the same list. */
  lemma {:induction false} ListingUnique<T(!new)>(xs: seq<T>, ys: seq<T>, s: set<T>, le: (T, T) -> bool)
    requires forall x, y :: le(x, y) && le(y, x) ==> x == y
    requires OrderedListing(xs, s, le) && OrderedListing(ys, s, le)
    ensures xs == ys
    decreases |xs|
  {
    assert forall y | y in ys :: y in xs;
    assert ys != [] ==> ys[0] in ys;
    if xs != [] {
      assert xs[0] in xs && xs[0] in ys;
      var i :| 0 <= i < |ys| && ys[i] == xs[0];
      var j :| 0 <= j < |xs| && xs[j] == ys[0];
      assert xs[0] == ys[0];
      TailListing(xs, s, le);
      TailListing(ys, s, le);
      ListingUnique(xs[1..], ys[1..], s - {xs[0]}, le);
      assert xs == [xs[0]] + xs[1..] && ys == [ys[0]] + ys[1..];
    }
  }

  lemma TailListing<T(!new)>(xs: seq<T>, s: set<T>, le: (T, T) -> bool)
    requires OrderedListing(xs, s, le) && xs != []
    ensures OrderedListing(xs[1..], s - {xs[0]}, le)
  {
    var tail := xs[1..];
    assert forall i | 0 <= i < |tail| :: tail[i] == xs[i + 1];
    forall x ensures x in tail <==> x in s - {xs[0]} {
      if x in tail {
        var i :| 0 <= i < |tail| && tail[i] == x;
        assert xs[i + 1] in xs;
      }
      if x in s - {xs[0]} {
        assert x in xs;
        var i :| 0 <= i < |xs| && xs[i] == x;
        assert tail[i - 1] == x;
      }
    }
  }
}
