/** JavaScript's `Set`, as the generators use it: an insertion-ordered
    collection that ignores an element it already holds.  `Array.from(set)`
    is the underlying sequence itself. */
module OrderedSet {

  /** No element occurs twice. */
  predicate NoDup(s: seq<string>) {
    forall i, j :: 0 <= i < j < |s| ==> s[i] != s[j]
  }

  /** `set.add(x)`. */
  function Insert(acc: seq<string>, x: string): (r: seq<string>)
    ensures forall y :: y in r <==> y in acc || y == x
    ensures NoDup(acc) ==> NoDup(r)
    ensures acc <= r
    ensures x in acc ==> r == acc
  {
    if x in acc then acc else acc + [x]
  }

  /** `xs.forEach(x => set.add(x))`. */
  function InsertAll(acc: seq<string>, xs: seq<string>): (r: seq<string>)
    ensures forall y :: y in r <==> y in acc || y in xs
    ensures NoDup(acc) ==> NoDup(r)
    ensures acc <= r
    decreases |xs|
  {
    if xs == [] then acc else InsertAll(Insert(acc, xs[0]), xs[1..])
  }

  /** Adding two batches one after the other is adding their concatenation. */
  lemma {:induction false} InsertAllAppend(acc: seq<string>, xs: seq<string>, ys: seq<string>)
    ensures InsertAll(acc, xs + ys) == InsertAll(InsertAll(acc, xs), ys)
    decreases |xs|
  {
    if xs == [] {
      assert xs + ys == ys;
    } else {
      assert (xs + ys)[0] == xs[0];
      assert (xs + ys)[1..] == xs[1..] + ys;
      InsertAllAppend(Insert(acc, xs[0]), xs[1..], ys);
    }
  }

  /** `Array.from(new Set(xs))`. */
  function Dedup(xs: seq<string>): (r: seq<string>)
    ensures NoDup(r)
    ensures forall y :: y in r <==> y in xs
  {
    InsertAll([], xs)
  }

  function Map(f: string -> string, xs: seq<string>): (r: seq<string>)
    ensures |r| == |xs|
    ensures forall i :: 0 <= i < |xs| ==> r[i] == f(xs[i])
  {
    seq(|xs|, i requires 0 <= i < |xs| => f(xs[i]))
  }

  /** `f` maps no two distinct elements of `xs` to the same value. */
  ghost predicate InjectiveOn(f: string -> string, xs: seq<string>) {
    forall a, b :: a in xs && b in xs && f(a) == f(b) ==> a == b
  }

  /** Collecting the images of an injective map into a `Set` gives one entry
      per distinct element, in first-occurrence order. */
  lemma {:induction false} InsertAllMap(f: string -> string, acc: seq<string>, xs: seq<string>)
    requires InjectiveOn(f, acc + xs)
    ensures InsertAll(Map(f, acc), Map(f, xs)) == Map(f, InsertAll(acc, xs))
    decreases |xs|
  {
    if xs != [] {
      var x := xs[0];
      assert x in acc + xs;
      assert f(x) in Map(f, acc) <==> x in acc by {
        if f(x) in Map(f, acc) {
          var k :| 0 <= k < |acc| && Map(f, acc)[k] == f(x);
          assert acc[k] in acc + xs;
        }
        if x in acc {
          var k :| 0 <= k < |acc| && acc[k] == x;
          assert Map(f, acc)[k] == f(x);
        }
      }
      if x in acc {
        assert Insert(Map(f, acc), f(x)) == Map(f, acc) == Map(f, Insert(acc, x));
      } else {
        assert Insert(Map(f, acc), f(x)) == Map(f, acc) + [f(x)] == Map(f, Insert(acc, x));
      }
      assert Map(f, xs)[0] == f(x);
      assert Map(f, xs)[1..] == Map(f, xs[1..]);
      forall a, b | a in Insert(acc, x) + xs[1..] && b in Insert(acc, x) + xs[1..] && f(a) == f(b)
        ensures a == b
      {
        assert a in acc + xs by { if a !in acc && a != x { assert a in xs[1..]; } }
        assert b in acc + xs by { if b !in acc && b != x { assert b in xs[1..]; } }
      }
      InsertAllMap(f, Insert(acc, x), xs[1..]);
    }
  }

  /** A duplicate-free sequence has as many elements as the set of them. */
  lemma {:induction false} NoDupCardinality(s: seq<string>)
    requires NoDup(s)
    ensures |set x | x in s| == |s|
  {
    if s != [] {
      var t := s[1..];
      assert NoDup(t);
      NoDupCardinality(t);
      assert (set x | x in s) == (set x | x in t) + {s[0]};
      assert s[0] !in t;
    }
  }
}
