/** Ranking of candidate venues: Python's `sorted(venues, key=rating,
    reverse=True)`, a stable sort on descending rating. */
module Ranking {
  import opened Catalog

  /** Ratings never increase along `s`. */
  ghost predicate SortedByRatingDesc(s: seq<Venue>) {
    forall i, j :: 0 <= i < j < |s| ==> s[j].rating <= s[i].rating
  }

  /** The venues of `s` rated exactly `k`, in their order in `s`. */
  function RatedAt(s: seq<Venue>, k: int): seq<Venue> {
    if s == [] then []
    else (if s[0].rating == k then [s[0]] else []) + RatedAt(s[1..], k)
  }

  /** `t` is a stable descending arrangement of `s`: sorted by rating, and
      within every rating the venues keep their relative order from `s`.
      This is what a stable sort promises, stated without any algorithm. */
  ghost predicate IsStableDescending(s: seq<Venue>, t: seq<Venue>) {
    && SortedByRatingDesc(t)
    && forall k :: RatedAt(t, k) == RatedAt(s, k)
  }

  /** The venues rated `k` are exactly the members of `s` with that rating. */
  lemma {:induction false} RatedAtMembers(s: seq<Venue>, k: int)
    ensures forall v :: v in RatedAt(s, k) <==> v in s && v.rating == k
  {
    if s != [] {
      RatedAtMembers(s[1..], k);
      assert s == [s[0]] + s[1..];
    }
  }

  /** A non-empty list has some venue at the rating of its first one. */
  lemma RatedAtOfFirst(s: seq<Venue>)
    ensures s != [] ==> RatedAt(s, s[0].rating) != []
  {
  }

  /** Selecting a rating distributes over concatenation. */
  lemma {:induction false} RatedAtAppend(a: seq<Venue>, b: seq<Venue>, k: int)
    ensures RatedAt(a + b, k) == RatedAt(a, k) + RatedAt(b, k)
  {
    if a == [] {
      assert a + b == b;
    } else {
      RatedAtAppend(a[1..], b, k);
      assert a + b == [a[0]] + (a[1..] + b);
      RatedAtCons(a[0], a[1..] + b, k);
      RatedAtCons(a[0], a[1..], k);
      assert a == [a[0]] + a[1..];
    }
  }

  /** Inserts `x` into the sorted `t` before the first venue rated no higher
      than `x`, so that `x` precedes its equals. */
  function Insert(x: Venue, t: seq<Venue>): (r: seq<Venue>)
    ensures |r| == |t| + 1
    ensures multiset(r) == multiset(t) + multiset{x}
    decreases |t|
  {
    if t == [] || t[0].rating <= x.rating then
      [x] + t
    else
      assert t == [t[0]] + t[1..];
      [t[0]] + Insert(x, t[1..])
  }

  /** No venue of `s` is rated above `b`. */
  ghost predicate RatedAtMost(s: seq<Venue>, b: int) {
    forall i :: 0 <= i < |s| ==> s[i].rating <= b
  }

  /** Inserting a venue rated at most `b` into a list rated at most `b`
      gives a list rated at most `b`. */
  lemma {:induction false} InsertRatedAtMost(x: Venue, t: seq<Venue>, b: int)
    requires x.rating <= b && RatedAtMost(t, b)
    ensures RatedAtMost(Insert(x, t), b)
    decreases |t|
  {
    if t == [] || t[0].rating <= x.rating {
    } else {
      InsertRatedAtMost(x, t[1..], b);
    }
  }

  /** A venue rated at least as high as every venue of a sorted list can go
      in front of it. */
  lemma ConsSorted(x: Venue, s: seq<Venue>)
    requires SortedByRatingDesc(s) && RatedAtMost(s, x.rating)
    ensures SortedByRatingDesc([x] + s)
  {
    var r := [x] + s;
    forall i, j | 0 <= i < j < |r|
      ensures r[j].rating <= r[i].rating
    {
      assert r[j] == s[j - 1];
      if i > 0 {
        assert r[i] == s[i - 1];
      }
    }
  }

  /** Insertion keeps a sorted list sorted. */
  lemma {:induction false} InsertSorted(x: Venue, t: seq<Venue>)
    requires SortedByRatingDesc(t)
    ensures SortedByRatingDesc(Insert(x, t))
    decreases |t|
  {
    if t == [] || t[0].rating <= x.rating {
      ConsSorted(x, t);
    } else {
      InsertSorted(x, t[1..]);
      InsertRatedAtMost(x, t[1..], t[0].rating);
      ConsSorted(t[0], Insert(x, t[1..]));
    }
  }

  /** Selecting a rating from a list with a venue in front. */
  lemma RatedAtCons(v: Venue, s: seq<Venue>, k: int)
    ensures RatedAt([v] + s, k) == (if v.rating == k then [v] else []) + RatedAt(s, k)
  {
    assert ([v] + s)[1..] == s;
  }

  /** Inserting `x` into a sorted list puts it in front of the venues of its
      own rating and changes no other rating's selection. */
  lemma {:induction false} InsertRatedAtK(x: Venue, t: seq<Venue>, k: int)
    requires SortedByRatingDesc(t)
    ensures RatedAt(Insert(x, t), k) == (if x.rating == k then [x] else []) + RatedAt(t, k)
    decreases |t|
  {
    if t == [] || t[0].rating <= x.rating {
      RatedAtCons(x, t, k);
    } else {
      var rest := Insert(x, t[1..]);
      InsertRatedAtK(x, t[1..], k);
      RatedAtCons(t[0], rest, k);
      RatedAtCons(t[0], t[1..], k);
      assert t == [t[0]] + t[1..];
      if x.rating == k {
        assert t[0].rating != k;
      }
    }
  }

  /** The same, for every rating at once. */
  lemma {:induction false} InsertRatedAt(x: Venue, t: seq<Venue>)
    requires SortedByRatingDesc(t)
    ensures forall k :: RatedAt(Insert(x, t), k) == (if x.rating == k then [x] else []) + RatedAt(t, k)
  {
    forall k
      ensures RatedAt(Insert(x, t), k) == (if x.rating == k then [x] else []) + RatedAt(t, k)
    {
      InsertRatedAtK(x, t, k);
    }
  }

  /** The stable descending sort by rating. */
  function SortByRatingDesc(s: seq<Venue>): (r: seq<Venue>)
    ensures |r| == |s|
    ensures multiset(r) == multiset(s)
  {
    if s == [] then []
    else
      assert s == [s[0]] + s[1..];
      Insert(s[0], SortByRatingDesc(s[1..]))
  }

  /** The sort is stable and descending: ratings never increase along it and
      each rating's venues keep their input order. */
  lemma {:induction false} SortIsStableDescending(s: seq<Venue>)
    ensures IsStableDescending(s, SortByRatingDesc(s))
  {
    if s != [] {
      var rest := SortByRatingDesc(s[1..]);
      SortIsStableDescending(s[1..]);
      InsertSorted(s[0], rest);
      InsertRatedAt(s[0], rest);
      assert SortByRatingDesc(s) == Insert(s[0], rest);
      forall k
        ensures RatedAt(SortByRatingDesc(s), k) == RatedAt(s, k)
      {
        assert RatedAt(s, k) == (if s[0].rating == k then [s[0]] else []) + RatedAt(s[1..], k);
      }
    }
  }

  /** Sorting neither adds nor loses venues. */
  lemma SortMembers(s: seq<Venue>)
    ensures forall v :: v in SortByRatingDesc(s) <==> v in s
  {
    var r := SortByRatingDesc(s);
    forall v
      ensures v in r <==> v in s
    {
      assert v in r <==> v in multiset(r);
      assert v in s <==> v in multiset(s);
    }
  }

  /** What remains of a rating's selection once the first venue is dropped. */
  lemma RatedAtRest(s: seq<Venue>, k: int)
    requires s != []
    ensures RatedAt(s[1..], k) == if s[0].rating == k then RatedAt(s, k)[1..] else RatedAt(s, k)
  {
    assert RatedAt(s, k) == (if s[0].rating == k then [s[0]] else []) + RatedAt(s[1..], k);
  }

  /** Nothing in a sorted list is rated above its first venue. */
  lemma FirstIsTopRated(s: seq<Venue>, v: Venue)
    requires SortedByRatingDesc(s) && s != [] && v in s
    ensures v.rating <= s[0].rating
  {
    var i :| 0 <= i < |s| && s[i] == v;
  }

  /** Two sorted lists with the same selection for every rating start with
      the same rating. */
  lemma SameTopRating(a: seq<Venue>, b: seq<Venue>)
    requires SortedByRatingDesc(a) && SortedByRatingDesc(b) && a != [] && b != []
    requires forall k :: RatedAt(a, k) == RatedAt(b, k)
    ensures a[0].rating == b[0].rating
  {
    var ka, kb := a[0].rating, b[0].rating;
    RatedAtMembers(a, ka);
    RatedAtMembers(b, ka);
    RatedAtMembers(a, kb);
    RatedAtMembers(b, kb);
    assert a[0] in RatedAt(b, ka);
    FirstIsTopRated(b, a[0]);
    assert b[0] in RatedAt(a, kb);
    FirstIsTopRated(a, b[0]);
  }

  /** A stable descending arrangement is unique: whatever sorts `s` stably
      by descending rating produces the same sequence. */
  lemma {:induction false} StableDescendingUnique(a: seq<Venue>, b: seq<Venue>)
    requires SortedByRatingDesc(a) && SortedByRatingDesc(b)
    requires forall k :: RatedAt(a, k) == RatedAt(b, k)
    ensures a == b
    decreases |a|
  {
    if a == [] {
      RatedAtOfFirst(b);
    } else if b == [] {
      RatedAtOfFirst(a);
    } else {
      var k0 := a[0].rating;
      SameTopRating(a, b);
      RatedAtRest(a, k0);
      RatedAtRest(b, k0);
      assert RatedAt(a, k0)[0] == a[0];
      assert RatedAt(b, k0)[0] == b[0];
      forall k
        ensures RatedAt(a[1..], k) == RatedAt(b[1..], k)
      {
        RatedAtRest(a, k);
        RatedAtRest(b, k);
      }
      StableDescendingUnique(a[1..], b[1..]);
      assert a == [a[0]] + a[1..];
      assert b == [b[0]] + b[1..];
    }
  }

  /** The stable sort is the one stable descending arrangement of its input. */
  lemma SortIsTheStableArrangement(s: seq<Venue>, t: seq<Venue>)
    requires IsStableDescending(s, t)
    ensures SortByRatingDesc(s) == t
  {
    var r := SortByRatingDesc(s);
    SortIsStableDescending(s);
    StableDescendingUnique(r, t);
  }

  /** Cutting a stably sorted list keeps, for each rating, the earliest venues
      of that rating in input order, and nothing kept is rated below anything
      cut. */
  lemma {:induction false} TakeOfStableDescending(s: seq<Venue>, t: seq<Venue>, n: nat)
    requires IsStableDescending(s, t)
    ensures SortedByRatingDesc(Take(t, n))
    ensures forall k :: RatedAt(Take(t, n), k) <= RatedAt(s, k)
    ensures forall i, j :: 0 <= i < |Take(t, n)| <= j < |t| ==> t[j].rating <= Take(t, n)[i].rating
  {
    var p := Take(t, n);
    assert t == p + t[|p|..];
    forall k
      ensures RatedAt(p, k) <= RatedAt(s, k)
    {
      RatedAtAppend(p, t[|p|..], k);
    }
  }
}
