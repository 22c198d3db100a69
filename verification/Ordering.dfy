/** Python's order on strings, and sorted(..., key=...) as insertion by key. */
module Ordering {
  predicate Less(a: string, b: string) {
    if b == "" then false
    else if a == "" then true
    else a[0] < b[0] || (a[0] == b[0] && Less(a[1..], b[1..]))
  }

  lemma {:induction false} LessTotal(a: string, b: string)
    ensures !(Less(a, b) && Less(b, a))
    ensures Less(a, b) || Less(b, a) || a == b
    ensures !Less(a, a)
  {
    if a != "" && b != "" {
      LessTotal(a[1..], b[1..]);
      assert a == [a[0]] + a[1..] && b == [b[0]] + b[1..];
    }
    if a != "" { LessTotal(a[1..], a[1..]); }
  }

  lemma {:induction false} LessTransitive(a: string, b: string, c: string)
    requires Less(a, b) && Less(b, c)
    ensures Less(a, c)
  {
    if a != "" && a[0] == b[0] && b[0] == c[0] {
      LessTransitive(a[1..], b[1..], c[1..]);
    }
  }

  function Placed<T>(x: T, xs: seq<T>, keyOf: T -> string): (r: seq<T>)
    ensures multiset(r) == multiset(xs) + multiset{x}
  {
    if xs == [] then [x]
    else if Less(keyOf(xs[0]), keyOf(x)) then
      assert xs == [xs[0]] + xs[1..];
      [xs[0]] + Placed(x, xs[1..], keyOf)
    else [x] + xs
  }

  /** sorted(xs, key=keyOf) */
  function SortBy<T>(xs: seq<T>, keyOf: T -> string): (r: seq<T>)
    ensures multiset(r) == multiset(xs)
  {
    if xs == [] then []
    else
      assert xs == [xs[0]] + xs[1..];
      Placed(xs[0], SortBy(xs[1..], keyOf), keyOf)
  }

  lemma SortKeeps<T>(xs: seq<T>, keyOf: T -> string)
    ensures |SortBy(xs, keyOf)| == |xs| && forall x :: x in SortBy(xs, keyOf) <==> x in xs
  {
    assert |multiset(xs)| == |multiset(SortBy(xs, keyOf))|;
    forall x
      ensures x in SortBy(xs, keyOf) <==> x in xs
    {
      assert x in SortBy(xs, keyOf) <==> x in multiset(SortBy(xs, keyOf));
    }
  }

  predicate KeysRise<T>(xs: seq<T>, keyOf: T -> string) {
    forall i, j :: 0 <= i < j < |xs| ==> Less(keyOf(xs[i]), keyOf(xs[j]))
  }

  predicate KeysDiffer<T>(xs: seq<T>, keyOf: T -> string) {
    forall i, j :: 0 <= i < j < |xs| ==> keyOf(xs[i]) != keyOf(xs[j])
  }

  lemma {:induction false} PlacedRises<T>(x: T, xs: seq<T>, keyOf: T -> string)
    requires KeysRise(xs, keyOf) && forall y :: y in xs ==> keyOf(y) != keyOf(x)
    ensures KeysRise(Placed(x, xs, keyOf), keyOf)
  {
    if xs != [] {
      LessTotal(keyOf(xs[0]), keyOf(x));
      if Less(keyOf(xs[0]), keyOf(x)) {
        PlacedRises(x, xs[1..], keyOf);
        var later := Placed(x, xs[1..], keyOf);
        forall j | 0 <= j < |later|
          ensures Less(keyOf(xs[0]), keyOf(later[j]))
        {
          assert later[j] in multiset(later);
        }
      } else {
        forall j | 0 <= j < |xs|
          ensures Less(keyOf(x), keyOf(xs[j]))
        {
          if j > 0 { LessTransitive(keyOf(x), keyOf(xs[0]), keyOf(xs[j])); }
        }
      }
    }
  }

  lemma HeadDiffers<T>(xs: seq<T>, keyOf: T -> string)
    requires KeysDiffer(xs, keyOf) && xs != []
    ensures forall y :: y in SortBy(xs[1..], keyOf) ==> keyOf(y) != keyOf(xs[0])
  {
    var sorted := SortBy(xs[1..], keyOf);
    forall y | y in sorted
      ensures keyOf(y) != keyOf(xs[0])
    {
      assert y in multiset(sorted) && y in multiset(xs[1..]) && y in xs[1..];
      var j :| 0 <= j < |xs| - 1 && xs[1..][j] == y;
      assert xs[j + 1] == y;
    }
  }

  /** With distinct keys, sorting puts them in strictly rising order. */
  lemma {:induction false} SortRises<T>(xs: seq<T>, keyOf: T -> string)
    requires KeysDiffer(xs, keyOf)
    ensures KeysRise(SortBy(xs, keyOf), keyOf)
  {
    if xs != [] {
      SortRises(xs[1..], keyOf);
      HeadDiffers(xs, keyOf);
      PlacedRises(xs[0], SortBy(xs[1..], keyOf), keyOf);
    }
  }

  lemma HeadIsLeast<T>(xs: seq<T>, ys: seq<T>, keyOf: T -> string)
    requires KeysRise(xs, keyOf) && KeysRise(ys, keyOf) && multiset(xs) == multiset(ys) && xs != [] && ys != []
    ensures xs[0] == ys[0]
  {
    assert xs[0] in multiset(ys) && ys[0] in multiset(xs);
    var i :| 0 <= i < |ys| && ys[i] == xs[0];
    var j :| 0 <= j < |xs| && xs[j] == ys[0];
    LessTotal(keyOf(xs[0]), keyOf(ys[0]));
  }

  /** A rising sequence is determined by its elements. */
  lemma {:induction false} RisingUnique<T>(xs: seq<T>, ys: seq<T>, keyOf: T -> string)
    requires KeysRise(xs, keyOf) && KeysRise(ys, keyOf) && multiset(xs) == multiset(ys)
    ensures xs == ys
  {
    assert |xs| == |multiset(xs)| == |multiset(ys)| == |ys|;
    if xs != [] {
      HeadIsLeast(xs, ys, keyOf);
      assert xs == [xs[0]] + xs[1..] && ys == [ys[0]] + ys[1..];
      assert multiset(xs[1..]) == multiset(xs) - multiset{xs[0]};
      assert multiset(ys[1..]) == multiset(ys) - multiset{ys[0]};
      RisingUnique(xs[1..], ys[1..], keyOf);
    }
  }

  /** So sorting forgets the order it is given. */
  lemma {:induction false} SortCanonical<T>(xs: seq<T>, ys: seq<T>, keyOf: T -> string)
    requires multiset(xs) == multiset(ys) && KeysDiffer(xs, keyOf) && KeysDiffer(ys, keyOf)
    ensures SortBy(xs, keyOf) == SortBy(ys, keyOf)
  {
    SortRises(xs, keyOf);
    SortRises(ys, keyOf);
    RisingUnique(SortBy(xs, keyOf), SortBy(ys, keyOf), keyOf);
  }
}
