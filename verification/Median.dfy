/** The price published for a pair: the middle one of the answers that came in.

    Providers are asked concurrently and answer in any order; a failed one answers zero. Prices
    are real numbers. */
module Median {
  import opened Wrappers

  /** A failed provider sends the zero value. */
  datatype Reply = Reply(value: real, provider: string)

  datatype Quote = Quote(pair: string, perGram: real, provider: string, fetchedAt: Time)

  // ---------------------------------------------------------------------------- fetching

  function Values(arrivals: seq<Reply>): seq<real> {
    if arrivals == [] then []
    else
      var last := arrivals[|arrivals| - 1];
      Values(arrivals[..|arrivals| - 1]) + if last.value > 0.0 then [last.value] else []
  }

  function Names(arrivals: seq<Reply>): seq<string> {
    if arrivals == [] then []
    else
      var last := arrivals[|arrivals| - 1];
      Names(arrivals[..|arrivals| - 1]) + if last.value > 0.0 then [last.provider] else []
  }

  function Label(names: seq<string>): string {
    if names == [] then ""
    else if |names| == 1 then names[0]
    else Label(names[..|names| - 1]) + "," + names[|names| - 1]
  }

  method JoinProviders(names: seq<string>) returns (out: string)
    ensures out == Label(names)
  {
    if |names| == 0 {
      return "";
    }
    out := names[0];
    for k := 1 to |names|
      invariant out == Label(names[..k])
    {
      out := out + "," + names[k];
      assert names[..k + 1][..k] == names[..k];
    }
    assert names[..|names|] == names;
  }

  function Inserted(s: seq<real>, x: real): seq<real> {
    if s == [] then [x]
    else if s[|s| - 1] <= x then s + [x]
    else Inserted(s[..|s| - 1], x) + [s[|s| - 1]]
  }

  function Sort(xs: seq<real>): (s: seq<real>)
    ensures |s| == |xs|
  {
    if xs == [] then []
    else
      SortedInsert(Sort(xs[..|xs| - 1]), xs[|xs| - 1]);
      Inserted(Sort(xs[..|xs| - 1]), xs[|xs| - 1])
  }

  /** The price itself, which is all of a quote that the arrival order leaves alone. */
  function Published(arrivals: seq<Reply>): Option<real> {
    var values := Values(arrivals);
    if values == [] then None else Some(Sort(values)[|values| / 2])
  }

  /** The answers are collected as they arrive, sorted, and the middle one is taken. */
  method FetchMedian(arrivals: seq<Reply>, pair: string, now: Time) returns (q: Option<Quote>)
    ensures q.Some? <==> Published(arrivals).Some?
    ensures q.Some? ==> q.value == Quote(pair, Published(arrivals).value, Label(Names(arrivals)), now)
  {
    var values: seq<real>, names: seq<string> := [], [];
    for k := 0 to |arrivals|
      invariant values == Values(arrivals[..k]) && names == Names(arrivals[..k])
    {
      assert arrivals[..k + 1][..k] == arrivals[..k];
      var r := arrivals[k];
      if r.value > 0.0 {
        values := values + [r.value];
        names := names + [r.provider];
      }
    }
    assert arrivals[..|arrivals|] == arrivals;
    if |values| == 0 {
      return None;
    }
    var total := |values|;
    values := Sort(values);
    var median := values[total / 2];
    var joined := JoinProviders(names);
    q := Some(Quote(pair, median, joined, now));
  }

  // ---------------------------------------------------------------------------- counting

  function Count(xs: seq<real>, p: real -> bool): nat {
    if xs == [] then 0 else Count(xs[..|xs| - 1], p) + if p(xs[|xs| - 1]) then 1 else 0
  }

  function Below(v: real): real -> bool { x => x < v }

  function AtMost(v: real): real -> bool { x => x <= v }

  function Above(v: real): real -> bool { x => x > v }

  predicate Sorted(s: seq<real>) {
    forall i, j | 0 <= i < j < |s| :: s[i] <= s[j]
  }

  lemma {:induction false} SortedInsert(s: seq<real>, x: real)
    ensures |Inserted(s, x)| == |s| + 1
    ensures multiset(Inserted(s, x)) == multiset(s) + multiset{x}
    ensures Sorted(s) ==> Sorted(Inserted(s, x))
  {
    if s != [] && s[|s| - 1] > x {
      var front, last := s[..|s| - 1], s[|s| - 1];
      SortedInsert(front, x);
      assert s == front + [last];
      var t := Inserted(front, x);
      forall i | 0 <= i < |t| ensures t[i] in multiset(front) || t[i] == x {
        assert t[i] in multiset(t);
      }
    }
  }

  /** Sorting orders the values and keeps every one of them. */
  lemma {:induction false} SortSorts(xs: seq<real>)
    ensures Sorted(Sort(xs)) && multiset(Sort(xs)) == multiset(xs)
  {
    if xs != [] {
      SortSorts(xs[..|xs| - 1]);
      SortedInsert(Sort(xs[..|xs| - 1]), xs[|xs| - 1]);
      assert xs == xs[..|xs| - 1] + [xs[|xs| - 1]];
    }
  }

  lemma {:induction false} CountConcat(xs: seq<real>, ys: seq<real>, p: real -> bool)
    ensures Count(xs + ys, p) == Count(xs, p) + Count(ys, p)
  {
    if ys == [] {
      assert xs + ys == xs;
    } else {
      CountConcat(xs, ys[..|ys| - 1], p);
      assert (xs + ys)[..|xs + ys| - 1] == xs + ys[..|ys| - 1];
    }
  }

  /** Taking the same element out of two permutations of each other leaves two permutations. */
  lemma TakenOut<T>(xs: seq<T>, ys: seq<T>) returns (left: seq<T>, right: seq<T>)
    requires xs != [] && multiset(xs) == multiset(ys)
    ensures ys == left + ([xs[|xs| - 1]] + right)
    ensures multiset(xs[..|xs| - 1]) == multiset(left + right)
  {
    var front, x := xs[..|xs| - 1], xs[|xs| - 1];
    assert xs == front + [x];
    assert x in multiset(ys);
    var j :| 0 <= j < |ys| && ys[j] == x;
    left, right := ys[..j], ys[j + 1..];
    assert ys == left + ([x] + right);
    assert multiset(ys) == multiset(left) + (multiset{x} + multiset(right));
    Cancelled(multiset(front), multiset(left), multiset(right), x);
  }

  lemma Cancelled<T>(m: multiset<T>, left: multiset<T>, right: multiset<T>, x: T)
    requires m + multiset{x} == left + (multiset{x} + right)
    ensures m == left + right
  {
    assert left + (multiset{x} + right) - multiset{x} == left + right;
    assert m + multiset{x} - multiset{x} == m;
  }

  /** A count does not depend on the order. */
  lemma {:induction false} CountPermuted(xs: seq<real>, ys: seq<real>, p: real -> bool)
    requires multiset(xs) == multiset(ys)
    ensures Count(xs, p) == Count(ys, p)
  {
    if xs == [] {
      assert |multiset(ys)| == 0;
    } else {
      var front, x := xs[..|xs| - 1], xs[|xs| - 1];
      var left, right := TakenOut(xs, ys);
      CountPermuted(front, left + right, p);
      CountConcat(left, right, p);
      CountConcat(left, [x] + right, p);
      CountConcat([x], right, p);
      assert Count([x], p) == if p(x) then 1 else 0;
    }
  }

  lemma {:induction false} CountAll(xs: seq<real>, p: real -> bool)
    ensures Count(xs, p) <= |xs|
    ensures (forall k | 0 <= k < |xs| :: p(xs[k])) ==> Count(xs, p) == |xs|
  {
    if xs != [] {
      CountAll(xs[..|xs| - 1], p);
      assert forall k | 0 <= k < |xs| - 1 :: xs[..|xs| - 1][k] == xs[k];
    }
  }

  ghost predicate DownwardClosed(p: real -> bool) {
    forall x, y | x <= y && p(y) :: p(x)
  }

  /** In a sorted sequence such a property holds at a rank if it holds of more values than that. */
  lemma {:induction false} RankCounts(s: seq<real>, k: nat, p: real -> bool)
    requires Sorted(s) && k < |s| && DownwardClosed(p)
    ensures p(s[k]) <==> Count(s, p) > k
  {
    var n := |s| - 1;
    if k < n {
      RankCounts(s[..n], k, p);
      assert s[k] <= s[n];
    } else {
      CountAll(s[..n], p);
    }
  }

  lemma {:induction false} CountSplit(xs: seq<real>, v: real)
    ensures Count(xs, AtMost(v)) + Count(xs, Above(v)) == |xs|
  {
    if xs != [] {
      CountSplit(xs[..|xs| - 1], v);
    }
  }

  // --------------------------------------------------------------------------- robustness

  /** When the published price lies within [lo, hi], told from the accepted values alone: at
      most half of them, rounded down, are below lo, and more than that are not above hi. */
  lemma PriceWithinExactly(arrivals: seq<Reply>, lo: real, hi: real)
    requires Values(arrivals) != []
    ensures var values, half := Values(arrivals), |Values(arrivals)| / 2;
            && Published(arrivals).Some?
            && (lo <= Published(arrivals).value <= hi
                <==> Count(values, Below(lo)) <= half && half < |values| - Count(values, Above(hi)))
  {
    var values := Values(arrivals);
    var s, half := Sort(values), |values| / 2;
    SortSorts(values);
    CountPermuted(values, s, Below(lo));
    CountPermuted(values, s, AtMost(hi));
    CountSplit(values, hi);
    RankCounts(s, half, Below(lo));
    RankCounts(s, half, AtMost(hi));
  }

  /** A minority of outliers cannot move the price out of the range. */
  lemma FewOutliersHarmless(arrivals: seq<Reply>, lo: real, hi: real)
    requires Values(arrivals) != []
    requires 2 * (Count(Values(arrivals), Below(lo)) + Count(Values(arrivals), Above(hi))) < |Values(arrivals)|
    ensures Published(arrivals).Some? && lo <= Published(arrivals).value <= hi
  {
    PriceWithinExactly(arrivals, lo, hi);
  }

  // ------------------------------------------------------------------------ arrival order

  lemma {:induction false} ValuesConcat(a: seq<Reply>, b: seq<Reply>)
    ensures Values(a + b) == Values(a) + Values(b)
  {
    if b == [] {
      assert a + b == a;
    } else {
      ValuesConcat(a, b[..|b| - 1]);
      assert (a + b)[..|a + b| - 1] == a + b[..|b| - 1];
    }
  }

  lemma {:induction false} ValuesPermuted(a: seq<Reply>, b: seq<Reply>)
    requires multiset(a) == multiset(b)
    ensures multiset(Values(a)) == multiset(Values(b))
  {
    if a == [] {
      assert |multiset(b)| == 0;
    } else {
      var front, r := a[..|a| - 1], a[|a| - 1];
      var left, right := TakenOut(a, b);
      ValuesPermuted(front, left + right);
      ValuesConcat(left, right);
      ValuesConcat(left, [r] + right);
      ValuesConcat([r], right);
    }
  }

  /** The same answers in another order publish the same price. */
  lemma ArrivalOrderIrrelevant(a: seq<Reply>, b: seq<Reply>)
    requires multiset(a) == multiset(b)
    ensures Published(a) == Published(b)
  {
    ValuesPermuted(a, b);
    var xs, ys := Values(a), Values(b);
    assert |xs| == |multiset(xs)| == |multiset(ys)| == |ys|;
    if xs != [] {
      var m := Published(a).value;
      assert ys != [];
      CountPermuted(xs, ys, Below(m));
      CountPermuted(xs, ys, Above(m));
      PriceWithinExactly(a, m, m);
      PriceWithinExactly(b, m, m);
    }
  }
}
