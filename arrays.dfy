/** The `Array` extension (Utils.swift lines 130-209), `zipWith`, the two
    overloads of `*` on arrays, and the fold operator `/|`. Swift arrays
    are value types, so they are modelled as Dafny sequences. The helpers
    that the source writes as `for` loops are methods, each proved against
    a specification function below. */
module Arrays {
  import opened Option
  import opened SwiftInt

  // ---------------------------------------------------------------------
  // all / any: early-exit loops

  /** `all(f)`: true exactly when every element satisfies f. */
  method All<T>(s: seq<T>, f: T -> bool) returns (b: bool)
    ensures b <==> forall i :: 0 <= i < |s| ==> f(s[i])
  {
    for i := 0 to |s|
      invariant forall j :: 0 <= j < i ==> f(s[j])
    {
      if !f(s[i]) {
        return false;
      }
    }
    return true;
  }

  /** `any(f)`: true exactly when some element satisfies f. */
  method Any<T>(s: seq<T>, f: T -> bool) returns (b: bool)
    ensures b <==> exists i :: 0 <= i < |s| && f(s[i])
  {
    for i := 0 to |s|
      invariant forall j :: 0 <= j < i ==> !f(s[j])
    {
      if f(s[i]) {
        return true;
      }
    }
    return false;
  }

  // ---------------------------------------------------------------------
  // span / takeWhile

  /** `span(p)`: the longest prefix whose elements satisfy p, and the rest. */
  function Span<T>(s: seq<T>, p: T -> bool): (r: (seq<T>, seq<T>))
    ensures r.0 + r.1 == s
    ensures forall i :: 0 <= i < |r.0| ==> p(r.0[i])
    ensures r.1 == [] || !p(r.1[0])
  {
    if s == [] then
      ([], [])
    else
      var x, xs := s[0], s[1..];
      if p(x) then
        var (ys, zs) := Span(xs, p);
        ([x] + ys, zs)
      else
        ([], s)
  }

  /** The three properties of `Span` determine the split: any prefix of
      p-elements that is followed by the end or by a non-p element is the
      first half of `Span`. */
  lemma {:induction false} SpanUnique<T>(s: seq<T>, p: T -> bool, k: nat)
    requires k <= |s|
    requires forall j :: 0 <= j < k ==> p(s[j])
    requires k == |s| || !p(s[k])
    ensures Span(s, p) == (s[..k], s[k..])
  {
    if s != [] && k > 0 {
      var xs := s[1..];
      assert forall j :: 0 <= j < k - 1 ==> xs[j] == s[j + 1];
      SpanUnique(xs, p, k - 1);
      assert s[..k] == [s[0]] + xs[..k - 1];
      assert s[k..] == xs[k - 1..];
    }
  }

  /** `takeWhile(f)`: collect elements until the first that fails f. */
  method TakeWhile<T>(s: seq<T>, f: T -> bool) returns (r: seq<T>)
    ensures r == Span(s, f).0
  {
    r := [];
    for i := 0 to |s|
      invariant r == s[..i]
      invariant forall j :: 0 <= j < i ==> f(s[j])
    {
      if !f(s[i]) {
        SpanUnique(s, f, i);
        return r;
      }
      r := r + [s[i]];
    }
    SpanUnique(s, f, |s|);
  }

  // ---------------------------------------------------------------------
  // takeFirst / pop

  /** Swift's `dropLast(k)`: all but the last k elements, empty when k is at
      least the count. A negative k is a runtime trap in Swift. */
  function DropLast<T>(s: seq<T>, k: int): (r: seq<T>)
    requires k >= 0
    ensures |r| == if k >= |s| then 0 else |s| - k
  {
    if k >= |s| then [] else s[..|s| - k]
  }

  /** `takeFirst(n)`, written as `dropLast(count - n)`: the first n elements.
      The source traps when n exceeds the count (a negative `dropLast`) and
      when `count - n` overflows a 64-bit `Int`; otherwise a negative n
      gives an empty slice. */
  function TakeFirst<T>(s: seq<T>, n: int): (r: seq<T>)
    requires IsInt(n) && IsInt(|s| - n)
    requires n <= |s|
    ensures n >= 0 ==> r == s[..n]
    ensures n < 0 ==> r == []
    ensures |r| == if n < 0 then 0 else n
  {
    DropLast(s, |s| - n)
  }

  /** `pop()`: the first element, if any, and the array without it. */
  function Pop<T>(s: seq<T>): (r: (Option<T>, seq<T>))
    ensures s == [] ==> r == (None, [])
    ensures s != [] ==> r.0 == Some(s[0])
    ensures (if r.0.Some? then [r.0.value] + r.1 else r.1) == s
  {
    if s == [] then (None, []) else (Some(s[0]), s[1..])
  }

  // ---------------------------------------------------------------------
  // mapOptional / firstOptional

  /** The images under f that are not nil, in input order: the specification
      of `mapOptional`. */
  function SomeImages<T, U>(s: seq<T>, f: T -> Option<U>): (r: seq<U>)
    ensures |r| <= |s|
  {
    if s == [] then []
    else
      match f(s[0])
      case Some(v) => [v] + SomeImages(s[1..], f)
      case None => SomeImages(s[1..], f)
  }

  /** Filtering with f distributes over concatenation. */
  lemma {:induction false} SomeImagesAppend<T, U>(a: seq<T>, b: seq<T>, f: T -> Option<U>)
    ensures SomeImages(a + b, f) == SomeImages(a, f) + SomeImages(b, f)
  {
    if a == [] {
      assert a + b == b;
    } else {
      assert (a + b)[1..] == a[1..] + b;
      SomeImagesAppend(a[1..], b, f);
    }
  }

  /** With every image present, `mapOptional` is plain `map`. */
  lemma {:induction false} SomeImagesOfTotal<T, U>(s: seq<T>, g: T -> U)
    ensures SomeImages(s, x => Some(g(x))) == seq(|s|, i requires 0 <= i < |s| => g(s[i]))
  {
    if s != [] {
      SomeImagesOfTotal(s[1..], g);
    }
  }

  /** There are no images exactly when every image is nil. */
  lemma {:induction false} SomeImagesEmpty<T, U>(s: seq<T>, f: T -> Option<U>)
    ensures SomeImages(s, f) == [] <==> forall i :: 0 <= i < |s| ==> f(s[i]).None?
  {
    if s != [] {
      SomeImagesEmpty(s[1..], f);
      assert forall i :: 1 <= i < |s| ==> s[i] == s[1..][i - 1];
    }
  }

  /** The first image is that of the first element whose image is present. */
  lemma {:induction false} SomeImagesHead<T, U>(s: seq<T>, f: T -> Option<U>, k: nat)
    requires k < |s| && f(s[k]).Some?
    requires forall j :: 0 <= j < k ==> f(s[j]).None?
    ensures SomeImages(s, f) != [] && SomeImages(s, f)[0] == f(s[k]).value
  {
    if k > 0 {
      assert forall j :: 0 <= j < k - 1 ==> s[1..][j] == s[j + 1];
      SomeImagesHead(s[1..], f, k - 1);
    }
  }

  /** `mapOptional(f)`: append every non-nil image to a result array. */
  method MapOptional<T, U>(s: seq<T>, f: T -> Option<U>) returns (r: seq<U>)
    ensures r == SomeImages(s, f)
  {
    r := [];
    for i := 0 to |s|
      invariant r == SomeImages(s[..i], f)
    {
      assert s[..i + 1] == s[..i] + [s[i]];
      SomeImagesAppend(s[..i], [s[i]], f);
      match f(s[i])
      case Some(v) =>
        r := r + [v];
      case None =>
    }
    assert s[..|s|] == s;
  }

  /** `firstOptional(f)`: the image of the first element whose image is not
      nil, or nil when there is none; it is the head of `mapOptional(f)`. */
  method FirstOptional<T, U>(s: seq<T>, f: T -> Option<U>) returns (r: Option<U>)
    ensures r.None? <==> forall i :: 0 <= i < |s| ==> f(s[i]).None?
    ensures r.Some? ==> exists k :: 0 <= k < |s| && f(s[k]) == r && forall j :: 0 <= j < k ==> f(s[j]).None?
    ensures r == if SomeImages(s, f) == [] then None else Some(SomeImages(s, f)[0])
  {
    for i := 0 to |s|
      invariant forall j :: 0 <= j < i ==> f(s[j]).None?
    {
      var image := f(s[i]);
      if image.Some? {
        SomeImagesHead(s, f, i);
        return image;
      }
    }
    SomeImagesEmpty(s, f);
    return None;
  }

  // ---------------------------------------------------------------------
  // count / filter

  /** The static `Array.count`. */
  function Count<T>(s: seq<T>): (n: nat)
    ensures n == |s|
    ensures n == 0 <==> s == []
  {
    |s|
  }

  /** The count of a concatenation is the sum of the counts. */
  lemma CountAppend<T>(a: seq<T>, b: seq<T>)
    ensures Count(a + b) == Count(a) + Count(b)
  {
  }

  /** The static `Array.filter`: Swift's library `filter`, the elements that
      satisfy the predicate in input order. */
  function Filter<T>(p: T -> bool, s: seq<T>): (r: seq<T>)
    ensures s == [] ==> r == []
    ensures |s| == 1 ==> r == if p(s[0]) then s else []
    ensures |r| <= |s|
    ensures forall i :: 0 <= i < |r| ==> p(r[i])
    ensures forall i :: 0 <= i < |r| ==> r[i] in s
    ensures forall i :: 0 <= i < |s| && p(s[i]) ==> s[i] in r
  {
    if s == [] then []
    else if p(s[0]) then [s[0]] + Filter(p, s[1..])
    else Filter(p, s[1..])
  }

  /** Filtering distributes over concatenation. With the one-element case
      in `Filter`'s contract, this fixes the result: the elements that
      satisfy p, each as often as in the input, in input order. */
  lemma {:induction false} FilterAppend<T>(p: T -> bool, a: seq<T>, b: seq<T>)
    ensures Filter(p, a + b) == Filter(p, a) + Filter(p, b)
  {
    if a == [] {
      assert a + b == b;
    } else {
      assert (a + b)[1..] == a[1..] + b;
      FilterAppend(p, a[1..], b);
    }
  }

  /** Filtering by p and by its negation splits the array: the two counts
      add up to the original count. */
  lemma {:induction false} FilterPartition<T>(p: T -> bool, s: seq<T>)
    ensures Count(Filter(p, s)) + Count(Filter(x => !p(x), s)) == Count(s)
  {
    if s != [] {
      FilterPartition(p, s[1..]);
    }
  }

  // ---------------------------------------------------------------------
  // zipWith

  /** `zipWith(a, b, f)`: f applied pairwise, truncated to the shorter input. */
  function ZipWith<A, B, C>(a: seq<A>, b: seq<B>, f: (A, B) -> C): (r: seq<C>)
    ensures |r| == if |a| < |b| then |a| else |b|
    ensures forall i :: 0 <= i < |r| ==> r[i] == f(a[i], b[i])
  {
    if a == [] || b == [] then []
    else [f(a[0], b[0])] + ZipWith(a[1..], b[1..], f)
  }

  // ---------------------------------------------------------------------
  // cartesian product `[A] * [B]`

  /** Swift's array `map`. */
  function Map<T, U>(s: seq<T>, f: T -> U): (r: seq<U>)
    ensures |r| == |s|
    ensures forall i :: 0 <= i < |s| ==> r[i] == f(s[i])
  {
    if s == [] then [] else [f(s[0])] + Map(s[1..], f)
  }

  /** Swift's array `flatMap` with an array-valued function: the images
      concatenated in input order. */
  function FlatMap<T, U>(s: seq<T>, f: T -> seq<U>): (r: seq<U>)
  {
    if s == [] then [] else f(s[0]) + FlatMap(s[1..], f)
  }

  /** (a + 1) * b, unfolded once. */
  lemma MulSucc(a: int, b: int)
    ensures (a + 1) * b == a * b + b
  {
  }

  /** When every image has m elements, the flattened array has |s| * m
      elements. */
  lemma {:induction false} FlatMapLength<T, U>(s: seq<T>, f: T -> seq<U>, m: nat)
    requires forall i :: 0 <= i < |s| ==> |f(s[i])| == m
    ensures |FlatMap(s, f)| == |s| * m
  {
    if s != [] {
      FlatMapLength(s[1..], f, m);
      MulSucc(|s| - 1, m);
    }
  }

  /** ... and element j of image i sits at index i * m + j. */
  lemma {:induction false} FlatMapAt<T, U>(s: seq<T>, f: T -> seq<U>, m: nat, i: nat, j: nat)
    requires forall k :: 0 <= k < |s| ==> |f(s[k])| == m
    requires i < |s| && j < m
    ensures i * m + j < |FlatMap(s, f)|
    ensures FlatMap(s, f)[i * m + j] == f(s[i])[j]
  {
    FlatMapLength(s, f, m);
    if i > 0 {
      var tail := s[1..];
      FlatMapAt(tail, f, m, i - 1, j);
      MulSucc(i - 1, m);
      assert s[i] == tail[i - 1];
    }
  }

  /** `lhs * rhs`: every pair (a, b), grouped by a in the order of lhs. */
  function Product<A, B>(lhs: seq<A>, rhs: seq<B>): (r: seq<(A, B)>)
    ensures |r| == |lhs| * |rhs|
  {
    ProductRows(lhs, rhs);
    FlatMapLength(lhs, a => Map(rhs, b => (a, b)), |rhs|);
    FlatMap(lhs, a => Map(rhs, b => (a, b)))
  }

  /** Every row of the product has |rhs| pairs. */
  lemma ProductRows<A, B>(lhs: seq<A>, rhs: seq<B>)
    ensures forall k :: 0 <= k < |lhs| ==> |(a => Map(rhs, b => (a, b)))(lhs[k])| == |rhs|
  {
  }

  /** The product has |lhs| * |rhs| pairs, and pair (lhs[i], rhs[j]) is at
      index i * |rhs| + j: row-major order. */
  lemma ProductAt<A, B>(lhs: seq<A>, rhs: seq<B>, i: nat, j: nat)
    requires i < |lhs| && j < |rhs|
    ensures |Product(lhs, rhs)| == |lhs| * |rhs|
    ensures i * |rhs| + j < |Product(lhs, rhs)|
    ensures Product(lhs, rhs)[i * |rhs| + j] == (lhs[i], rhs[j])
  {
    var row := a => Map(rhs, b => (a, b));
    ProductRows(lhs, rhs);
    FlatMapLength(lhs, row, |rhs|);
    FlatMapAt(lhs, row, |rhs|, i, j);
    assert row(lhs[i])[j] == (lhs[i], rhs[j]);
  }

  // ---------------------------------------------------------------------
  // repetition `Int * [A]` and `[A] * Int`

  /** xs concatenated n times. */
  function Repeat<T>(xs: seq<T>, n: nat): (r: seq<T>)
  {
    if n == 0 then [] else Repeat(xs, n - 1) + xs
  }

  /** The n-fold repetition has n * |xs| elements ... */
  lemma {:induction false} RepeatLength<T>(xs: seq<T>, n: nat)
    ensures |Repeat(xs, n)| == n * |xs|
  {
    if n > 0 {
      RepeatLength(xs, n - 1);
      MulSucc(n - 1, |xs|);
    }
  }

  /** ... and its block q is xs again. */
  lemma {:induction false} RepeatAt<T>(xs: seq<T>, n: nat, q: nat, j: nat)
    requires q < n && j < |xs|
    ensures q * |xs| + j < |Repeat(xs, n)|
    ensures Repeat(xs, n)[q * |xs| + j] == xs[j]
  {
    RepeatLength(xs, n);
    RepeatLength(xs, n - 1);
    MulSucc(n - 1, |xs|);
    if q < n - 1 {
      RepeatAt(xs, n - 1, q, j);
    }
  }

  /** `n * xs`: append xs to an accumulator n times. A negative count is a
      runtime trap in Swift (the range `0..<n` is invalid). */
  method Times<T>(n: int, xs: seq<T>) returns (r: seq<T>)
    requires n >= 0
    ensures r == Repeat(xs, n)
  {
    r := [];
    for i := 0 to n
      invariant r == Repeat(xs, i)
    {
      r := r + xs;
    }
  }

  /** `xs * n`, defined as `n * xs`. */
  method TimesRight<T>(xs: seq<T>, n: int) returns (r: seq<T>)
    requires n >= 0
    ensures r == Repeat(xs, n)
  {
    r := Times(n, xs);
  }

  // ---------------------------------------------------------------------
  // fold `acc /| lst`

  /** Swift's `reduce`: a left fold starting from acc. */
  function Reduce<A, B>(lst: seq<B>, acc: A, f: (A, B) -> A): (r: A)
    ensures lst == [] ==> r == acc
    ensures |lst| == 1 ==> r == f(acc, lst[0])
  {
    if lst == [] then acc else Reduce(lst[1..], f(acc, lst[0]), f)
  }

  /** `acc /| lst`: wait for the reducing function, then fold lst with it. */
  function FoldWith<A(!new), B(!new)>(acc: A, lst: seq<B>): (r: ((A, B) -> A) -> A)
    ensures forall f :: r(f) == Reduce(lst, acc, f)
  {
    (f: (A, B) -> A) => Reduce(lst, acc, f)
  }

  /** The function `acc /| lst` returns, given f, is the left fold of lst
      with f from acc: f applied to acc and the first element, then to that
      result and the second element, and so on. */
  lemma {:induction false} FoldWithSteps<A(!new), B(!new)>(acc: A, lst: seq<B>, f: (A, B) -> A)
    ensures FoldWith(acc, lst)(f) == Reduce(lst, acc, f)
    ensures lst == [] ==> FoldWith(acc, lst)(f) == acc
    ensures lst != [] ==> FoldWith(acc, lst)(f) == f(Reduce(lst[..|lst| - 1], acc, f), lst[|lst| - 1])
  {
    var folded := FoldWith(acc, lst);
    assert folded(f) == Reduce(lst, acc, f);
    if lst != [] {
      var init, last := lst[..|lst| - 1], lst[|lst| - 1];
      assert lst == init + [last];
      ReduceAppend(init, [last], acc, f);
    }
  }

  /** Folding a concatenation is folding the second part from where the
      first part left off; folding one more element applies f once more. */
  lemma {:induction false} ReduceAppend<A, B>(xs: seq<B>, ys: seq<B>, acc: A, f: (A, B) -> A)
    ensures Reduce(xs + ys, acc, f) == Reduce(ys, Reduce(xs, acc, f), f)
  {
    if xs == [] {
      assert xs + ys == ys;
    } else {
      assert (xs + ys)[1..] == xs[1..] + ys;
      ReduceAppend(xs[1..], ys, f(acc, xs[0]), f);
    }
  }
}
