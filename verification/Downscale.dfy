/** Exact-area downscaling: a separable two-pass filter that equals the average
    over the rectangle each output pixel covers.

    Arithmetic is exact: lengths are in units of 1/n of a source cell, weights in
    units of 1/source, channels in units of 1/255. */
module Downscale {

  // ----- Areas -----

  lemma Scaled(a: int, b: int, c: nat)
    requires a <= b
    ensures a * c <= b * c
  {
    assert (b - a) * c >= 0;
  }

  lemma Next(a: int, c: int)
    ensures (a + 1) * c == a * c + c
  {
  }

  function Min(a: int, b: int): int {
    if a < b then a else b
  }

  function Max(a: int, b: int): int {
    if a > b then a else b
  }

  /** How much of output sample i the source sample s covers, both axes being
      source * n units long. */
  function Cover(source: nat, n: nat, i: nat, s: nat): nat {
    Max(0, Min((i + 1) * source, (s + 1) * n) - Max(i * source, s * n))
  }

  ghost function Sum(f: nat -> int, k: nat): int {
    if k == 0 then 0 else Sum(f, k - 1) + f(k - 1)
  }

  lemma {:induction false} SumEqual(f: nat -> int, g: nat -> int, k: nat)
    requires forall j: nat :: j < k ==> f(j) == g(j)
    ensures Sum(f, k) == Sum(g, k)
  {
    if k > 0 {
      SumEqual(f, g, k - 1);
    }
  }

  lemma {:induction false} SumScaled(f: nat -> int, c: int, g: nat -> int, k: nat)
    requires forall j: nat :: j < k ==> g(j) == f(j) * c
    ensures Sum(g, k) == Sum(f, k) * c
  {
    if k > 0 {
      SumScaled(f, c, g, k - 1);
    }
  }

  lemma {:induction false} SumAdded(f: nat -> int, g: nat -> int, h: nat -> int, k: nat)
    requires forall j: nat :: j < k ==> h(j) == f(j) + g(j)
    ensures Sum(h, k) == Sum(f, k) + Sum(g, k)
  {
    if k > 0 {
      SumAdded(f, g, h, k - 1);
    }
  }

  lemma {:induction false} SumAtMost(f: nat -> int, g: nat -> int, k: nat)
    requires forall j: nat :: j < k ==> f(j) <= g(j)
    ensures Sum(f, k) <= Sum(g, k)
  {
    if k > 0 {
      SumAtMost(f, g, k - 1);
    }
  }

  lemma {:induction false} SumZero(f: nat -> int, k: nat)
    requires forall j: nat :: j < k ==> f(j) == 0
    ensures Sum(f, k) == 0
  {
    if k > 0 {
      SumZero(f, k - 1);
    }
  }

  ghost function Along(f: (nat, nat) -> int, i: nat): nat -> int {
    (j: nat) => f(i, j)
  }

  ghost function Across(f: (nat, nat) -> int, j: nat): nat -> int {
    (i: nat) => f(i, j)
  }

  ghost function RowSums(f: (nat, nat) -> int, n: nat): nat -> int {
    (i: nat) => Sum(Along(f, i), n)
  }

  ghost function ColumnSums(f: (nat, nat) -> int, m: nat): nat -> int {
    (j: nat) => Sum(Across(f, j), m)
  }

  /** A double sum can be taken in either order. */
  lemma {:induction false} SumsSwap(f: (nat, nat) -> int, m: nat, n: nat)
    ensures Sum(RowSums(f, n), m) == Sum(ColumnSums(f, m), n)
  {
    if m == 0 {
      SumZero(ColumnSums(f, 0), n);
    } else {
      SumsSwap(f, m - 1, n);
      SumAdded(ColumnSums(f, m - 1), Along(f, m - 1), ColumnSums(f, m), n);
    }
  }

  /** What one output sample covers, by source sample. */
  ghost function Covers(source: nat, n: nat, i: nat): nat -> int {
    (s: nat) => Cover(source, n, i, s)
  }

  /** What covers one source sample, by output sample. */
  ghost function CoveredBy(source: nat, n: nat, s: nat): nat -> int {
    (i: nat) => Cover(source, n, i, s)
  }

  function Clamp(x: int, lo: int, hi: int): int {
    Max(lo, Min(x, hi))
  }

  lemma {:induction false} CoveredSoFar(source: nat, n: nat, i: nat, k: nat)
    requires n > 0
    ensures Sum(Covers(source, n, i), k) == Clamp(k * n, i * source, (i + 1) * source) - i * source
  {
    var lo, hi := i * source, (i + 1) * source;
    assert lo >= 0 && hi == lo + source;
    if k > 0 {
      CoveredSoFar(source, n, i, k - 1);
      assert k * n == (k - 1) * n + n;
    } else {
      assert k * n == 0;
    }
  }

  /** The weights of an output sample are the whole of it. */
  lemma WeightsSumToOne(source: nat, n: nat, i: nat)
    requires i < n
    ensures Sum(Covers(source, n, i), source) == source
  {
    CoveredSoFar(source, n, i, source);
    var hi := (i + 1) * source;
    assert hi <= n * source by {
      Scaled(i + 1, n, source);
    }
    assert hi == i * source + source by {
      Next(i, source);
    }
  }

  /** A source sample counts n / source over all the outputs together. */
  lemma SourceSpreads(source: nat, n: nat, s: nat)
    requires s < source
    ensures Sum(CoveredBy(source, n, s), n) == n
  {
    WeightsSumToOne(n, source, s);
    SumEqual(CoveredBy(source, n, s), Covers(n, source, s), n);
  }

  // ----- Taps -----

  datatype Tap = Tap(index: nat, weight: nat)

  /** The first source sample of an output, and one past the last. */
  function First(source: nat, n: nat, i: nat): nat
    requires n > 0
  {
    i * source / n
  }

  ghost predicate TapsOf(source: nat, n: nat, i: nat, taps: seq<Tap>)
    requires n > 0
  {
    var first := First(source, n, i);
    && first + |taps| <= source
    && (forall k :: 0 <= k < |taps| ==> taps[k] == Tap(first + k, Cover(source, n, i, first + k)) && taps[k].weight > 0)
    && (first + |taps|) * n >= (i + 1) * source
  }

  lemma FirstCovered(source: nat, n: nat, i: nat)
    requires 0 < n
    ensures var first := First(source, n, i); first * n <= i * source < (first + 1) * n
  {
    var first := First(source, n, i);
    assert i * source == first * n + i * source % n;
  }

  /** A source sample that starts before the output ends and ends after it
      starts is covered by exactly the stretch between. */
  lemma CoveredHere(source: nat, n: nat, i: nat, s: nat)
    requires s * n < (i + 1) * source && i * source < (s + 1) * n && source > 0 && n > 0
    ensures Cover(source, n, i, s) == Min((i + 1) * source, (s + 1) * n) - Max(i * source, s * n) > 0
  {
    Next(i, source);
    Next(s, n);
  }

  lemma TapIsNext(source: nat, n: nat, i: nat, s: nat)
    requires source > 0 && i < n && First(source, n, i) <= s && s * n < (i + 1) * source
    ensures Cover(source, n, i, s) == Min((i + 1) * source, (s + 1) * n) - Max(i * source, s * n) > 0
    ensures (s + 1) * n > i * source
  {
    FirstCovered(source, n, i);
    Scaled(First(source, n, i) + 1, s + 1, n);
    CoveredHere(source, n, i, s);
  }

  lemma FirstInside(source: nat, n: nat, i: nat)
    requires source > 0 && i < n
    ensures First(source, n, i) < source
  {
    FirstCovered(source, n, i);
    var first := First(source, n, i);
    Scaled(i + 1, n, source);
    Next(i, source);
    if first >= source {
      Scaled(source, first, n);
      assert false;
    }
  }

  /** The contiguous source samples of one output, with their covered lengths. */
  method AreaTaps(source: nat, n: nat, i: nat) returns (taps: seq<Tap>)
    requires source > 0 && i < n
    ensures TapsOf(source, n, i, taps)
  {
    taps := [];
    var s := i * source / n;
    ghost var first := s;
    FirstCovered(source, n, i);
    FirstInside(source, n, i);
    while s < source && s * n < (i + 1) * source
      invariant first <= s <= source && |taps| == s - first && first == First(source, n, i)
      invariant s * n <= i * source ==> s == first
      invariant forall k :: 0 <= k < |taps| ==>
                  taps[k] == Tap(first + k, Cover(source, n, i, first + k)) && taps[k].weight > 0
    {
      var overlap := Min((i + 1) * source, (s + 1) * n) - Max(i * source, s * n);
      TapIsNext(source, n, i, s);
      if overlap > 0 {
        taps := taps + [Tap(s, overlap)];
      }
      s := s + 1;
    }
    if s == source {
      Scaled(i + 1, n, source);
    }
  }

  method AreaWeights(source: nat, n: nat) returns (weights: seq<seq<Tap>>)
    requires source > 0 && n > 0
    ensures |weights| == n && forall i :: 0 <= i < n ==> TapsOf(source, n, i, weights[i])
  {
    weights := [];
    for i := 0 to n
      invariant |weights| == i && forall j :: 0 <= j < i ==> TapsOf(source, n, j, weights[j])
    {
      var taps := AreaTaps(source, n, i);
      weights := weights + [taps];
    }
  }

  /** The weighted sum of a line over some taps. */
  function Dot(taps: seq<Tap>, v: nat -> int): int {
    if taps == [] then 0
    else
      var last := taps[|taps| - 1];
      Dot(taps[..|taps| - 1], v) + v(last.index) * last.weight
  }

  lemma Outside(source: nat, n: nat, i: nat, taps: seq<Tap>, s: nat)
    requires n > 0 && TapsOf(source, n, i, taps)
    requires s < First(source, n, i) || s >= First(source, n, i) + |taps|
    ensures Cover(source, n, i, s) == 0
  {
    var first := First(source, n, i);
    FirstCovered(source, n, i);
    if s < first {
      Scaled(s + 1, first, n);
    } else {
      Scaled(first + |taps|, s, n);
    }
  }

  ghost function Weigh(source: nat, n: nat, v: nat -> int): (nat, nat) -> int {
    (i: nat, s: nat) => v(s) * Cover(source, n, i, s)
  }

  /** One output sample of one pass: every source sample, by what it covers. */
  ghost function PassAt(source: nat, n: nat, v: nat -> int, i: nat): int {
    Sum(Along(Weigh(source, n, v), i), source)
  }

  ghost function Pass(source: nat, n: nat, v: nat -> int): nat -> int {
    (i: nat) => PassAt(source, n, v, i)
  }

  lemma DotTake(taps: seq<Tap>, v: nat -> int, j: nat)
    requires 0 < j <= |taps|
    ensures Dot(taps[..j], v) == Dot(taps[..j - 1], v) + v(taps[j - 1].index) * taps[j - 1].weight
  {
    assert taps[..j][..j - 1] == taps[..j - 1];
  }

  /** A value weighed by the taps on their contiguous stretch, and nothing
      outside it. */
  ghost predicate OnStretch(first: nat, taps: seq<Tap>, v: nat -> int, given: nat -> int) {
    forall s: nat :: given(s) == if first <= s < first + |taps| then v(s) * taps[s - first].weight else 0
  }

  lemma {:induction false} DotSoFar(first: nat, taps: seq<Tap>, v: nat -> int, given: nat -> int, k: nat)
    requires OnStretch(first, taps, v, given) && forall j :: 0 <= j < |taps| ==> taps[j].index == first + j
    ensures Sum(given, k) == if k <= first then 0 else Dot(taps[..Min(k - first, |taps|)], v)
  {
    if k > 0 {
      DotSoFar(first, taps, v, given, k - 1);
      if first < k <= first + |taps| {
        DotTake(taps, v, k - first);
      }
    }
  }

  /** A loop over the taps misses nothing. */
  lemma DotIsThePass(source: nat, n: nat, i: nat, taps: seq<Tap>, v: nat -> int)
    requires n > 0 && TapsOf(source, n, i, taps)
    ensures Dot(taps, v) == PassAt(source, n, v, i)
  {
    var first, given := First(source, n, i), Along(Weigh(source, n, v), i);
    forall s: nat ensures given(s) == if first <= s < first + |taps| then v(s) * taps[s - first].weight else 0 {
      if first <= s < first + |taps| {
        assert taps[s - first] == Tap(first + (s - first), Cover(source, n, i, first + (s - first)));
      } else {
        Outside(source, n, i, taps, s);
      }
    }
    DotSoFar(first, taps, v, given, source);
    assert taps[..|taps|] == taps;
    if first == source {
      assert taps == [];
    }
  }

  // ----- One axis -----

  lemma WeighColumn(source: nat, n: nat, v: nat -> int, s: nat)
    requires s < source
    ensures Sum(Across(Weigh(source, n, v), s), n) == v(s) * n
  {
    SourceSpreads(source, n, s);
    SumScaled(CoveredBy(source, n, s), v(s), Across(Weigh(source, n, v), s), n);
    assert n * v(s) == v(s) * n;
  }

  /** A pass adds up to n times its input, in units of 1/source. */
  lemma PassTotal(source: nat, n: nat, v: nat -> int)
    ensures Sum(Pass(source, n, v), n) == Sum(v, source) * n
  {
    var w := Weigh(source, n, v);
    SumEqual(Pass(source, n, v), RowSums(w, source), n);
    SumsSwap(w, n, source);
    forall s: nat | s < source ensures ColumnSums(w, n)(s) == v(s) * n {
      WeighColumn(source, n, v, s);
    }
    SumScaled(v, n, ColumnSums(w, n), source);
  }

  /** A pass keeps the order of its inputs. */
  lemma PassAtMost(source: nat, n: nat, v: nat -> int, w: nat -> int, i: nat)
    requires forall s: nat :: s < source ==> v(s) <= w(s)
    ensures PassAt(source, n, v, i) <= PassAt(source, n, w, i)
  {
    forall s: nat | s < source ensures Along(Weigh(source, n, v), i)(s) <= Along(Weigh(source, n, w), i)(s) {
      Scaled(v(s), w(s), Cover(source, n, i, s));
    }
    SumAtMost(Along(Weigh(source, n, v), i), Along(Weigh(source, n, w), i), source);
  }

  lemma PassConstant(source: nat, n: nat, c: int, i: nat)
    requires i < n
    ensures PassAt(source, n, (s: nat) => c, i) == c * source
  {
    WeightsSumToOne(source, n, i);
    SumScaled(Covers(source, n, i), c, Along(Weigh(source, n, (s: nat) => c), i), source);
  }

  /** A pass stays within the range of its input. */
  lemma PassWithin(source: nat, n: nat, v: nat -> int, lo: int, hi: int, i: nat)
    requires i < n && forall s: nat :: s < source ==> lo <= v(s) <= hi
    ensures lo * source <= PassAt(source, n, v, i) <= hi * source
  {
    PassConstant(source, n, lo, i);
    PassConstant(source, n, hi, i);
    PassAtMost(source, n, (s: nat) => lo, v, i);
    PassAtMost(source, n, v, (s: nat) => hi, i);
  }

  // ----- Two axes -----

  /** One channel of an image, by row and column. */
  type Plane = (nat, nat) -> int

  datatype Sizes = Sizes(sw: nat, sh: nat, width: nat, height: nat)

  /** Each source pixel by the area of it under output pixel (x, y). */
  ghost function Patch(p: Plane, z: Sizes, x: nat, y: nat): Plane {
    (t: nat, s: nat) => p(t, s) * (Cover(z.sw, z.width, x, s) * Cover(z.sh, z.height, y, t))
  }

  /** The area average of output pixel (x, y), in units of 1 / (sw * sh). */
  ghost function Area(p: Plane, z: Sizes, x: nat, y: nat): int {
    Sum(RowSums(Patch(p, z, x, y), z.sw), z.sh)
  }

  /** Every source row through the horizontal pass, at output column x. */
  ghost function Column(p: Plane, z: Sizes, x: nat): nat -> int {
    (t: nat) => PassAt(z.sw, z.width, Along(p, t), x)
  }

  ghost function TwoPassAt(p: Plane, z: Sizes, x: nat, y: nat): int {
    PassAt(z.sh, z.height, Column(p, z, x), y)
  }

  ghost function TwoPass(p: Plane, z: Sizes): Plane {
    (y: nat, x: nat) => TwoPassAt(p, z, x, y)
  }

  lemma Reassociate(a: int, b: int, c: int)
    ensures a * (b * c) == a * b * c
  {
  }

  lemma PatchRow(p: Plane, z: Sizes, x: nat, y: nat, t: nat)
    ensures Sum(Along(Patch(p, z, x, y), t), z.sw) == Column(p, z, x)(t) * Cover(z.sh, z.height, y, t)
  {
    var c, line := Cover(z.sh, z.height, y, t), Along(Weigh(z.sw, z.width, Along(p, t)), x);
    forall s: nat | s < z.sw ensures Along(Patch(p, z, x, y), t)(s) == line(s) * c {
      Reassociate(p(t, s), Cover(z.sw, z.width, x, s), c);
    }
    SumScaled(line, c, Along(Patch(p, z, x, y), t), z.sw);
  }

  /** A horizontal pass and then a vertical one is the average over the
      rectangle. */
  lemma TwoPassIsTheArea(p: Plane, z: Sizes, x: nat, y: nat)
    ensures TwoPassAt(p, z, x, y) == Area(p, z, x, y)
  {
    var f, g := Along(Weigh(z.sh, z.height, Column(p, z, x)), y), RowSums(Patch(p, z, x, y), z.sw);
    forall t: nat | t < z.sh ensures f(t) == g(t) {
      PatchRow(p, z, x, y, t);
    }
    SumEqual(f, g, z.sh);
  }

  /** Each source row's total, spread over the output's width. */
  ghost function Spread(p: Plane, z: Sizes): nat -> int {
    (t: nat) => Sum(Along(p, t), z.sw) * z.width
  }

  /** What source row t gives output pixel (x, y). */
  ghost function Gives(p: Plane, z: Sizes, y: nat): (nat, nat) -> int {
    (x: nat, t: nat) => Column(p, z, x)(t) * Cover(z.sh, z.height, y, t)
  }

  lemma GivenByRow(p: Plane, z: Sizes, y: nat, t: nat)
    ensures ColumnSums(Gives(p, z, y), z.width)(t) == Along(Weigh(z.sh, z.height, Spread(p, z)), y)(t)
  {
    var row, c := Pass(z.sw, z.width, Along(p, t)), Cover(z.sh, z.height, y, t);
    forall x: nat | x < z.width ensures Across(Gives(p, z, y), t)(x) == row(x) * c {
      assert Column(p, z, x)(t) == row(x);
    }
    PassTotal(z.sw, z.width, Along(p, t));
    SumScaled(row, c, Across(Gives(p, z, y), t), z.width);
  }

  /** An output row adds up to the vertical pass over the source rows' totals. */
  lemma RowTotal(p: Plane, z: Sizes, y: nat)
    ensures Sum(Along(TwoPass(p, z), y), z.width) == PassAt(z.sh, z.height, Spread(p, z), y)
  {
    forall x: nat | x < z.width ensures Along(TwoPass(p, z), y)(x) == RowSums(Gives(p, z, y), z.sh)(x) {
      SumEqual(Along(Weigh(z.sh, z.height, Column(p, z, x)), y), Along(Gives(p, z, y), x), z.sh);
    }
    SumEqual(Along(TwoPass(p, z), y), RowSums(Gives(p, z, y), z.sh), z.width);
    SumsSwap(Gives(p, z, y), z.width, z.sh);
    forall t: nat | t < z.sh
      ensures ColumnSums(Gives(p, z, y), z.width)(t) == Along(Weigh(z.sh, z.height, Spread(p, z)), y)(t)
    {
      GivenByRow(p, z, y, t);
    }
    SumEqual(ColumnSums(Gives(p, z, y), z.width), Along(Weigh(z.sh, z.height, Spread(p, z)), y), z.sh);
  }

  /** The mean is preserved: the output adds up to the source, in proportion to
      the numbers of pixels. */
  lemma MeanPreserved(p: Plane, z: Sizes)
    ensures Sum(RowSums(TwoPass(p, z), z.width), z.height) == Sum(RowSums(p, z.sw), z.sh) * z.width * z.height
  {
    forall y: nat | y < z.height
      ensures RowSums(TwoPass(p, z), z.width)(y) == Pass(z.sh, z.height, Spread(p, z))(y)
    {
      RowTotal(p, z, y);
    }
    SumEqual(RowSums(TwoPass(p, z), z.width), Pass(z.sh, z.height, Spread(p, z)), z.height);
    PassTotal(z.sh, z.height, Spread(p, z));
    SumScaled(RowSums(p, z.sw), z.width, Spread(p, z), z.sh);
  }

  /** An output pixel stays within the source's range. */
  lemma AverageWithin(p: Plane, z: Sizes, lo: int, hi: int, x: nat, y: nat)
    requires x < z.width && y < z.height
    requires forall t: nat, s: nat :: t < z.sh && s < z.sw ==> lo <= p(t, s) <= hi
    ensures lo * z.sw * z.sh <= TwoPassAt(p, z, x, y) <= hi * z.sw * z.sh
  {
    forall t: nat | t < z.sh ensures lo * z.sw <= Column(p, z, x)(t) <= hi * z.sw {
      PassWithin(z.sw, z.width, Along(p, t), lo, hi, x);
    }
    PassWithin(z.sh, z.height, Column(p, z, x), lo * z.sw, hi * z.sw, y);
  }

  /** A channel at most alpha everywhere stays at most alpha. */
  lemma AverageAtMost(p: Plane, q: Plane, z: Sizes, x: nat, y: nat)
    requires forall t: nat, s: nat :: t < z.sh && s < z.sw ==> p(t, s) <= q(t, s)
    ensures TwoPassAt(p, z, x, y) <= TwoPassAt(q, z, x, y)
  {
    forall t: nat | t < z.sh ensures Column(p, z, x)(t) <= Column(q, z, x)(t) {
      PassAtMost(z.sw, z.width, Along(p, t), Along(q, t), x);
    }
    PassAtMost(z.sh, z.height, Column(p, z, x), Column(q, z, x), y);
  }
}
