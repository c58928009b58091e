/** The resizing loop over an image's four premultiplied channels. */
module DownscaleImage {
  import opened Basics
  import opened Downscale

  /** A source pixel as its format holds it. */
  datatype Pixel = Straight(r: Byte, g: Byte, b: Byte, a: Byte) | Premultiplied(r: Byte, g: Byte, b: Byte, a: Byte)

  type Image = seq<seq<Pixel>>

  datatype Rgba = Rgba(r: Byte, g: Byte, b: Byte, a: Byte)

  /** Premultiplied channels, in units of 1/255. */
  function Channel(p: Pixel, ch: nat): nat {
    var c := if ch == 0 then p.r else if ch == 1 then p.g else if ch == 2 then p.b else p.a;
    if p.Straight? && ch != 3 then c as int * p.a as int else c as int * 255
  }

  predicate Rectangular(img: Image, sw: nat, sh: nat) {
    |img| == sh && forall y :: 0 <= y < sh ==> |img[y]| == sw
  }

  /** A premultiplied format holds no channel above its alpha. */
  ghost predicate WellFormed(img: Image) {
    forall y, x :: 0 <= y < |img| && 0 <= x < |img[y]| && img[y][x].Premultiplied? ==>
      img[y][x].r <= img[y][x].a && img[y][x].g <= img[y][x].a && img[y][x].b <= img[y][x].a
  }

  ghost function PlaneOf(img: Image, ch: nat): Plane {
    (t: nat, s: nat) => if t < |img| && s < |img[t]| then Channel(img[t][s], ch) else 0
  }

  /** The byte of a channel value of n / d. */
  function ClampByte(n: int, d: nat): (b: Byte)
    requires d > 0
  {
    if n <= 0 then 0
    else if n >= 255 * d then 255
    else
      assert (2 * n + d) / (2 * d) <= 255 by { Quotient(2 * n + d, 2 * d, 255); }
      ((2 * n + d) / (2 * d)) as Byte
  }

  lemma Quotient(n: nat, d: nat, q: nat)
    requires d > 0 && n < (q + 1) * d
    ensures n / d <= q
  {
    var quotient, rest := n / d, n % d;
    assert n == quotient * d + rest;
    if quotient > q {
      Scaled(q + 1, quotient, d);
    }
  }

  lemma QuotientsOrdered(m: nat, n: nat, d: nat)
    requires m <= n && d > 0
    ensures m / d <= n / d
  {
    Next(n / d, d);
    assert n == n / d * d + n % d;
    Quotient(m, d, n / d);
  }

  /** Rounding is to the nearest byte, halves up. */
  lemma RoundsHalfUp(n: int, d: nat)
    requires d > 0
    ensures var b := ClampByte(n, d) as int;
            && (n <= 0 ==> b == 0) && (n >= 255 * d ==> b == 255)
            && (0 < n < 255 * d ==> 2 * b * d - d <= 2 * n < 2 * b * d + d)
  {
    if 0 < n < 255 * d {
      var m, b := 2 * n + d, (2 * n + d) / (2 * d);
      assert m == b * (2 * d) + m % (2 * d);
      assert b * (2 * d) == 2 * b * d;
    }
  }

  lemma Cancels(a: int, b: int, c: nat)
    requires c > 0
    ensures a * c <= b * c ==> a <= b
    ensures a * c < b * c ==> a < b
  {
    if a > b {
      Scaled(b + 1, a, c);
      Next(b, c);
    }
    if a >= b {
      Scaled(b, a, c);
    }
  }

  /** The byte of a channel value that a whole area shares. */
  lemma FlatByte(value: nat, cells: nat)
    requires value <= 255 * 255 && cells > 0
    ensures 255 * cells > 0
    ensures var b := ClampByte(value * cells, 255 * cells) as int; 510 * b - 255 <= 2 * value < 510 * b + 255
  {
    var n, d := value * cells, 255 * cells;
    var b := ClampByte(n, d) as int;
    RoundsHalfUp(n, d);
    Cancels(value, 0, cells);
    Cancels(255 * 255, value, cells);
    if 0 < n < 255 * d {
      assert 2 * b * d - d == (510 * b - 255) * cells && 2 * b * d + d == (510 * b + 255) * cells;
      assert 2 * n == (2 * value) * cells;
      Cancels(510 * b - 255, 2 * value, cells);
      Cancels(2 * value, 510 * b + 255, cells);
    }
  }

  /** Rounding keeps order. */
  lemma ClampOrdered(m: int, n: int, d: nat)
    requires d > 0 && m <= n
    ensures ClampByte(m, d) <= ClampByte(n, d)
  {
    if 0 < m && n < 255 * d {
      QuotientsOrdered(2 * m + d, 2 * n + d, 2 * d);
    }
  }

  /** One output channel: the rounded area average, never above alpha. */
  ghost function OutChannel(img: Image, z: Sizes, x: nat, y: nat, ch: nat): Byte
    requires z.sw > 0 && z.sh > 0
  {
    Unit(z);
    ClampByte(Area(PlaneOf(img, ch), z, x, y), 255 * (z.sw * z.sh))
  }

  lemma Unit(z: Sizes)
    requires z.sw > 0 && z.sh > 0
    ensures 255 * (z.sw * z.sh) > 0
  {
    Scaled(1, z.sw, z.sh);
  }

  function LeastByte(a: Byte, b: Byte): Byte {
    if a < b then a else b
  }

  ghost predicate OutPixel(out: Rgba, img: Image, z: Sizes, x: nat, y: nat)
    requires z.sw > 0 && z.sh > 0
  {
    var a := OutChannel(img, z, x, y, 3);
    out == Rgba(LeastByte(OutChannel(img, z, x, y, 0), a), LeastByte(OutChannel(img, z, x, y, 1), a),
                LeastByte(OutChannel(img, z, x, y, 2), a), a)
  }

  lemma ChannelAtMostAlpha(p: Pixel, ch: nat)
    requires ch < 3 && (p.Premultiplied? ==> p.r <= p.a && p.g <= p.a && p.b <= p.a)
    ensures Channel(p, ch) <= Channel(p, 3)
  {
    var c := if ch == 0 then p.r else if ch == 1 then p.g else p.b;
    Scaled(c as int, 255, p.a as int);
  }

  /** In exact arithmetic no average rises above its alpha, so the cap at alpha
      never acts: it is there for rounding alone. */
  lemma CapNeverActs(img: Image, z: Sizes, x: nat, y: nat, ch: nat)
    requires z.sw > 0 && z.sh > 0 && ch < 3
    requires Rectangular(img, z.sw, z.sh) && WellFormed(img)
    ensures OutChannel(img, z, x, y, ch) <= OutChannel(img, z, x, y, 3)
  {
    forall t: nat, s: nat | t < z.sh && s < z.sw ensures PlaneOf(img, ch)(t, s) <= PlaneOf(img, 3)(t, s) {
      ChannelAtMostAlpha(img[t][s], ch);
    }
    AverageAtMost(PlaneOf(img, ch), PlaneOf(img, 3), z, x, y);
    TwoPassIsTheArea(PlaneOf(img, ch), z, x, y);
    TwoPassIsTheArea(PlaneOf(img, 3), z, x, y);
    Unit(z);
    ClampOrdered(Area(PlaneOf(img, ch), z, x, y), Area(PlaneOf(img, 3), z, x, y), 255 * (z.sw * z.sh));
  }

  /** One colour stays that colour. */
  lemma FlatStaysFlat(img: Image, z: Sizes, p: Pixel, x: nat, y: nat, ch: nat)
    requires z.sw > 0 && z.sh > 0 && x < z.width && y < z.height && Rectangular(img, z.sw, z.sh)
    requires forall t, s :: 0 <= t < z.sh && 0 <= s < z.sw ==> img[t][s] == p
    ensures Area(PlaneOf(img, ch), z, x, y) == Channel(p, ch) * z.sw * z.sh
  {
    TwoPassIsTheArea(PlaneOf(img, ch), z, x, y);
    AverageWithin(PlaneOf(img, ch), z, Channel(p, ch), Channel(p, ch), x, y);
  }

  /** A byte is that product of bytes over 255, rounded half up. */
  ghost predicate NearestOf(out: Byte, c: Byte, a: Byte) {
    510 * out as int - 255 <= 2 * (c as int * a as int) < 510 * out as int + 255
  }

  lemma ProductOfBytes(c: Byte, a: Byte)
    ensures c as int * a as int <= 255 * 255
  {
    Scaled(c as int, 255, a as int);
    Scaled(a as int, 255, 255);
  }

  lemma ChannelAtMost(p: Pixel, ch: nat)
    ensures Channel(p, ch) <= 255 * 255
  {
    if ch == 0 {
      ProductOfBytes(p.r, p.a);
    } else if ch == 1 {
      ProductOfBytes(p.g, p.a);
    } else if ch == 2 {
      ProductOfBytes(p.b, p.a);
    }
  }

  lemma OutFlat(img: Image, z: Sizes, value: nat, x: nat, y: nat, ch: nat)
    requires z.sw > 0 && z.sh > 0 && value <= 255 * 255 && Area(PlaneOf(img, ch), z, x, y) == value * z.sw * z.sh
    ensures var b := OutChannel(img, z, x, y, ch) as int; 510 * b - 255 <= 2 * value < 510 * b + 255
  {
    Unit(z);
    Scaled(1, z.sw, z.sh);
    Reassociate(value, z.sw, z.sh);
    FlatByte(value, z.sw * z.sh);
  }

  lemma FlatChannel(img: Image, z: Sizes, p: Pixel, x: nat, y: nat, ch: nat)
    requires z.sw > 0 && z.sh > 0 && x < z.width && y < z.height && Rectangular(img, z.sw, z.sh)
    requires forall t, s :: 0 <= t < z.sh && 0 <= s < z.sw ==> img[t][s] == p
    ensures var b := OutChannel(img, z, x, y, ch) as int; 510 * b - 255 <= 2 * Channel(p, ch) < 510 * b + 255
  {
    FlatStaysFlat(img, z, p, x, y, ch);
    ChannelAtMost(p, ch);
    OutFlat(img, z, Channel(p, ch), x, y, ch);
  }

  /** An image of one colour comes out in that colour, byte by byte: an opaque one
      as it was, a premultiplied one as it was, and a straight one multiplied by
      its alpha and rounded half up. */
  lemma FlatColour(out: Rgba, img: Image, z: Sizes, p: Pixel, x: nat, y: nat)
    requires z.sw > 0 && z.sh > 0 && x < z.width && y < z.height && Rectangular(img, z.sw, z.sh) && WellFormed(img)
    requires forall t, s :: 0 <= t < z.sh && 0 <= s < z.sw ==> img[t][s] == p
    requires OutPixel(out, img, z, x, y)
    ensures p.a == 255 ==> out == Rgba(p.r, p.g, p.b, 255)
    ensures p.Premultiplied? ==> out == Rgba(p.r, p.g, p.b, p.a)
    ensures p.Straight? ==> NearestOf(out.r, p.r, p.a) && NearestOf(out.g, p.g, p.a) && NearestOf(out.b, p.b, p.a)
    ensures p.Straight? ==> out.a == p.a
  {
    FlatChannel(img, z, p, x, y, 0);
    FlatChannel(img, z, p, x, y, 1);
    FlatChannel(img, z, p, x, y, 2);
    FlatChannel(img, z, p, x, y, 3);
    CapNeverActs(img, z, x, y, 0);
    CapNeverActs(img, z, x, y, 1);
    CapNeverActs(img, z, x, y, 2);
  }

  // ----- The loops -----

  ghost function LineChannel(line: seq<int>, ch: nat): nat -> int {
    (s: nat) => if 4 * s + ch < |line| then line[4 * s + ch] else 0
  }

  lemma {:induction false} DotEqual(taps: seq<Tap>, v: nat -> int, w: nat -> int)
    requires forall tap :: tap in taps ==> v(tap.index) == w(tap.index)
    ensures Dot(taps, v) == Dot(taps, w)
  {
    if taps != [] {
      var last := taps[|taps| - 1];
      assert last in taps;
      DotEqual(taps[..|taps| - 1], v, w);
    }
  }

  method ReadRow(row: seq<Pixel>, line: array<int>)
    requires line.Length == 4 * |row|
    modifies line
    ensures forall x, ch :: 0 <= x < |row| && 0 <= ch < 4 ==> line[4 * x + ch] == Channel(row[x], ch)
  {
    for x := 0 to |row|
      invariant forall k, ch :: 0 <= k < x && 0 <= ch < 4 ==> line[4 * k + ch] == Channel(row[k], ch)
    {
      line[4 * x], line[4 * x + 1], line[4 * x + 2], line[4 * x + 3] :=
        Channel(row[x], 0), Channel(row[x], 1), Channel(row[x], 2), Channel(row[x], 3);
    }
  }

  /** The four channels of one output sample. */
  method WeighSample(line: array<int>, taps: seq<Tap>) returns (r: int, g: int, b: int, a: int)
    requires forall tap :: tap in taps ==> 4 * tap.index + 3 < line.Length
    ensures r == Dot(taps, LineChannel(line[..], 0)) && g == Dot(taps, LineChannel(line[..], 1))
    ensures b == Dot(taps, LineChannel(line[..], 2)) && a == Dot(taps, LineChannel(line[..], 3))
  {
    r, g, b, a := 0, 0, 0, 0;
    for k := 0 to |taps|
      invariant r == Dot(taps[..k], LineChannel(line[..], 0)) && g == Dot(taps[..k], LineChannel(line[..], 1))
      invariant b == Dot(taps[..k], LineChannel(line[..], 2)) && a == Dot(taps[..k], LineChannel(line[..], 3))
    {
      assert taps[..k + 1][..k] == taps[..k];
      var tap := taps[k];
      assert tap in taps;
      var p := 4 * tap.index;
      r := r + line[p] * tap.weight;
      g := g + line[p + 1] * tap.weight;
      b := b + line[p + 2] * tap.weight;
      a := a + line[p + 3] * tap.weight;
    }
    assert taps[..|taps|] == taps;
  }

  method WeighLine(line: array<int>, columns: seq<seq<Tap>>, horizontal: array<int>)
    requires horizontal.Length == 4 * |columns| && line != horizontal
    requires forall x, tap :: 0 <= x < |columns| && tap in columns[x] ==> 4 * tap.index + 3 < line.Length
    modifies horizontal
    ensures forall x, ch :: 0 <= x < |columns| && 0 <= ch < 4 ==>
              horizontal[4 * x + ch] == Dot(columns[x], LineChannel(line[..], ch))
  {
    for x := 0 to |columns|
      invariant forall k, ch :: 0 <= k < x && 0 <= ch < 4 ==>
                  horizontal[4 * k + ch] == Dot(columns[k], LineChannel(line[..], ch))
    {
      var r, g, b, a := WeighSample(line, columns[x]);
      horizontal[4 * x], horizontal[4 * x + 1], horizontal[4 * x + 2], horizontal[4 * x + 3] := r, g, b, a;
    }
  }

  method AddScaled(acc: array<int>, horizontal: array<int>, weight: nat)
    requires acc.Length == horizontal.Length && acc != horizontal
    modifies acc
    ensures forall i :: 0 <= i < acc.Length ==> acc[i] == old(acc[i]) + horizontal[i] * weight
  {
    for i := 0 to acc.Length
      invariant forall j :: 0 <= j < i ==> acc[j] == old(acc[j]) + horizontal[j] * weight
      invariant forall j :: i <= j < acc.Length ==> acc[j] == old(acc[j])
    {
      acc[i] := acc[i] + horizontal[i] * weight;
    }
  }

  /** One output row before rounding: the vertical pass over the rows it covers. */
  method WeighRows(img: Image, z: Sizes, columns: seq<seq<Tap>>, taps: seq<Tap>, y: nat, line: array<int>,
                   horizontal: array<int>, acc: array<int>)
    requires z.sw > 0 && z.sh > 0 && z.width > 0 && y < z.height && Rectangular(img, z.sw, z.sh)
    requires |columns| == z.width && forall x :: 0 <= x < z.width ==> TapsOf(z.sw, z.width, x, columns[x])
    requires TapsOf(z.sh, z.height, y, taps)
    requires line.Length == 4 * z.sw && horizontal.Length == 4 * z.width && acc.Length == 4 * z.width
    requires line != horizontal && line != acc && horizontal != acc
    modifies line, horizontal, acc
    ensures forall x, ch :: 0 <= x < z.width && 0 <= ch < 4 ==> acc[4 * x + ch] == TwoPassAt(PlaneOf(img, ch), z, x, y)
  {
    for i := 0 to acc.Length
      invariant forall j :: 0 <= j < i ==> acc[j] == 0
    {
      acc[i] := 0;
    }
    for k := 0 to |taps|
      invariant forall x, ch :: 0 <= x < z.width && 0 <= ch < 4 ==>
                  acc[4 * x + ch] == Dot(taps[..k], Column(PlaneOf(img, ch), z, x))
    {
      var tap := taps[k];
      ReadRow(img[tap.index], line);
      forall x, tap | 0 <= x < |columns| && tap in columns[x] ensures 4 * tap.index + 3 < line.Length {
        assert TapsOf(z.sw, z.width, x, columns[x]);
      }
      WeighLine(line, columns, horizontal);
      AddScaled(acc, horizontal, tap.weight);
      forall x, ch | 0 <= x < z.width && 0 <= ch < 4
        ensures horizontal[4 * x + ch] == Column(PlaneOf(img, ch), z, x)(tap.index)
      {
        LineIsTheColumn(img, z, columns[x], line[..], x, ch, tap.index);
      }
      assert taps[..k + 1][..k] == taps[..k];
    }
    assert taps[..|taps|] == taps;
    forall x, ch | 0 <= x < z.width && 0 <= ch < 4 ensures acc[4 * x + ch] == TwoPassAt(PlaneOf(img, ch), z, x, y) {
      DotIsThePass(z.sh, z.height, y, taps, Column(PlaneOf(img, ch), z, x));
    }
  }

  /** A source row through the taps of column x is that column at that row. */
  lemma LineIsTheColumn(img: Image, z: Sizes, taps: seq<Tap>, line: seq<int>, x: nat, ch: nat, t: nat)
    requires z.width > 0 && Rectangular(img, z.sw, z.sh) && TapsOf(z.sw, z.width, x, taps) && t < z.sh && ch < 4
    requires |line| == 4 * z.sw && forall s :: 0 <= s < z.sw ==> line[4 * s + ch] == Channel(img[t][s], ch)
    ensures Dot(taps, LineChannel(line, ch)) == Column(PlaneOf(img, ch), z, x)(t)
  {
    DotEqual(taps, LineChannel(line, ch), Along(PlaneOf(img, ch), t));
    DotIsThePass(z.sw, z.width, x, taps, Along(PlaneOf(img, ch), t));
  }

  method RoundRow(acc: array<int>, z: Sizes) returns (out: seq<Rgba>)
    requires z.sw > 0 && z.sh > 0 && acc.Length == 4 * z.width
    ensures |out| == z.width
    ensures forall x :: 0 <= x < z.width ==>
              out[x] == Rounded(acc[4 * x], acc[4 * x + 1], acc[4 * x + 2], acc[4 * x + 3], z)
  {
    out := [];
    for x := 0 to z.width
      invariant |out| == x
      invariant forall k :: 0 <= k < x ==>
                  out[k] == Rounded(acc[4 * k], acc[4 * k + 1], acc[4 * k + 2], acc[4 * k + 3], z)
    {
      out := out + [Rounded(acc[4 * x], acc[4 * x + 1], acc[4 * x + 2], acc[4 * x + 3], z)];
    }
  }

  function Rounded(r: int, g: int, b: int, a: int, z: Sizes): Rgba
    requires z.sw > 0 && z.sh > 0
  {
    Unit(z);
    var d := 255 * (z.sw * z.sh);
    var alpha := ClampByte(a, d);
    Rgba(LeastByte(ClampByte(r, d), alpha), LeastByte(ClampByte(g, d), alpha), LeastByte(ClampByte(b, d), alpha), alpha)
  }

  /** Height in proportion, rounded half up and at least one row. */
  function HeightFor(sw: nat, sh: nat, width: nat): (height: nat)
    requires sw > 0
    ensures height >= 1
    ensures height > 1 ==> 2 * height * sw - sw <= 2 * sh * width < 2 * height * sw + sw
  {
    var height := (2 * sh * width + sw) / (2 * sw);
    assert 2 * sh * width + sw == height * (2 * sw) + (2 * sh * width + sw) % (2 * sw);
    if height < 1 then 1 else height
  }

  /** Every output pixel is the rounded average of exactly the area it covers. */
  method DownscaleRows(img: Image, sw: nat, sh: nat, width: nat) returns (dst: seq<seq<Rgba>>)
    requires sw > 0 && sh > 0 && width > 0 && Rectangular(img, sw, sh)
    ensures |dst| == HeightFor(sw, sh, width)
    ensures forall y :: 0 <= y < |dst| ==> |dst[y]| == width
    ensures forall y, x :: 0 <= y < |dst| && 0 <= x < width ==>
              OutPixel(dst[y][x], img, Sizes(sw, sh, width, HeightFor(sw, sh, width)), x, y)
  {
    var height := HeightFor(sw, sh, width);
    var z := Sizes(sw, sh, width, height);
    var columns := AreaWeights(sw, width);
    var rows := AreaWeights(sh, height);
    var line, horizontal, acc := new int[4 * sw], new int[4 * width], new int[4 * width];
    dst := [];
    for y := 0 to height
      invariant |dst| == y && forall k :: 0 <= k < y ==> |dst[k]| == width
      invariant forall k, x :: 0 <= k < y && 0 <= x < width ==> OutPixel(dst[k][x], img, z, x, k)
    {
      WeighRows(img, z, columns, rows[y], y, line, horizontal, acc);
      var out := RoundRow(acc, z);
      forall x | 0 <= x < width ensures OutPixel(out[x], img, z, x, y) {
        forall ch | 0 <= ch < 4 ensures acc[4 * x + ch] == Area(PlaneOf(img, ch), z, x, y) {
          TwoPassIsTheArea(PlaneOf(img, ch), z, x, y);
        }
        assert acc[4 * x + 0] == Area(PlaneOf(img, 0), z, x, y);
      }
      dst := dst + [out];
    }
  }
}
