/** The surface under a line of text, read from the pixels of its box (gui/ChronoMock.App.Tests/ContrastReport.cs):
    the sampling behind the contrast check of WCAG 2.1, Success Criterion 1.4.3. */
module PaperBehind {
  import opened Wrappers

  type byte = x: int | 0 <= x < 256

  datatype Colour = Colour(r: byte, g: byte, b: byte)

  /** A canvas of four bytes a pixel: blue, green, red, alpha, row after row. */
  datatype Canvas = Canvas(pixels: seq<byte>, width: nat, height: nat)

  function Stride(c: Canvas): nat { 4 * c.width }

  predicate Complete(c: Canvas) { |c.pixels| == Stride(c) * c.height }

  /** The part of the canvas under a box, by its first and past its last column and row. */
  datatype Box = Box(x0: nat, y0: nat, x1: int, y1: int)

  function Toward0(a: real): int { if a < 0.0 then -(-a).Floor else a.Floor }

  function Ceiling(a: real): int { -(-a).Floor }

  function Least(a: int, b: int): int { if a < b then a else b }

  function Most(a: int, b: int): nat
    requires a >= 0
  {
    if a < b then b else a
  }

  function Clamped(c: Canvas, left: real, top: real, right: real, bottom: real): Box {
    Box(Most(0, Toward0(left)), Most(0, Toward0(top)), Least(c.width, Ceiling(right)), Least(c.height, Ceiling(bottom)))
  }

  predicate Blank(b: Box) { b.x1 <= b.x0 || b.y1 <= b.y0 }

  predicate On(c: Canvas, b: Box) { b.x1 <= c.width && b.y1 <= c.height }

  /** The columns, and so the rows, of the clamped box are those of the canvas that the bounds reach into. */
  lemma ClampedIsWhatIsReached(c: Canvas, left: real, top: real, right: real, bottom: real, p: nat)
    ensures var b := Clamped(c, left, top, right, bottom);
      && On(c, b)
      && (b.x0 <= p < b.x1 <==> p < c.width && left < p as real + 1.0 && (p as real) < right)
      && (b.y0 <= p < b.y1 <==> p < c.height && top < p as real + 1.0 && (p as real) < bottom)
  {
    Reached(c.width, left, right, p);
    Reached(c.height, top, bottom, p);
  }

  lemma Reached(size: nat, from: real, to: real, p: nat)
    ensures Most(0, Toward0(from)) <= p < Least(size, Ceiling(to)) <==>
            p < size && from < p as real + 1.0 && (p as real) < to
  {
    CeilingIs(to, p);
    if from >= 0.0 {
      assert from.Floor <= p <==> from < p as real + 1.0;
    } else {
      assert Toward0(from) <= 0;
    }
  }

  lemma CeilingIs(a: real, p: int)
    ensures p < Ceiling(a) <==> p as real < a
  {
    var n := (-a).Floor;
    assert n as real <= -a < n as real + 1.0;
    if p < -n {
      assert p as real <= (-n - 1) as real;
    } else {
      assert p as real >= (-n) as real;
    }
  }

  // --- Buckets of eight per channel ---

  function KeyOf(r: byte, g: byte, b: byte): nat { r / 8 * 65536 + g / 8 * 256 + b / 8 }

  predicate IsKey(key: nat) { key < 32 * 65536 && key / 256 % 256 < 32 && key % 256 < 32 }

  function BucketColour(key: nat): Colour
    requires IsKey(key)
  {
    Colour(key / 65536 * 8, key / 256 % 256 * 8, key % 256 * 8)
  }

  /** A bucket's colour is the pixel's, each channel down to the eight below. */
  lemma BucketsKeepTheColour(r: byte, g: byte, b: byte)
    ensures IsKey(KeyOf(r, g, b))
    ensures BucketColour(KeyOf(r, g, b)) == Colour(r - r % 8, g - g % 8, b - b % 8)
  {
    var key := KeyOf(r, g, b);
    assert key == (r / 8 * 256 + g / 8) * 256 + b / 8;
    assert key % 256 == b / 8 && key / 256 == r / 8 * 256 + g / 8;
    assert key / 256 % 256 == g / 8;
    assert key / 65536 == r / 8;
  }

  lemma InBounds(c: Canvas, x: nat, y: nat)
    requires Complete(c) && x < c.width && y < c.height
    ensures y * Stride(c) + 4 * x + 3 < |c.pixels|
  {
    assert (y + 1) * Stride(c) <= c.height * Stride(c);
    assert (y + 1) * Stride(c) == y * Stride(c) + Stride(c);
  }

  function KeyAt(c: Canvas, x: nat, y: nat): nat
    requires Complete(c) && x < c.width && y < c.height
  {
    InBounds(c, x, y);
    var i := y * Stride(c) + 4 * x;
    KeyOf(c.pixels[i + 2], c.pixels[i + 1], c.pixels[i])
  }

  /** The keys of one row from `x0` up to `x`, and of the rows from `y0` up to `y`. */
  function RowKeys(c: Canvas, y: nat, x0: nat, x: nat): multiset<nat>
    requires Complete(c) && y < c.height && x0 <= x <= c.width
    decreases x - x0
  {
    if x == x0 then multiset{} else RowKeys(c, y, x0, x - 1) + multiset{KeyAt(c, x - 1, y)}
  }

  function BoxKeys(c: Canvas, x0: nat, x1: nat, y0: nat, y: nat): multiset<nat>
    requires Complete(c) && x0 <= x1 <= c.width && y0 <= y <= c.height
    decreases y - y0
  {
    if y == y0 then multiset{} else BoxKeys(c, x0, x1, y0, y - 1) + RowKeys(c, y - 1, x0, x1)
  }

  // --- What is painted ---

  /** The canvas holds the painting: blue, green and red of each place, four bytes a place, row after row. */
  ghost predicate Paints(c: Canvas, paint: (int, int) -> Colour) {
    && Complete(c)
    && forall x, y :: 0 <= x < c.width && 0 <= y < c.height ==> HoldsPlace(c, x, y, paint(x, y))
  }

  ghost predicate HoldsPlace(c: Canvas, x: int, y: int, colour: Colour) {
    var i := 4 * (c.width * y + x);
    0 <= i && i + 2 < |c.pixels| && c.pixels[i] == colour.b && c.pixels[i + 1] == colour.g && c.pixels[i + 2] == colour.r
  }

  /** Each channel down to the eight below. */
  function Down(colour: Colour): Colour {
    Colour(colour.r - colour.r % 8, colour.g - colour.g % 8, colour.b - colour.b % 8)
  }

  /** The places of a box that are painted in a colour, or in one that rounds down to it. */
  ghost function Places(paint: (int, int) -> Colour, x0: int, x1: int, y0: int, y1: int, colour: Colour): set<(int, int)>
  {
    set x, y | x0 <= x < x1 && y0 <= y < y1 && Down(paint(x, y)) == colour :: (x, y)
  }

  ghost function PlacesIn(paint: (int, int) -> Colour, b: Box, colour: Colour): set<(int, int)> {
    Places(paint, b.x0, b.x1, b.y0, b.y1, colour)
  }

  lemma KeyIsColour(key: nat, other: nat)
    requires IsKey(key) && IsKey(other) && BucketColour(key) == BucketColour(other)
    ensures key == other
  {
    assert key == key / 65536 * 65536 + key / 256 % 256 * 256 + key % 256;
    assert other == other / 65536 * 65536 + other / 256 % 256 * 256 + other % 256;
  }

  /** The bucket of a place is that of its colour. */
  lemma KeyAtPlace(c: Canvas, paint: (int, int) -> Colour, x: nat, y: nat)
    requires Paints(c, paint) && x < c.width && y < c.height
    ensures IsKey(KeyAt(c, x, y)) && BucketColour(KeyAt(c, x, y)) == Down(paint(x, y))
  {
    hide BucketColour, KeyOf, IsKey;
    assert HoldsPlace(c, x, y, paint(x, y));
    InBounds(c, x, y);
    assert y * Stride(c) + 4 * x == 4 * (c.width * y + x);
    BucketsKeepTheColour(paint(x, y).r, paint(x, y).g, paint(x, y).b);
  }

  lemma {:induction false} RowOfPlaces(c: Canvas, paint: (int, int) -> Colour, y: nat, x0: nat, x: nat, key: nat)
    requires Paints(c, paint) && y < c.height && x0 <= x <= c.width && IsKey(key)
    ensures RowKeys(c, y, x0, x)[key] == |Places(paint, x0, x, y, y + 1, BucketColour(key))|
    decreases x - x0
  {
    Painted(c, paint);
    hide KeyAt, BucketColour, IsKey, Paints;
    var colour := BucketColour(key);
    if x == x0 {
      assert Places(paint, x0, x, y, y + 1, colour) == {};
    } else {
      RowOfPlaces(c, paint, y, x0, x - 1, key);
      KeyAtPlace(c, paint, x - 1, y);
      if KeyAt(c, x - 1, y) != key && Down(paint(x - 1, y)) == colour {
        KeyIsColour(KeyAt(c, x - 1, y), key);
      }
      OnePlaceMore(paint, x0, x, y, colour);
    }
  }

  lemma OnePlaceMore(paint: (int, int) -> Colour, x0: int, x: int, y: int, colour: Colour)
    requires x0 < x
    ensures |Places(paint, x0, x, y, y + 1, colour)|
         == |Places(paint, x0, x - 1, y, y + 1, colour)| + if Down(paint(x - 1, y)) == colour then 1 else 0
  {
    var (before, now) := (Places(paint, x0, x - 1, y, y + 1, colour), Places(paint, x0, x, y, y + 1, colour));
    hide Down;
    assert now == before + if Down(paint(x - 1, y)) == colour then {(x - 1, y)} else {};
  }

  lemma OneRowMore(paint: (int, int) -> Colour, x0: int, x1: int, y0: int, y: int, colour: Colour)
    requires y0 < y
    ensures |Places(paint, x0, x1, y0, y, colour)|
         == |Places(paint, x0, x1, y0, y - 1, colour)| + |Places(paint, x0, x1, y - 1, y, colour)|
  {
    hide Down;
    assert Places(paint, x0, x1, y0, y, colour)
        == Places(paint, x0, x1, y0, y - 1, colour) + Places(paint, x0, x1, y - 1, y, colour);
  }

  /** A bucket is met once at each place of the box whose colour rounds down to the bucket's. */
  lemma {:induction false} BoxOfPlaces(c: Canvas, paint: (int, int) -> Colour, x0: nat, x1: nat, y0: nat, y: nat, key: nat)
    requires Paints(c, paint) && x0 <= x1 <= c.width && y0 <= y <= c.height && IsKey(key)
    ensures BoxKeys(c, x0, x1, y0, y)[key] == |Places(paint, x0, x1, y0, y, BucketColour(key))|
    decreases y - y0
  {
    hide RowKeys, BucketColour, IsKey, Paints;
    if y == y0 {
      assert Places(paint, x0, x1, y0, y, BucketColour(key)) == {};
    } else {
      BoxOfPlaces(c, paint, x0, x1, y0, y - 1, key);
      RowOfPlaces(c, paint, y - 1, x0, x1, key);
      OneRowMore(paint, x0, x1, y0, y, BucketColour(key));
    }
  }

  /** The counts are those of the keys. */
  ghost predicate CountsOf(counts: map<nat, nat>, keys: multiset<nat>) {
    && (forall k :: k in counts <==> k in keys)
    && (forall k :: k in counts ==> counts[k] == keys[k])
  }

  lemma NoneYet()
    ensures CountsOf(map[], multiset{})
  {
  }

  lemma OneMore(counts: map<nat, nat>, keys: multiset<nat>, key: nat)
    requires CountsOf(counts, keys)
    ensures CountsOf(counts[key := if key in counts then counts[key] + 1 else 1], keys + multiset{key})
  {
  }

  method CountRow(c: Canvas, y: nat, x0: nat, x1: nat, before: map<nat, nat>, ghost keys: multiset<nat>)
    returns (counts: map<nat, nat>)
    requires Complete(c) && y < c.height && x0 <= x1 <= c.width && CountsOf(before, keys)
    ensures CountsOf(counts, keys + RowKeys(c, y, x0, x1))
  {
    hide KeyAt, CountsOf;
    counts := before;
    var x := x0;
    assert keys + multiset{} == keys;
    while x < x1
      invariant x0 <= x <= x1
      invariant CountsOf(counts, keys + RowKeys(c, y, x0, x))
    {
      var key := KeyAt(c, x, y);
      assert keys + RowKeys(c, y, x0, x + 1) == (keys + RowKeys(c, y, x0, x)) + multiset{key};
      OneMore(counts, keys + RowKeys(c, y, x0, x), key);
      counts := counts[key := if key in counts then counts[key] + 1 else 1];
      x := x + 1;
    }
  }

  /** Each bucket with the number of its places in the box. */
  ghost predicate CountsPlaces(counts: map<nat, nat>, paint: (int, int) -> Colour, b: Box) {
    && (forall k :: k in counts ==> IsKey(k) && counts[k] == |PlacesIn(paint, b, BucketColour(k))| > 0)
    && (forall k :: IsKey(k) && PlacesIn(paint, b, BucketColour(k)) != {} ==> k in counts)
  }

  lemma KeysArePlaces(c: Canvas, b: Box, counts: map<nat, nat>, paint: (int, int) -> Colour)
    requires Paints(c, paint) && On(c, b) && !Blank(b) && CountsOf(counts, BoxKeys(c, b.x0, b.x1, b.y0, b.y1))
    ensures CountsPlaces(counts, paint, b)
  {
    hide BoxKeys, BucketColour, IsKey, Paints, Places;
    assert Complete(c) by { Painted(c, paint); }
    var keys := BoxKeys(c, b.x0, b.x1, b.y0, b.y1);
    forall k | IsKey(k) ensures keys[k] == |PlacesIn(paint, b, BucketColour(k))| {
      BoxOfPlaces(c, paint, b.x0, b.x1, b.y0, b.y1, k);
    }
    forall k | k in keys ensures IsKey(k) {
      AllKeys(c, b.x0, b.x1, b.y0, b.y1, k);
    }
  }

  lemma Painted(c: Canvas, paint: (int, int) -> Colour)
    requires Paints(c, paint)
    ensures Complete(c)
  {
  }

  method CountKeys(c: Canvas, b: Box) returns (counts: map<nat, nat>)
    requires Complete(c) && On(c, b) && !Blank(b)
    ensures CountsOf(counts, BoxKeys(c, b.x0, b.x1, b.y0, b.y1))
  {
    hide CountsOf, RowKeys;
    counts := map[];
    NoneYet();
    var y := b.y0;
    while y < b.y1
      invariant b.y0 <= y <= b.y1
      invariant CountsOf(counts, BoxKeys(c, b.x0, b.x1, b.y0, y))
    {
      counts := CountRow(c, y, b.x0, b.x1, counts, BoxKeys(c, b.x0, b.x1, b.y0, y));
      y := y + 1;
    }
  }

  method Count(c: Canvas, ghost paint: (int, int) -> Colour, b: Box) returns (counts: map<nat, nat>)
    requires Paints(c, paint) && On(c, b) && !Blank(b)
    ensures Complete(c) && CountsOf(counts, BoxKeys(c, b.x0, b.x1, b.y0, b.y1))
    ensures CountsPlaces(counts, paint, b)
  {
    Painted(c, paint);
    hide CountsOf, BoxKeys, Paints, CountsPlaces;
    counts := CountKeys(c, b);
    KeysArePlaces(c, b, counts, paint);
  }

  /** No pixel of the box is counted twice or left out. */
  lemma {:induction false} RowIsCounted(c: Canvas, y: nat, x0: nat, x: nat)
    requires Complete(c) && y < c.height && x0 <= x <= c.width
    ensures |RowKeys(c, y, x0, x)| == x - x0
    decreases x - x0
  {
    if x > x0 {
      RowIsCounted(c, y, x0, x - 1);
    }
  }

  lemma {:induction false} BoxIsCounted(c: Canvas, x0: nat, x1: nat, y0: nat, y: nat)
    requires Complete(c) && x0 <= x1 <= c.width && y0 <= y <= c.height
    ensures |BoxKeys(c, x0, x1, y0, y)| == (x1 - x0) * (y - y0)
    decreases y - y0
  {
    hide RowKeys;
    if y > y0 {
      BoxIsCounted(c, x0, x1, y0, y - 1);
      RowIsCounted(c, y - 1, x0, x1);
      assert (x1 - x0) * (y - y0) == (x1 - x0) * (y - 1 - y0) + (x1 - x0);
    }
  }

  lemma {:induction false} AllKeys(c: Canvas, x0: nat, x1: nat, y0: nat, y: nat, key: nat)
    requires Complete(c) && x0 <= x1 <= c.width && y0 <= y <= c.height && key in BoxKeys(c, x0, x1, y0, y)
    ensures IsKey(key)
    decreases y - y0
  {
    if key in RowKeys(c, y - 1, x0, x1) {
      RowOfKeys(c, y - 1, x0, x1, key);
    } else {
      AllKeys(c, x0, x1, y0, y - 1, key);
    }
  }

  lemma {:induction false} RowOfKeys(c: Canvas, y: nat, x0: nat, x: nat, key: nat)
    requires Complete(c) && y < c.height && x0 <= x <= c.width && key in RowKeys(c, y, x0, x)
    ensures IsKey(key)
    decreases x - x0
  {
    InBounds(c, x - 1, y);
    var i := y * Stride(c) + 4 * (x - 1);
    BucketsKeepTheColour(c.pixels[i + 2], c.pixels[i + 1], c.pixels[i]);
    if key != KeyAt(c, x - 1, y) {
      RowOfKeys(c, y, x0, x - 1, key);
    }
  }

  // --- The search ---

  datatype Bucket = Bucket(key: nat, count: nat)

  /** Ranked: every bucket once with its count, the fullest first. */
  ghost predicate Ranked(ranked: seq<Bucket>, keys: multiset<nat>) {
    && (forall i :: 0 <= i < |ranked| ==> ranked[i].key in keys && ranked[i].count == keys[ranked[i].key])
    && (forall i, j :: 0 <= i < j < |ranked| ==>
          ranked[i].key != ranked[j].key && ranked[i].count >= ranked[j].count)
    && (forall k :: k in keys ==> exists i :: 0 <= i < |ranked| && ranked[i].key == k)
  }

  function Square(a: int): int { a * a }

  function SquaredDistance(a: Colour, b: Colour): int { Square(a.r - b.r) + Square(a.g - b.g) + Square(a.b - b.b) }

  /** Too far from the ink to be the ink itself: more than 32 away. */
  predicate Far(ink: Colour, key: nat)
    requires IsKey(key)
  {
    SquaredDistance(ink, BucketColour(key)) > 32 * 32
  }

  /** At least a tenth of the box. */
  predicate RealShare(count: nat, total: nat) { 10 * count >= total }

  /** The surface, said outright: the fullest bucket, unless that is the ink's colour and another that is not
      covers a tenth - then the fullest of those. */
  ghost predicate IsSurface(keys: multiset<nat>, ink: Colour, paper: nat)
    requires forall k :: k in keys ==> IsKey(k)
  {
    && paper in keys
    && (if Far(ink, paper) then
          forall k :: k in keys && keys[k] > keys[paper] ==> !Far(ink, k) && RealShare(keys[paper], |keys|)
        else
          && (forall k :: k in keys ==> keys[k] <= keys[paper])
          && (forall k :: k in keys && Far(ink, k) ==> !RealShare(keys[k], |keys|)))
  }

  /** The pixels of the first `i` buckets. */
  ghost function Taken(ranked: seq<Bucket>, i: nat): multiset<nat>
    requires i <= |ranked|
    decreases i
  {
    if i == 0 then multiset{} else Taken(ranked, i - 1)[ranked[i - 1].key := ranked[i - 1].count]
  }

  lemma {:induction false} TakenFromTheBox(ranked: seq<Bucket>, keys: multiset<nat>, i: nat, least: nat)
    requires Ranked(ranked, keys) && i <= |ranked|
    requires forall j :: 0 <= j < i ==> ranked[j].count >= least
    ensures Taken(ranked, i) <= keys && |Taken(ranked, i)| >= i * least
    ensures forall j :: i <= j < |ranked| ==> ranked[j].key !in Taken(ranked, i)
    decreases i
  {
    if i > 0 {
      TakenFromTheBox(ranked, keys, i - 1, least);
      assert i * least == (i - 1) * least + least;
    }
  }

  lemma Smaller(a: multiset<nat>, b: multiset<nat>)
    requires a <= b
    ensures |a| <= |b|
  {
    assert b == a + (b - a);
  }

  /** Ten buckets at most cover a tenth each, so the test on the buckets past the first passes nine times at most. */
  lemma TenAtMost(ranked: seq<Bucket>, keys: multiset<nat>, i: nat)
    requires Ranked(ranked, keys) && i < |ranked| && RealShare(ranked[i].count, |keys|)
    ensures i <= 9
  {
    var least := ranked[i].count;
    TakenFromTheBox(ranked, keys, i + 1, least);
    Smaller(Taken(ranked, i + 1), keys);
    assert keys[ranked[i].key] > 0;
    AtMostTen(i + 1, least, |keys|);
  }

  lemma AtMostTen(n: nat, least: nat, total: nat)
    requires least > 0 && n * least <= total <= 10 * least
    ensures n <= 10
  {
    assert (n - 10) * least <= 0;
  }

  /** The search over the ranked buckets, which breaks off at the first that covers less than a tenth: what it
      gives is the surface all the same, and the test passes nine times at most. */
  method Surface(ranked: seq<Bucket>, ghost keys: multiset<nat>, ink: Colour, total: nat)
    returns (paper: nat, passes: nat)
    requires Ranked(ranked, keys) && ranked != [] && total == |keys| && forall k :: k in keys ==> IsKey(k)
    ensures IsSurface(keys, ink, paper)
    ensures passes <= 9
  {
    hide Far, RealShare;
    paper, passes := ranked[0].key, 0;
    FullestFirst(ranked, keys);
    if Far(ink, paper) {
      return;
    }
    var i := 1;
    while i < |ranked|
      invariant 1 <= i <= |ranked| && passes == i - 1 <= 9
      invariant forall j :: 0 <= j < i ==> !Far(ink, ranked[j].key)
      decreases |ranked| - i
    {
      if !RealShare(ranked[i].count, total) {
        NoneFurther(ranked, keys, ink, i);
        return;
      }
      TenAtMost(ranked, keys, i);
      passes := passes + 1;
      if Far(ink, ranked[i].key) {
        paper := ranked[i].key;
        AllFullerAreNear(ranked, keys, ink, i);
        return;
      }
      i := i + 1;
    }
    NoneFurther(ranked, keys, ink, i);
  }

  lemma FullestFirst(ranked: seq<Bucket>, keys: multiset<nat>)
    requires Ranked(ranked, keys) && ranked != []
    ensures forall k :: k in keys ==> keys[k] <= keys[ranked[0].key]
  {
    forall k | k in keys ensures keys[k] <= keys[ranked[0].key] {
      var i :| 0 <= i < |ranked| && ranked[i].key == k;
    }
  }

  lemma NoneFurther(ranked: seq<Bucket>, keys: multiset<nat>, ink: Colour, i: nat)
    requires Ranked(ranked, keys) && 1 <= i <= |ranked| && forall k :: k in keys ==> IsKey(k)
    requires i < |ranked| ==> !RealShare(ranked[i].count, |keys|)
    requires forall j :: 0 <= j < i ==> !Far(ink, ranked[j].key)
    ensures forall k :: k in keys && Far(ink, k) ==> !RealShare(keys[k], |keys|)
  {
    forall k | k in keys && Far(ink, k) ensures !RealShare(keys[k], |keys|) {
      var j :| 0 <= j < |ranked| && ranked[j].key == k;
      assert j > i ==> ranked[i].count >= ranked[j].count;
    }
  }

  lemma AllFullerAreNear(ranked: seq<Bucket>, keys: multiset<nat>, ink: Colour, i: nat)
    requires Ranked(ranked, keys) && i < |ranked| && forall k :: k in keys ==> IsKey(k)
    requires forall j :: 0 <= j < i ==> !Far(ink, ranked[j].key)
    ensures forall k :: k in keys && keys[k] > ranked[i].count ==> !Far(ink, k)
  {
    forall k | k in keys && keys[k] > ranked[i].count ensures !Far(ink, k) {
      var j :| 0 <= j < |ranked| && ranked[j].key == k;
    }
  }

  ghost predicate Has(ranked: seq<Bucket>, key: nat) { exists i :: 0 <= i < |ranked| && ranked[i].key == key }

  /** Part of the ranking: of the keys not left, with nothing left fuller than any of them. */
  ghost predicate RankedSoFar(ranked: seq<Bucket>, left: set<nat>, keys: multiset<nat>) {
    && (forall i :: 0 <= i < |ranked| ==>
          ranked[i].key in keys && ranked[i].key !in left && ranked[i].count == keys[ranked[i].key])
    && (forall i, j :: 0 <= i < j < |ranked| ==>
          ranked[i].key != ranked[j].key && ranked[i].count >= ranked[j].count)
    && (forall i, k :: 0 <= i < |ranked| && k in left ==> ranked[i].count >= keys[k])
    && (forall k :: k in keys && k !in left ==> Has(ranked, k))
  }

  lemma OneMoreRanked(ranked: seq<Bucket>, left: set<nat>, keys: multiset<nat>, best: nat)
    requires RankedSoFar(ranked, left, keys) && best in left && best in keys
    requires forall k :: k in left ==> keys[k] <= keys[best]
    ensures RankedSoFar(ranked + [Bucket(best, keys[best])], left - {best}, keys)
  {
    hide Has;
    var more := ranked + [Bucket(best, keys[best])];
    assert forall i :: 0 <= i < |ranked| ==> more[i] == ranked[i];
    forall k | k in keys && k !in left - {best} ensures Has(more, k) {
      StillHas(ranked, Bucket(best, keys[best]), k);
    }
  }

  lemma StillHas(ranked: seq<Bucket>, last: Bucket, k: nat)
    ensures Has(ranked + [last], k) <==> Has(ranked, k) || k == last.key
  {
    var more := ranked + [last];
    assert more[|ranked|] == last;
    if Has(ranked, k) {
      var i :| 0 <= i < |ranked| && ranked[i].key == k;
      assert more[i].key == k;
    }
  }

  lemma AllRanked(ranked: seq<Bucket>, keys: multiset<nat>)
    requires RankedSoFar(ranked, {}, keys)
    ensures Ranked(ranked, keys)
  {
    assert forall k :: k in keys ==> Has(ranked, k);
  }

  /** `OrderByDescending`: the fullest bucket of those left, again and again. */
  method Rank(counts: map<nat, nat>, ghost keys: multiset<nat>) returns (ranked: seq<Bucket>)
    requires CountsOf(counts, keys)
    ensures Ranked(ranked, keys)
  {
    hide RankedSoFar, Ranked, CountsOf;
    assert forall k :: k in counts ==> k in keys && counts[k] == keys[k] by { Known(counts, keys); }
    ranked := [];
    var left := counts.Keys;
    assert RankedSoFar([], counts.Keys, keys) by { Known(counts, keys); NothingRanked(counts.Keys, keys); }
    while left != {}
      invariant left <= counts.Keys && RankedSoFar(ranked, left, keys)
      decreases |left|
    {
      var best := Fullest(left, counts);
      OneMoreRanked(ranked, left, keys, best);
      ranked := ranked + [Bucket(best, counts[best])];
      left := left - {best};
    }
    AllRanked(ranked, keys);
  }

  lemma Known(counts: map<nat, nat>, keys: multiset<nat>)
    requires CountsOf(counts, keys)
    ensures forall k :: k in counts <==> k in keys
    ensures forall k :: k in counts ==> counts[k] == keys[k]
  {
  }

  lemma NothingRanked(left: set<nat>, keys: multiset<nat>)
    requires forall k :: k in keys ==> k in left
    ensures RankedSoFar([], left, keys)
  {
  }

  method Fullest(left: set<nat>, counts: map<nat, nat>) returns (best: nat)
    requires left != {} && left <= counts.Keys
    ensures best in left && forall k :: k in left ==> counts[k] <= counts[best]
  {
    best :| best in left;
    var rest := left - {best};
    while rest != {}
      invariant rest <= left && best in left && forall k :: k in left - rest ==> counts[k] <= counts[best]
      decreases |rest|
    {
      var k :| k in rest;
      if counts[k] > counts[best] {
        best := k;
      }
      rest := rest - {k};
    }
  }

  /** The surface, said of the painting: the colour most of the box rounds down to, unless that is within 32 of the ink
      and another that is not covers a tenth - then the one most of the box has among those. */
  ghost predicate IsPaper(paint: (int, int) -> Colour, b: Box, ink: Colour, paper: Colour) {
    && PlacesIn(paint, b, paper) != {}
    && (if Apart(ink, paper) then
          forall other :: |PlacesIn(paint, b, other)| > |PlacesIn(paint, b, paper)| ==>
            !Apart(ink, other) && |PlacesIn(paint, b, paper)| * 10 >= (b.x1 - b.x0) * (b.y1 - b.y0)
        else
          && (forall other :: |PlacesIn(paint, b, other)| <= |PlacesIn(paint, b, paper)|)
          && (forall other :: PlacesIn(paint, b, other) != {} && Apart(ink, other) ==>
                |PlacesIn(paint, b, other)| * 10 < (b.x1 - b.x0) * (b.y1 - b.y0)))
  }

  /** More than 32 between two colours, as points of a cube. */
  ghost predicate Apart(a: Colour, b: Colour) {
    var (r, g, blue) := (a.r as int - b.r as int, a.g as int - b.g as int, a.b as int - b.b as int);
    r * r + g * g + blue * blue > 1024
  }

  lemma FarIsApart(ink: Colour, key: nat)
    requires IsKey(key)
    ensures Far(ink, key) <==> Apart(ink, BucketColour(key))
  {
    hide BucketColour;
  }

  /** The bucket of a colour that something in the box rounds down to. */
  lemma PlacesHaveKeys(c: Canvas, paint: (int, int) -> Colour, b: Box, colour: Colour) returns (key: nat)
    requires Paints(c, paint) && On(c, b) && !Blank(b) && PlacesIn(paint, b, colour) != {}
    ensures IsKey(key) && BucketColour(key) == colour
  {
    hide KeyAt, BucketColour, IsKey;
    var x, y :| (x, y) in PlacesIn(paint, b, colour);
    KeyAtPlace(c, paint, x, y);
    key := KeyAt(c, x, y);
  }

  lemma SurfaceIsPaper(c: Canvas, paint: (int, int) -> Colour, b: Box, counts: map<nat, nat>, ink: Colour, k: nat)
    requires Paints(c, paint) && On(c, b) && !Blank(b) && CountsPlaces(counts, paint, b)
    requires Complete(c) && var keys := BoxKeys(c, b.x0, b.x1, b.y0, b.y1);
      && CountsOf(counts, keys) && |keys| == (b.x1 - b.x0) * (b.y1 - b.y0)
      && (forall key :: key in keys ==> IsKey(key)) && IsSurface(keys, ink, k)
    ensures IsKey(k) && IsPaper(paint, b, ink, BucketColour(k))
  {
    hide BoxKeys, BucketColour, IsKey, Paints, Places, Apart, Far;
    FarIsApart(ink, k);
    forall other | PlacesIn(paint, b, other) != {}
      ensures exists key :: key in counts && BucketColour(key) == other && counts[key] == |PlacesIn(paint, b, other)|
                            && (Far(ink, key) <==> Apart(ink, other))
    {
      var key := PlacesHaveKeys(c, paint, b, other);
      FarIsApart(ink, key);
    }
  }

  /** The whole of it: nothing for a box off the canvas, the surface of its painting for any other - and of one painted
      all in one colour, that colour rounded down. */
  method Behind(c: Canvas, ghost paint: (int, int) -> Colour, left: real, top: real, right: real, bottom: real, ink: Colour)
    returns (paper: Option<Colour>)
    requires Paints(c, paint)
    ensures var b := Clamped(c, left, top, right, bottom);
      if Blank(b) then paper == None
      else paper.Some? && IsPaper(paint, b, ink, paper.value)
           && forall colour :: AllOf(paint, b, colour) ==> paper.value == Down(colour)
  {
    Painted(c, paint);
    var b := Clamped(c, left, top, right, bottom);
    if Blank(b) {
      return None;
    }
    var counts := Count(c, paint, b);
    ghost var keys := BoxKeys(c, b.x0, b.x1, b.y0, b.y1);
    TheBoxHasPixels(c, b);
    hide KeyAt, BoxKeys, IsSurface, BucketColour, Clamped, Ranked, Paints, IsPaper, Places, CountsPlaces;
    var ranked := Rank(counts, keys);
    assert ranked != [] by { SomethingRanked(ranked, keys); }
    var surface, passes := Surface(ranked, keys, ink, (b.x1 - b.x0) * (b.y1 - b.y0));
    SurfaceIsPaper(c, paint, b, counts, ink, surface);
    forall colour | AllOf(paint, b, colour) ensures BucketColour(surface) == Down(colour) {
      OneColour(paint, b, ink, BucketColour(surface), colour);
    }
    return Some(BucketColour(surface));
  }

  ghost predicate AllOf(paint: (int, int) -> Colour, b: Box, colour: Colour) {
    forall x, y :: b.x0 <= x < b.x1 && b.y0 <= y < b.y1 ==> paint(x, y) == colour
  }

  lemma OneColour(paint: (int, int) -> Colour, b: Box, ink: Colour, paper: Colour, colour: Colour)
    requires AllOf(paint, b, colour) && IsPaper(paint, b, ink, paper)
    ensures paper == Down(colour)
  {
    var x, y :| (x, y) in PlacesIn(paint, b, paper);
    assert paint(x, y) == colour;
  }

  lemma TheBoxHasPixels(c: Canvas, b: Box)
    requires Complete(c) && On(c, b) && !Blank(b)
    ensures var keys := BoxKeys(c, b.x0, b.x1, b.y0, b.y1);
      |keys| == (b.x1 - b.x0) * (b.y1 - b.y0) > 0 && forall k :: k in keys ==> IsKey(k)
  {
    hide BoxKeys;
    BoxIsCounted(c, b.x0, b.x1, b.y0, b.y1);
    assert (b.x1 - b.x0) * (b.y1 - b.y0) > 0;
    forall k | k in BoxKeys(c, b.x0, b.x1, b.y0, b.y1) ensures IsKey(k) {
      AllKeys(c, b.x0, b.x1, b.y0, b.y1, k);
    }
  }

  lemma SomethingRanked(ranked: seq<Bucket>, keys: multiset<nat>)
    requires Ranked(ranked, keys) && |keys| > 0
    ensures ranked != []
  {
    var k :| k in keys;
  }
}
