/** Rows driven through a vector kernel's step, one group of pixels at a time, the last partial group
    included. A step computes each pixel of its group from that pixel alone; a driver must give what
    the same function gives pixel by pixel, for a row of any length, storing each element once. */
module RowGroups {
  // --- Pixels of a row

  /** The elements `n` pixels of `width` elements take: their product, as a sum. */
  ghost function Span(n: nat, width: nat): nat {
    if n == 0 then 0 else Span(n - 1, width) + width
  }

  lemma {:induction false} SpanIsProduct(n: nat, width: nat)
    ensures Span(n, width) == n * width
  {
    if n > 0 {
      SpanIsProduct(n - 1, width);
    }
  }

  lemma {:induction false} SpanAdds(m: nat, n: nat, width: nat)
    ensures Span(m + n, width) == Span(m, width) + Span(n, width)
  {
    if n > 0 {
      SpanAdds(m, n - 1, width);
    }
  }

  lemma SpanOrders(m: nat, n: nat, width: nat)
    requires m <= n
    ensures Span(m, width) <= Span(n, width)
    ensures width >= 1 && m < n ==> Span(m, width) + width <= Span(n, width)
  {
    SpanAdds(m, n - m, width);
  }

  lemma SpanFits(off: nat, m: nat, k: nat, width: nat)
    requires k < m
    ensures Span(off + k, width) == Span(off, width) + Span(k, width)
    ensures Span(k, width) + width <= Span(m, width)
  {
    SpanAdds(off, k, width);
    SpanAdds(k + 1, m - k - 1, width);
  }

  /** `len` elements of a row from `at` on, none where it has fewer. */
  ghost function Part<T>(row: seq<T>, at: nat, len: nat): seq<T> {
    if at + len <= |row| then row[at..at + len] else []
  }

  lemma PartOfPart<T>(row: seq<T>, at: nat, len: nat, x: nat, w: nat)
    requires at + len <= |row| && x + w <= len
    ensures Part(Part(row, at, len), x, w) == Part(row, at + x, w)
  {
    var part, whole := row[at..at + len][x..x + w], row[at + x..at + x + w];
    assert forall i :: 0 <= i < w ==> part[i] == row[at + x + i] == whole[i];
    assert part == whole;
  }

  /** Pixel `i` of a row of pixels of `width` elements. */
  ghost function Pixel<T>(row: seq<T>, i: nat, width: nat): seq<T> {
    Part(row, Span(i, width), width)
  }

  /** A pixel of a part of whole pixels is the row's, further on. */
  lemma PixelOfPart<T>(row: seq<T>, width: nat, off: nat, m: nat, k: nat)
    requires Span(off, width) + Span(m, width) <= |row| && k < m
    ensures Pixel(Part(row, Span(off, width), Span(m, width)), k, width) == Pixel(row, off + k, width)
  {
    var at, len, x := Span(off, width), Span(m, width), Span(k, width);
    SpanFits(off, m, k, width);
    PartOfPart(row, at, len, x, width);
    assert Pixel(row, off + k, width) == Part(row, at + x, width);
  }

  /** Pixels `0` to `n` of `row` are the ones wanted. */
  ghost predicate Holds<T>(row: seq<T>, width: nat, want: nat -> seq<T>, n: nat) {
    forall i: nat :: i < n ==> Pixel(row, i, width) == want(i)
  }

  /** A group of `p` pixels holds the ones wanted from pixel `off` on. */
  ghost predicate GroupHolds<T>(group: seq<T>, p: nat, width: nat, want: nat -> seq<T>, off: nat) {
    |group| == Span(p, width) && forall k: nat :: k < p ==> Pixel(group, k, width) == want(off + k)
  }

  // --- Storing part of a row

  /** `row` with `values` in place of its elements from `at` on. */
  ghost function Spliced<T>(row: seq<T>, at: nat, values: seq<T>): seq<T>
    requires at + |values| <= |row|
  {
    row[..at] + values + row[at + |values|..]
  }

  /** Each of `count` elements from `at` on stored once more. */
  ghost function Bumped(stores: seq<nat>, at: nat, count: nat): seq<nat> {
    seq(|stores|, i requires 0 <= i < |stores| => if at <= i < at + count then stores[i] + 1 else stores[i])
  }

  /** The elements up to `end` are stored once, and none after. */
  ghost predicate StoredTo(stores: seq<nat>, len: nat, end: nat) {
    |stores| == len && forall i :: 0 <= i < len ==> stores[i] == if i < end then 1 else 0
  }

  /** The one store there is: an element of the row, and the count of its stores. */
  method Put<T>(row: array<T>, i: nat, value: T, ghost stores: seq<nat>) returns (ghost stores': seq<nat>)
    requires i < row.Length == |stores|
    modifies row
    ensures row[..] == old(row[..])[i := value] && stores' == stores[i := stores[i] + 1]
  {
    row[i] := value;
    stores' := stores[i := stores[i] + 1];
  }

  /** Copies `values` into the row from `at` on, with one store each. */
  method Store<T>(row: array<T>, at: nat, values: seq<T>, ghost stores: seq<nat>) returns (ghost stores': seq<nat>)
    requires at + |values| <= row.Length == |stores|
    modifies row
    ensures row[..] == Spliced(old(row[..]), at, values)
    ensures stores' == Bumped(stores, at, |values|)
  {
    stores' := stores;
    for i := 0 to |values|
      invariant row[..] == old(row[..at]) + values[..i] + old(row[at + i..])
      invariant stores' == Bumped(stores, at, i)
    {
      stores' := Put(row, at + i, values[i], stores');
    }
  }

  /** A pixel before the values spliced in stands. */
  lemma PixelBefore<T>(row: seq<T>, width: nat, off: nat, values: seq<T>, i: nat)
    requires Span(off, width) + |values| <= |row| && i < off
    ensures Pixel(Spliced(row, Span(off, width), values), i, width) == Pixel(row, i, width)
  {
    SpanOrders(i + 1, off, width);
  }

  /** A pixel of the values spliced in is theirs. */
  lemma PixelWithin<T>(row: seq<T>, width: nat, off: nat, values: seq<T>, m: nat, k: nat)
    requires |values| == Span(m, width) && Span(off, width) + |values| <= |row| && k < m
    ensures Pixel(Spliced(row, Span(off, width), values), off + k, width) == Pixel(values, k, width)
  {
    var after := Spliced(row, Span(off, width), values);
    assert Part(after, Span(off, width), Span(m, width)) == values;
    PixelOfPart(after, width, off, m, k);
  }

  /** Pixels wanted, stored after the ones there, extend them, each element stored once. */
  method Place<T>(row: array<T>, values: seq<T>, ghost stores: seq<nat>, at: nat,
                  ghost width: nat, ghost want: nat -> seq<T>, ghost off: nat, ghost m: nat)
    returns (ghost stores': seq<nat>)
    requires at == Span(off, width) && at + |values| <= row.Length
    requires Holds(row[..], width, want, off) && GroupHolds(values, m, width, want, off)
    requires StoredTo(stores, row.Length, at)
    modifies row
    ensures at + |values| == Span(off + m, width)
    ensures Holds(row[..], width, want, off + m) && StoredTo(stores', row.Length, at + |values|)
    ensures forall i :: at + |values| <= i < row.Length ==> row[i] == old(row[i])
  {
    SpanAdds(off, m, width);
    ghost var was := row[..];
    stores' := Store(row, at, values, stores);
    forall i: nat | i < off + m ensures Pixel(row[..], i, width) == want(i) {
      if i < off {
        PixelBefore(was, width, off, values, i);
      } else {
        PixelWithin(was, width, off, values, m, i - off);
        assert want(i) == want(off + (i - off));
      }
    }
  }

  // --- Parts of a group

  /** The last `r` pixels of a group. */
  lemma TailHolds<T>(group: seq<T>, p: nat, width: nat, want: nat -> seq<T>, off: nat, r: nat)
    requires GroupHolds(group, p, width, want, off) && r <= p
    ensures Span(r, width) <= |group|
    ensures GroupHolds(group[|group| - Span(r, width)..], r, width, want, off + (p - r))
  {
    SpanAdds(p - r, r, width);
    var tail := Part(group, Span(p - r, width), Span(r, width));
    assert tail == group[|group| - Span(r, width)..];
    forall k: nat | k < r ensures Pixel(tail, k, width) == want(off + (p - r) + k) {
      PixelOfPart(group, width, p - r, r, k);
      assert off + (p - r) + k == off + (p - r + k);
    }
  }

  /** The first `r` pixels of a group. */
  lemma HeadHolds<T>(group: seq<T>, p: nat, width: nat, want: nat -> seq<T>, off: nat, r: nat)
    requires |group| == Span(p, width) && r <= p
    requires forall k: nat :: k < r ==> Pixel(group, k, width) == want(off + k)
    ensures Span(r, width) <= |group|
    ensures GroupHolds(group[..Span(r, width)], r, width, want, off)
  {
    SpanOrders(r, p, width);
    forall k: nat | k < r ensures Pixel(group[..Span(r, width)], k, width) == want(off + k) {
      PixelOfPart(group, width, 0, r, k);
      assert Part(group, Span(0, width), Span(r, width)) == group[..Span(r, width)];
    }
  }

  /** A row of at least `p` pixels ends in `p` of them; any other has less than a group's elements. */
  lemma LastGroupPixels<T>(row: seq<T>, n: nat, p: nat, width: nat)
    requires |row| == Span(n, width) && width >= 1
    ensures |row| >= Span(p, width) <==> n >= p
    ensures n >= p ==>
      && Span(n - p, width) + Span(p, width) == |row|
      && row[|row| - Span(p, width)..] == Part(row, Span(n - p, width), Span(p, width))
  {
    if n >= p {
      SpanAdds(n - p, p, width);
    } else {
      SpanOrders(n, p, width);
    }
  }

  /** A group that begins with `part` and goes on with `zero`. */
  method Padded<T>(part: seq<T>, len: nat, zero: T) returns (group: seq<T>)
    requires |part| <= len
    ensures |group| == len && group[..|part|] == part
    ensures forall i :: |part| <= i < len ==> group[i] == zero
  {
    group := part + seq(len - |part|, _ => zero);
  }

  /** The row's own pixels come first in its padded group. */
  lemma PaddedPixel<T>(group: seq<T>, row: seq<T>, n: nat, width: nat, k: nat)
    requires |row| == Span(n, width) <= |group| && group[..|row|] == row && k < n
    ensures Pixel(group, k, width) == Pixel(row, k, width)
  {
    assert Part(group, Span(0, width), Span(n, width)) == row;
    PixelOfPart(group, width, 0, n, k);
  }

  // --- From one row into another

  /** The shape of a step: `p` pixels a group, `a` source and `b` destination elements a pixel. */
  datatype Shape = Shape(p: nat, a: nat, b: nat) {
    predicate Valid() { p >= 1 && a >= 1 && b >= 1 }

    /** A group of it reads `s` elements and writes `d`. */
    ghost predicate Takes(s: nat, d: nat) { Valid() && s == Span(p, a) && d == Span(p, b) }
  }

  /** `out` is `f` of each pixel of `group`. */
  ghost predicate StepsWell<A, B>(out: seq<B>, f: seq<A> -> seq<B>, shape: Shape, group: seq<A>) {
    && |out| == Span(shape.p, shape.b)
    && forall k: nat :: k < shape.p ==> Pixel(out, k, shape.b) == f(Pixel(group, k, shape.a))
  }

  /** Over every group the step gives `f` of each of its pixels. */
  ghost predicate PixelLocal<A(!new), B>(step: seq<A> -> seq<B>, f: seq<A> -> seq<B>, shape: Shape) {
    forall group {:trigger step(group)} :: |group| == Span(shape.p, shape.a) ==> StepsWell(step(group), f, shape, group)
  }

  /** The row's pixels, computed one by one. */
  ghost function Mapped<A, B>(f: seq<A> -> seq<B>, src: seq<A>, a: nat): nat -> seq<B> {
    (i: nat) => f(Pixel(src, i, a))
  }

  /** A step over `p` pixels of the row gives their results. */
  lemma StepHolds<A, B>(out: seq<B>, f: seq<A> -> seq<B>, shape: Shape, src: seq<A>, off: nat, group: seq<A>)
    requires StepsWell(out, f, shape, group) && Span(off, shape.a) + Span(shape.p, shape.a) <= |src|
    requires group == Part(src, Span(off, shape.a), Span(shape.p, shape.a))
    ensures GroupHolds(out, shape.p, shape.b, Mapped(f, src, shape.a), off)
  {
    forall k: nat | k < shape.p ensures Pixel(out, k, shape.b) == Mapped(f, src, shape.a)(off + k) {
      PixelOfPart(src, shape.a, off, shape.p, k);
    }
  }

  /** A step over the last `r` pixels of a row, padded, gives their results first. */
  lemma PaddedHolds<A, B>(out: seq<B>, f: seq<A> -> seq<B>, shape: Shape, row: seq<A>, off: nat, r: nat,
                          part: seq<A>, group: seq<A>)
    requires StepsWell(out, f, shape, group) && r <= shape.p && Span(off, shape.a) + Span(r, shape.a) <= |row|
    requires part == Part(row, Span(off, shape.a), Span(r, shape.a))
    requires |part| <= |group| && group[..|part|] == part
    ensures Span(r, shape.b) <= |out| && GroupHolds(out[..Span(r, shape.b)], r, shape.b, Mapped(f, row, shape.a), off)
  {
    forall k: nat | k < r ensures Pixel(out, k, shape.b) == Mapped(f, row, shape.a)(off + k) {
      PaddedPixel(group, part, r, shape.a, k);
      PixelOfPart(row, shape.a, off, r, k);
    }
    HeadHolds(out, shape.p, shape.b, Mapped(f, row, shape.a), off, r);
  }

  /** `step` over the `p` pixels of a row from pixel `off` on. */
  method StepGroup<A(!new), B>(step: seq<A> -> seq<B>, group: seq<A>,
                               ghost f: seq<A> -> seq<B>, ghost shape: Shape, ghost row: seq<A>, ghost off: nat)
    returns (values: seq<B>)
    requires PixelLocal(step, f, shape) && Span(off, shape.a) + Span(shape.p, shape.a) <= |row|
    requires group == Part(row, Span(off, shape.a), Span(shape.p, shape.a))
    ensures GroupHolds(values, shape.p, shape.b, Mapped(f, row, shape.a), off)
  {
    values := step(group);
    StepHolds(values, f, shape, row, off, group);
  }

  /** `step` over the `r` pixels of a row from pixel `off` on, fewer than a group, padded: the `rest`
      elements of their results. */
  method StepPadded<A(!new), B>(step: seq<A> -> seq<B>, s: nat, part: seq<A>, rest: nat, zero: A,
                                ghost f: seq<A> -> seq<B>, ghost shape: Shape, ghost row: seq<A>, ghost off: nat,
                                ghost r: nat)
    returns (values: seq<B>)
    requires s == Span(shape.p, shape.a) && PixelLocal(step, f, shape) && r <= shape.p
    requires Span(off, shape.a) + Span(r, shape.a) <= |row| && rest == Span(r, shape.b)
    requires part == Part(row, Span(off, shape.a), Span(r, shape.a))
    ensures GroupHolds(values, r, shape.b, Mapped(f, row, shape.a), off)
  {
    SpanOrders(r, shape.p, shape.a);
    var group := Padded(part, s, zero);
    var out := step(group);
    PaddedHolds(out, f, shape, row, off, r, part, group);
    values := out[..rest];
  }

  /** The groups that fit give the first `off` pixels of `dst`, in its first `filled` elements. */
  method RunGroups<A(!new), B>(step: seq<A> -> seq<B>, s: nat, d: nat, src: seq<A>, dst: array<B>,
                               ghost f: seq<A> -> seq<B>, ghost shape: Shape, ghost n: nat)
    returns (filled: nat, ghost off: nat, ghost stores: seq<nat>)
    requires shape.Takes(s, d) && PixelLocal(step, f, shape)
    requires |src| == Span(n, shape.a) && dst.Length == Span(n, shape.b)
    modifies dst
    ensures off <= n < off + shape.p && (n < shape.p ==> off == 0)
    ensures filled == Span(off, shape.b) && Holds(dst[..], shape.b, Mapped(f, src, shape.a), off)
    ensures StoredTo(stores, dst.Length, filled)
  {
    var at := 0;
    filled, off, stores := 0, 0, seq(dst.Length, _ => 0);
    SpanOrders(1, shape.p, shape.a);
    while at + s <= |src| && filled + d <= dst.Length
      invariant off <= n && at == Span(off, shape.a) && filled == Span(off, shape.b)
      invariant n < shape.p ==> off == 0
      invariant Holds(dst[..], shape.b, Mapped(f, src, shape.a), off) && StoredTo(stores, dst.Length, filled)
      decreases |src| - at
    {
      GroupFits(n, off, shape.p, shape.a);
      SpanAdds(off, shape.p, shape.a);
      var values := StepGroup(step, src[at..at + s], f, shape, src, off);
      stores := Place(dst, values, stores, filled, shape.b, Mapped(f, src, shape.a), off, shape.p);
      at, filled, off := at + s, filled + d, off + shape.p;
    }
    GroupFits(n, off, shape.p, shape.a);
    GroupFits(n, off, shape.p, shape.b);
  }

  /** Another whole group fits where the pixels left are enough. */
  lemma GroupFits(n: nat, off: nat, p: nat, width: nat)
    requires width >= 1
    ensures Span(off, width) + Span(p, width) <= Span(n, width) <==> off + p <= n
  {
    SpanAdds(off, p, width);
    if off + p <= n {
      SpanOrders(off + p, n, width);
    } else {
      SpanOrders(n, off + p, width);
    }
  }

  /** The results still missing from pixel `off` on: a row that has a group to step over takes its last `p`
      pixels, some of them stepped before, and any other is made up to a group. */
  method LastGroup<A(!new), B>(step: seq<A> -> seq<B>, s: nat, d: nat, src: seq<A>, rest: nat, zero: A,
                               ghost f: seq<A> -> seq<B>, ghost shape: Shape, ghost n: nat, ghost off: nat)
    returns (values: seq<B>)
    requires shape.Takes(s, d) && PixelLocal(step, f, shape) && |src| == Span(n, shape.a)
    requires off <= n < off + shape.p && (n < shape.p ==> off == 0) && rest == Span(n - off, shape.b)
    ensures GroupHolds(values, n - off, shape.b, Mapped(f, src, shape.a), off)
  {
    LastGroupPixels(src, n, shape.p, shape.a);
    if |src| >= s {
      var out := StepGroup(step, src[|src| - s..], f, shape, src, n - shape.p);
      TailHolds(out, shape.p, shape.b, Mapped(f, src, shape.a), n - shape.p, n - off);
      values := out[d - rest..];
    } else {
      values := StepPadded(step, s, src, rest, zero, f, shape, src, 0, n);
    }
  }

  /** Every pixel of `dst` is `f` of the pixel of `src` at its place, for any number of pixels and any two pixel
      widths, and every element of `dst` is stored once. */
  method RunRow<A(!new), B>(step: seq<A> -> seq<B>, s: nat, d: nat, src: seq<A>, dst: array<B>, zero: A,
                            ghost f: seq<A> -> seq<B>, ghost shape: Shape, ghost n: nat)
    returns (ghost stores: seq<nat>)
    requires shape.Takes(s, d) && PixelLocal(step, f, shape)
    requires |src| == n * shape.a && dst.Length == n * shape.b
    modifies dst
    ensures forall i: nat :: i < n ==> Pixel(dst[..], i, shape.b) == f(Pixel(src, i, shape.a))
    ensures StoredTo(stores, dst.Length, dst.Length)
  {
    ghost var off, want := 0, Mapped(f, src, shape.a);
    SpanIsProduct(n, shape.a);
    SpanIsProduct(n, shape.b);
    var filled;
    filled, off, stores := RunGroups(step, s, d, src, dst, f, shape, n);
    SpanAdds(off, n - off, shape.b);
    var rest := dst.Length - filled;
    if rest != 0 {
      var values := LastGroup(step, s, d, src, rest, zero, f, shape, n, off);
      stores := Place(dst, values, stores, filled, shape.b, want, off, n - off);
    } else {
      SpanOrders(off, n, shape.b);
    }
    assert Holds(dst[..], shape.b, want, n);
    assert forall i: nat :: i < n ==> Pixel(dst[..], i, shape.b) == want(i);
  }

  // --- In place

  lemma SameGroup<T>(row: seq<T>, was: seq<T>, at: nat, len: nat)
    requires |row| == |was| && at + len <= |row| && forall i :: at <= i < |row| ==> row[i] == was[i]
    ensures row[at..at + len] == Part(was, at, len)
  {}

  /** The groups that fit, each replaced by its results; what lies past them stands. */
  method StepGroups<T(!new)>(step: seq<T> -> seq<T>, s: nat, row: array<T>,
                             ghost f: seq<T> -> seq<T>, ghost shape: Shape, ghost n: nat)
    returns (filled: nat, ghost off: nat, ghost stores: seq<nat>)
    requires shape.Takes(s, s) && shape.a == shape.b && PixelLocal(step, f, shape) && row.Length == Span(n, shape.a)
    modifies row
    ensures off <= n < off + shape.p && filled == Span(off, shape.a) <= row.Length
    ensures Holds(row[..], shape.a, Mapped(f, old(row[..]), shape.a), off)
    ensures forall i :: filled <= i < row.Length ==> row[i] == old(row[i])
    ensures StoredTo(stores, row.Length, filled)
  {
    ghost var was := row[..];
    filled, off, stores := 0, 0, seq(row.Length, _ => 0);
    SpanOrders(1, shape.p, shape.a);
    while filled + s <= row.Length
      invariant off <= n && filled == Span(off, shape.a) <= row.Length
      invariant Holds(row[..], shape.a, Mapped(f, was, shape.a), off) && StoredTo(stores, row.Length, filled)
      invariant forall i :: filled <= i < row.Length ==> row[i] == was[i]
      decreases row.Length - filled
    {
      GroupFits(n, off, shape.p, shape.a);
      var group := row[filled..filled + s];
      SameGroup(row[..], was, filled, s);
      var values := StepGroup(step, group, f, shape, was, off);
      SpanAdds(off, shape.p, shape.a);
      stores := Place(row, values, stores, filled, shape.a, Mapped(f, was, shape.a), off, shape.p);
      filled, off := filled + s, off + shape.p;
    }
    GroupFits(n, off, shape.p, shape.a);
  }

  /** Every pixel of the row becomes `f` of what it was, stepped once, and every element is stored once. */
  method InPlace<T(!new)>(step: seq<T> -> seq<T>, s: nat, row: array<T>, zero: T,
                          ghost f: seq<T> -> seq<T>, ghost shape: Shape, ghost n: nat)
    returns (ghost stores: seq<nat>)
    requires shape.Takes(s, s) && shape.a == shape.b && PixelLocal(step, f, shape) && row.Length == n * shape.a
    modifies row
    ensures forall i: nat :: i < n ==> Pixel(row[..], i, shape.a) == f(Pixel(old(row[..]), i, shape.a))
    ensures StoredTo(stores, row.Length, row.Length)
  {
    ghost var was, want, off := row[..], Mapped(f, row[..], shape.a), 0;
    SpanIsProduct(n, shape.a);
    var filled;
    filled, off, stores := StepGroups(step, s, row, f, shape, n);
    SpanAdds(off, n - off, shape.a);
    SpanOrders(n - off, shape.p, shape.a);
    if filled != row.Length {
      assert row[filled..] == was[filled..];
      var values := StepPadded(step, s, row[filled..], row.Length - filled, zero, f, shape, was, off, n - off);
      stores := Place(row, values, stores, filled, shape.a, want, off, n - off);
    } else {
      SpanOrders(off, n, shape.a);
    }
    assert Holds(row[..], shape.a, want, n);
    assert forall i: nat :: i < n ==> Pixel(row[..], i, shape.a) == want(i);
  }

  // --- From no row

  /** A step that gives group number `g` from its number, each pixel a function of its own place. */
  ghost predicate PlaceLocal<T>(step: nat -> seq<T>, f: nat -> seq<T>, p: nat, width: nat) {
    forall g: nat :: GroupHolds(step(g), p, width, f, Span(g, p))
  }

  /** The whole groups of a row, by number: `g` of them fill it up to the partial one. */
  method FillGroups<T>(step: nat -> seq<T>, s: nat, row: array<T>,
                       ghost f: nat -> seq<T>, ghost p: nat, ghost width: nat, ghost n: nat)
    returns (filled: nat, g: nat, ghost off: nat, ghost stores: seq<nat>)
    requires p >= 1 && width >= 1 && s == Span(p, width) && PlaceLocal(step, f, p, width)
    requires row.Length == Span(n, width)
    modifies row
    ensures off == Span(g, p) <= n < off + p && filled == Span(off, width) <= row.Length
    ensures Holds(row[..], width, f, off) && StoredTo(stores, row.Length, filled)
  {
    filled, g, off, stores := 0, 0, 0, seq(row.Length, _ => 0);
    SpanOrders(1, p, width);
    while filled + s <= row.Length
      invariant off == Span(g, p) <= n && filled == Span(off, width) <= row.Length
      invariant Holds(row[..], width, f, off) && StoredTo(stores, row.Length, filled)
      decreases row.Length - filled
    {
      GroupFits(n, off, p, width);
      assert GroupHolds(step(g), p, width, f, off);
      stores := Place(row, step(g), stores, filled, width, f, off, p);
      filled, g, off := filled + s, g + 1, off + p;
    }
    GroupFits(n, off, p, width);
  }

  /** Every pixel of the row is `f` of its place, and every element is stored once. */
  method Fill<T>(step: nat -> seq<T>, s: nat, row: array<T>,
                 ghost f: nat -> seq<T>, ghost p: nat, ghost width: nat, ghost n: nat)
    returns (ghost stores: seq<nat>)
    requires p >= 1 && width >= 1 && s == Span(p, width) && PlaceLocal(step, f, p, width)
    requires row.Length == n * width
    modifies row
    ensures forall i: nat :: i < n ==> Pixel(row[..], i, width) == f(i)
    ensures StoredTo(stores, row.Length, row.Length)
  {
    SpanIsProduct(n, width);
    var filled, whole;
    ghost var off;
    filled, whole, off, stores := FillGroups(step, s, row, f, p, width, n);
    SpanAdds(off, n - off, width);
    var rest := row.Length - filled;
    if rest != 0 {
      assert GroupHolds(step(whole), p, width, f, off);
      HeadHolds(step(whole), p, width, f, off, n - off);
      stores := Place(row, step(whole)[..rest], stores, filled, width, f, off, n - off);
    } else {
      SpanOrders(off, n, width);
    }
    assert Holds(row[..], width, f, n);
  }

  // --- From two rows

  /** A step over two groups gives each pixel from the two at its place. */
  ghost predicate PairsWell<T>(out: seq<T>, f: (seq<T>, seq<T>) -> seq<T>, p: nat, width: nat, g: seq<T>, h: seq<T>) {
    && |out| == Span(p, width)
    && forall k: nat :: k < p ==> Pixel(out, k, width) == f(Pixel(g, k, width), Pixel(h, k, width))
  }

  ghost predicate PairLocal<T(!new)>(step: (seq<T>, seq<T>) -> seq<T>, f: (seq<T>, seq<T>) -> seq<T>, p: nat,
                                     width: nat)
  {
    forall g, h {:trigger step(g, h)} :: |g| == |h| == Span(p, width) ==> PairsWell(step(g, h), f, p, width, g, h)
  }

  ghost function Paired<T>(f: (seq<T>, seq<T>) -> seq<T>, src: seq<T>, dst: seq<T>, width: nat): nat -> seq<T> {
    (i: nat) => f(Pixel(src, i, width), Pixel(dst, i, width))
  }

  lemma PairHolds<T>(out: seq<T>, f: (seq<T>, seq<T>) -> seq<T>, p: nat, width: nat,
                     src: seq<T>, dst: seq<T>, off: nat, g: seq<T>, h: seq<T>)
    requires PairsWell(out, f, p, width, g, h) && |src| == |dst| && Span(off, width) + Span(p, width) <= |src|
    requires g == Part(src, Span(off, width), Span(p, width))
    requires h == Part(dst, Span(off, width), Span(p, width))
    ensures GroupHolds(out, p, width, Paired(f, src, dst, width), off)
  {
    forall k: nat | k < p ensures Pixel(out, k, width) == Paired(f, src, dst, width)(off + k) {
      PixelOfPart(src, width, off, p, k);
      PixelOfPart(dst, width, off, p, k);
    }
  }

  lemma PairPaddedHolds<T>(out: seq<T>, f: (seq<T>, seq<T>) -> seq<T>, p: nat, width: nat,
                           src: seq<T>, dst: seq<T>, n: nat, g: seq<T>, h: seq<T>)
    requires PairsWell(out, f, p, width, g, h) && |src| == |dst| == Span(n, width) <= |g| == |h| && n <= p
    requires g[..|src|] == src && h[..|src|] == dst
    ensures Span(n, width) <= |out| && GroupHolds(out[..|src|], n, width, Paired(f, src, dst, width), 0)
  {
    forall k: nat | k < n ensures Pixel(out, k, width) == Paired(f, src, dst, width)(0 + k) {
      PaddedPixel(g, src, n, width, k);
      PaddedPixel(h, dst, n, width, k);
    }
    HeadHolds(out, p, width, Paired(f, src, dst, width), 0, n);
  }

  /** `step` over the group of each row from `at` on. */
  method StepPair<T(!new)>(step: (seq<T>, seq<T>) -> seq<T>, s: nat, src: seq<T>, dst: seq<T>, at: nat,
                           ghost f: (seq<T>, seq<T>) -> seq<T>, ghost p: nat, ghost width: nat, ghost off: nat)
    returns (values: seq<T>)
    requires s == Span(p, width) && PairLocal(step, f, p, width)
    requires |src| == |dst| && at == Span(off, width) && at + s <= |src|
    ensures GroupHolds(values, p, width, Paired(f, src, dst, width), off)
  {
    var group, other := src[at..at + s], dst[at..at + s];
    values := step(group, other);
    PairHolds(values, f, p, width, src, dst, off, group, other);
  }

  method ZipGroups<T(!new)>(step: (seq<T>, seq<T>) -> seq<T>, s: nat, src: seq<T>, dst: seq<T>, out: array<T>,
                            ghost f: (seq<T>, seq<T>) -> seq<T>, ghost p: nat, ghost width: nat, ghost n: nat)
    returns (filled: nat, ghost off: nat, ghost stores: seq<nat>)
    requires p >= 1 && width >= 1 && s == Span(p, width) && PairLocal(step, f, p, width)
    requires |src| == |dst| == out.Length == Span(n, width)
    modifies out
    ensures off <= n < off + p && (n < p ==> off == 0) && filled == Span(off, width) <= out.Length
    ensures Holds(out[..], width, Paired(f, src, dst, width), off) && StoredTo(stores, out.Length, filled)
  {
    filled, off, stores := 0, 0, seq(out.Length, _ => 0);
    SpanOrders(1, p, width);
    while filled + s <= out.Length
      invariant off <= n && filled == Span(off, width) <= out.Length && (n < p ==> off == 0)
      invariant Holds(out[..], width, Paired(f, src, dst, width), off) && StoredTo(stores, out.Length, filled)
      decreases out.Length - filled
    {
      GroupFits(n, off, p, width);
      var values := StepPair(step, s, src, dst, filled, f, p, width, off);
      stores := Place(out, values, stores, filled, width, Paired(f, src, dst, width), off, p);
      filled, off := filled + s, off + p;
    }
    GroupFits(n, off, p, width);
  }

  method ZipLast<T(!new)>(step: (seq<T>, seq<T>) -> seq<T>, s: nat, src: seq<T>, dst: seq<T>, rest: nat, zero: T,
                          ghost f: (seq<T>, seq<T>) -> seq<T>, ghost p: nat, ghost width: nat, ghost n: nat,
                          ghost off: nat)
    returns (values: seq<T>)
    requires p >= 1 && width >= 1 && s == Span(p, width) && PairLocal(step, f, p, width)
    requires |src| == |dst| == Span(n, width)
    requires off <= n < off + p && (n < p ==> off == 0) && rest == Span(n - off, width)
    ensures GroupHolds(values, n - off, width, Paired(f, src, dst, width), off)
  {
    LastGroupPixels(src, n, p, width);
    if |src| >= s {
      var out := StepPair(step, s, src, dst, |src| - s, f, p, width, n - p);
      TailHolds(out, p, width, Paired(f, src, dst, width), n - p, n - off);
      values := out[s - rest..];
    } else {
      var group := Padded(src, s, zero);
      var other := Padded(dst, s, zero);
      var out := step(group, other);
      PairPaddedHolds(out, f, p, width, src, dst, n, group, other);
      values := out[..rest];
    }
  }

  /** Every pixel of `out` is `f` of the two pixels at its place, and every element is stored once. */
  method Zip<T(!new)>(step: (seq<T>, seq<T>) -> seq<T>, s: nat, src: seq<T>, dst: seq<T>, out: array<T>, zero: T,
                      ghost f: (seq<T>, seq<T>) -> seq<T>, ghost p: nat, ghost width: nat, ghost n: nat)
    returns (ghost stores: seq<nat>)
    requires p >= 1 && width >= 1 && s == Span(p, width) && PairLocal(step, f, p, width)
    requires |src| == |dst| == out.Length == n * width
    modifies out
    ensures forall i: nat :: i < n ==> Pixel(out[..], i, width) == f(Pixel(src, i, width), Pixel(dst, i, width))
    ensures StoredTo(stores, out.Length, out.Length)
  {
    ghost var off, want := 0, Paired(f, src, dst, width);
    SpanIsProduct(n, width);
    var filled;
    filled, off, stores := ZipGroups(step, s, src, dst, out, f, p, width, n);
    SpanAdds(off, n - off, width);
    var rest := out.Length - filled;
    if rest != 0 {
      var values := ZipLast(step, s, src, dst, rest, zero, f, p, width, n, off);
      stores := Place(out, values, stores, filled, width, want, off, n - off);
    } else {
      SpanOrders(off, n, width);
    }
    assert Holds(out[..], width, want, n);
    assert forall i: nat :: i < n ==> Pixel(out[..], i, width) == want(i);
  }
}
