/** An image's pixels as channel planes and back, each way the other's inverse; the planes are written a row of
    pixels at a time, whichever rows come first. */
module Buffers {
  import opened Wrappers
  import opened RowGroups

  /** A buffer of `width` by `height` values, row by row. */
  datatype Buffer<T> = Buffer(width: nat, height: nat, values: seq<T>) {
    ghost predicate Valid() { |values| == Span(height, width) }

    predicate SameSize<U>(that: Buffer<U>) { width == that.width && height == that.height }
  }

  // --- Pixels and planes

  /** Every pixel has `n` channels, or more. */
  ghost predicate Wide<T>(pixels: seq<seq<T>>, n: nat) { forall i :: 0 <= i < |pixels| ==> n <= |pixels[i]| }

  /** The buffers that are planes of one image. */
  ghost predicate OneSize<T>(planes: seq<Buffer<T>>) {
    && (forall c :: 0 <= c < |planes| ==> planes[c].Valid())
    && (forall b, c :: 0 <= b < |planes| && 0 <= c < |planes| ==> planes[b].SameSize(planes[c]))
  }

  /** Channel `c` of every pixel. */
  function Channel<T, U>(pixels: seq<seq<T>>, c: nat, sample: T -> U): (values: seq<U>)
    requires forall i :: 0 <= i < |pixels| ==> c < |pixels[i]|
    ensures |values| == |pixels| && forall i :: 0 <= i < |pixels| ==> values[i] == sample(pixels[i][c])
  {
    seq(|pixels|, (i: nat) requires i < |pixels| => sample(pixels[i][c]))
  }

  /** The planes of the first `count` channels. */
  ghost predicate PlanesOf<T, U>(planes: seq<Buffer<U>>, buffer: Buffer<seq<T>>, count: nat, sample: T -> U) {
    && |planes| == count && Wide(buffer.values, count)
    && forall c: nat :: c < count ==>
         planes[c] == Buffer(buffer.width, buffer.height, Channel(buffer.values, c, sample))
  }

  /** Value `i` of every plane. */
  function PixelAt<T>(planes: seq<Buffer<T>>, i: nat): (pixel: seq<T>)
    requires forall c :: 0 <= c < |planes| ==> i < |planes[c].values|
    ensures |pixel| == |planes| && forall c :: 0 <= c < |planes| ==> pixel[c] == planes[c].values[i]
  {
    seq(|planes|, (c: nat) requires c < |planes| => planes[c].values[i])
  }

  /** The pixels of the planes. */
  ghost predicate PixelsOf<T>(buffer: Buffer<seq<T>>, planes: seq<Buffer<T>>) {
    && planes != [] && OneSize(planes) && buffer.SameSize(planes[0]) && buffer.Valid()
    && forall i: nat :: i < |buffer.values| ==> buffer.values[i] == PixelAt(planes, i)
  }

  // --- Interleaving

  /** The planes' pixels; planes of different sizes are refused. */
  method Interleave<T>(planes: seq<Buffer<T>>) returns (result: Option<Buffer<seq<T>>>)
    requires planes != [] && forall c :: 0 <= c < |planes| ==> planes[c].Valid()
    ensures result.Some? <==> OneSize(planes)
    ensures result.Some? ==> PixelsOf(result.value, planes)
  {
    for c := 0 to |planes|
      invariant forall b :: 0 <= b < c ==> planes[b].SameSize(planes[0])
    {
      if !planes[c].SameSize(planes[0]) {
        return None;
      }
    }
    var count := |planes[0].values|;
    var pixels := seq(count, (i: nat) requires i < count => PixelAt(planes, i));
    result := Some(Buffer(planes[0].width, planes[0].height, pixels));
  }

  // --- One pass over the rows

  /** Value `i` is in row `r`. */
  ghost predicate InRow(i: nat, r: nat, width: nat) { Span(r, width) <= i < Span(r, width) + width }

  lemma RowsApart(i: nat, r: nat, s: nat, width: nat)
    requires InRow(i, r, width) && InRow(i, s, width)
    ensures r == s
  {
    if r < s {
      SpanOrders(r, s, width);
    } else if s < r {
      SpanOrders(s, r, width);
    }
  }

  lemma {:induction false} RowOf(i: nat, height: nat, width: nat) returns (r: nat)
    requires i < Span(height, width)
    ensures r < height && InRow(i, r, width)
  {
    if i < Span(height - 1, width) {
      r := RowOf(i, height - 1, width);
    } else {
      r := height - 1;
    }
  }

  /** The rows in `left` aside, every plane holds its channel. */
  ghost predicate Written<T, U>(planes: array2<U>, pixels: seq<seq<T>>, sample: T -> U, width: nat, height: nat,
                                left: set<nat>)
    requires planes.Length1 == |pixels| && Wide(pixels, planes.Length0)
    reads planes
  {
    forall r: nat, c: nat, i: nat ::
      r < height && r !in left && i < |pixels| && InRow(i, r, width) && c < planes.Length0 ==>
      planes[c, i] == sample(pixels[i][c])
  }

  /** One row of pixels into every plane. */
  method WriteRow<T, U>(planes: array2<U>, pixels: seq<seq<T>>, sample: T -> U, at: nat, width: nat,
                        ghost row: nat, ghost height: nat, ghost left: set<nat>)
    requires planes.Length1 == |pixels| && Wide(pixels, planes.Length0)
    requires at == Span(row, width) && at + width <= |pixels| && Written(planes, pixels, sample, width, height, left)
    modifies planes
    ensures Written(planes, pixels, sample, width, height, left - {row})
    ensures forall c: nat, i: nat :: c < planes.Length0 && i < |pixels| && !InRow(i, row, width) ==>
      planes[c, i] == old(planes[c, i])
  {
    for x := 0 to width
      invariant forall c: nat, i: nat :: c < planes.Length0 && i < |pixels| ==>
        planes[c, i] == if at <= i < at + x then sample(pixels[i][c]) else old(planes[c, i])
    {
      var pixel := pixels[at + x];
      for c := 0 to planes.Length0
        invariant forall d: nat, i: nat :: d < planes.Length0 && i < |pixels| ==>
          planes[d, i] ==
            if at <= i < at + x || (i == at + x && d < c) then sample(pixels[i][d]) else old(planes[d, i])
      {
        planes[c, at + x] := sample(pixel[c]);
      }
    }
    forall r: nat, i: nat | r !in left && InRow(i, r, width) && InRow(i, row, width) ensures r == row {
      RowsApart(i, r, row, width);
    }
  }

  lemma {:induction false} RowsAreWide(height: nat, width: nat)
    ensures Span(height, width) > 0 ==> width > 0
  {
    if height > 0 {
      RowsAreWide(height - 1, width);
    }
  }

  /** Where each row starts, one for every row of an image that has pixels. */
  method RowStarts(width: nat, height: nat, count: nat) returns (starts: map<nat, nat>)
    requires count == Span(height, width) && count > 0
    ensures forall r: nat :: r in starts <==> r < height
    ensures forall r {:trigger starts[r]} :: r in starts ==>
      starts[r] == Span(r, width) && Span(r, width) + width <= count
  {
    starts := map[];
    var at := 0;
    RowsAreWide(height, width);
    for row := 0 to height
      invariant at == Span(row, width) && forall r: nat :: r in starts <==> r < row
      invariant forall r {:trigger starts[r]} :: r in starts ==>
        starts[r] == Span(r, width) && Span(r, width) + width <= count
    {
      SpanOrders(row, height, width);
      assert at < count;
      starts, at := starts[row := at], at + width;
    }
  }

  /** Every row into every plane, in any order. */
  method WriteRows<T, U>(planes: array2<U>, pixels: seq<seq<T>>, sample: T -> U, width: nat, height: nat)
    requires planes.Length1 == |pixels| == Span(height, width) && |pixels| > 0 && Wide(pixels, planes.Length0)
    modifies planes
    ensures forall c: nat, i: nat :: c < planes.Length0 && i < |pixels| ==> planes[c, i] == sample(pixels[i][c])
  {
    var starts := RowStarts(width, height, |pixels|);
    var left := starts.Keys;
    assert forall r: nat :: r < height ==> r in left;
    while left != {}
      invariant left <= starts.Keys && Written(planes, pixels, sample, width, height, left)
      decreases left
    {
      var row :| row in left;
      WriteRow(planes, pixels, sample, starts[row], width, row, height, left);
      left := left - {row};
    }
    forall c: nat, i: nat | c < planes.Length0 && i < |pixels| ensures planes[c, i] == sample(pixels[i][c]) {
      var r := RowOf(i, height, width);
    }
  }

  /** Plane `c`, read off. */
  method PlaneValues<U>(planes: array2<U>, c: nat) returns (values: seq<U>)
    requires c < planes.Length0
    ensures |values| == planes.Length1 && forall i :: 0 <= i < |values| ==> values[i] == planes[c, i]
  {
    values := [];
    for i := 0 to planes.Length1
      invariant |values| == i && forall j :: 0 <= j < i ==> values[j] == planes[c, j]
    {
      values := values + [planes[c, i]];
    }
  }

  /** The first `count` channels of an image as planes, each value through `sample`. */
  method ChannelPlanes<T, U>(buffer: Buffer<seq<T>>, count: nat, sample: T -> U, zero: U)
    returns (planes: seq<Buffer<U>>)
    requires buffer.Valid() && Wide(buffer.values, count)
    ensures PlanesOf(planes, buffer, count, sample)
  {
    var pixels, width, height := buffer.values, buffer.width, buffer.height;
    if pixels == [] {
      return seq(count, _ => Buffer(width, height, []));
    }
    var written := new U[count, |pixels|]((_, _) => zero);
    WriteRows(written, pixels, sample, width, height);
    planes := [];
    for c := 0 to count
      modifies {}
      invariant |planes| == c
      invariant forall b: nat :: b < c ==> planes[b] == Buffer(width, height, Channel(pixels, b, sample))
    {
      var values := PlaneValues(written, c);
      forall i: nat | i < |values| ensures values[i] == sample(pixels[i][c]) {
        assert values[i] == written[c, i];
      }
      assert values == Channel(pixels, c, sample);
      planes := planes + [Buffer(width, height, values)];
    }
  }

  /** The planes of an image of `n` channels, keeping the values of one. */
  method IntoPlanes<T>(buffer: Buffer<seq<T>>, n: nat, zero: T) returns (planes: seq<Buffer<T>>)
    requires n >= 1 && buffer.Valid() && forall i :: 0 <= i < |buffer.values| ==> |buffer.values[i]| == n
    ensures PlanesOf(planes, buffer, n, (value: T) => value)
  {
    if n > 1 {
      planes := ChannelPlanes(buffer, n, (value: T) => value, zero);
    } else {
      var flat := Flattened(buffer.values);
      assert flat == Channel(buffer.values, 0, (value: T) => value);
      planes := [Buffer(buffer.width, buffer.height, flat)];
    }
  }

  /** One-channel pixels' values, end to end. */
  function Flattened<T>(pixels: seq<seq<T>>): (flat: seq<T>)
    requires forall i :: 0 <= i < |pixels| ==> |pixels[i]| == 1
    ensures |flat| == |pixels| && forall i :: 0 <= i < |pixels| ==> flat[i] == pixels[i][0]
  {
    if pixels == [] then [] else pixels[0] + Flattened(pixels[1..])
  }

  // --- Each undoes the other

  /** The planes of the planes' pixels are the planes. */
  lemma PlanesOfPixels<T>(planes: seq<Buffer<T>>, buffer: Buffer<seq<T>>, again: seq<Buffer<T>>)
    requires PixelsOf(buffer, planes)
    requires PlanesOf(again, buffer, |planes|, (value: T) => value)
    ensures again == planes
  {
    forall c: nat | c < |planes| ensures again[c] == planes[c] {
      assert planes[c].SameSize(planes[0]);
      assert again[c].values == planes[c].values;
    }
  }

  /** The pixels of an image's planes are its pixels. */
  lemma PixelsOfPlanes<T>(buffer: Buffer<seq<T>>, n: nat, planes: seq<Buffer<T>>, again: Buffer<seq<T>>)
    requires n >= 1 && buffer.Valid() && forall i :: 0 <= i < |buffer.values| ==> |buffer.values[i]| == n
    requires PlanesOf(planes, buffer, n, (value: T) => value) && PixelsOf(again, planes)
    ensures again == buffer
  {
    forall i: nat | i < |buffer.values| ensures again.values[i] == buffer.values[i] {
      assert forall c: nat :: c < n ==> planes[c].values[i] == buffer.values[i][c];
    }
    assert planes[0].SameSize(buffer);
    assert again.values == buffer.values;
  }
}
