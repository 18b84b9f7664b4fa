/**
 * `ScrollingBuffer`, the ring buffer behind the GUI's plots: at most `MaxSize` points, appended
 * until full and then overwritten oldest first, with `Offset` marking the oldest point. The
 * once-a-second clock that triggers `calculate_max` is the `recalculate` parameter of `AddPoint`.
 */
module Plots {
  import opened Wrappers

  /** `ImVec2`: the float coordinates are reals. */
  datatype Point = Point(x: real, y: real)

  /** The default of the `max_size` constructor argument. */
  const DefaultMaxSize := 750

  /** The last `n` elements of `s` (all of it when it is shorter). */
  function Last<T>(s: seq<T>, n: nat): (r: seq<T>)
    ensures |r| == if |s| <= n then |s| else n
    ensures r == s[|s| - |r|..]
  {
    if |s| <= n then s else s[|s| - n..]
  }

  /** Keeping the last `n` after each append is keeping the last `n` of everything appended. */
  lemma LastOfLast<T>(s: seq<T>, p: T, n: nat)
    ensures Last(Last(s, n) + [p], n) == Last(s + [p], n)
  {
    if |s| > n > 0 {
      var t := Last(s, n);
      var u := s[|s| - n + 1..] + [p];
      assert t == s[|s| - n..];
      assert Last(t + [p], n) == u by {
        assert Last(t + [p], n) == (t + [p])[1..];
      }
      assert Last(s + [p], n) == u by {
        assert Last(s + [p], n) == (s + [p])[|s| + 1 - n..];
      }
    }
  }

  /** The points in the order they were added: from `Offset` to the end, then the start. */
  function Window(data: seq<Point>, offset: nat): (w: seq<Point>)
    requires offset <= |data|
    ensures |w| == |data|
  {
    data[offset..] + data[..offset]
  }

  /** The `i`-th oldest point sits `i` places after `Offset`, counting round the end. */
  lemma WindowAt(data: seq<Point>, offset: nat, i: nat)
    requires offset <= |data| && i < |data|
    ensures offset + i < |data| ==> Window(data, offset)[i] == data[offset + i]
    ensures offset + i >= |data| ==> Window(data, offset)[i] == data[offset + i - |data|]
  {
  }

  /** Overwriting the oldest point of a full buffer drops it and puts the new point last. */
  lemma OverwriteOldest(data: seq<Point>, o: nat, p: Point)
    requires o < |data|
    ensures Window(data[o := p], (o + 1) % |data|) == Window(data, o)[1..] + [p]
  {
    var d := data[o := p];
    var w := Window(data, o);
    assert w == [data[o]] + data[o + 1..] + data[..o];
    assert w[1..] == data[o + 1..] + data[..o];
    if o + 1 < |data| {
      assert (o + 1) % |data| == o + 1;
      assert d[o + 1..] == data[o + 1..];
      assert d[..o + 1] == data[..o] + [p];
    } else {
      assert (o + 1) % |data| == 0;
      assert d[0..] + d[..0] == d;
      assert d == data[..o] + [p];
    }
  }

  /** `calculate_max`: zero, raised to every larger `y`. */
  function MaxY(points: seq<Point>): (m: real)
    ensures m >= 0.0
    ensures forall i :: 0 <= i < |points| ==> points[i].y <= m
    ensures m == 0.0 || exists i :: 0 <= i < |points| && points[i].y == m
  {
    if points == [] then 0.0
    else
      var front := MaxY(points[..|points| - 1]);
      var last := points[|points| - 1].y;
      if last > front then last
      else
        assert forall i :: 0 <= i < |points| - 1 ==> points[..|points| - 1][i] == points[i];
        front
  }

  class ScrollingBuffer {
    /** `MaxValue`: `None` until the first `calculate_max` gives it a value. */
    var maxValue: Option<real>
    const maxSize: int
    var offset: int
    var data: seq<Point>

    /** The buffer is usable: a positive capacity, never exceeded, and `Offset` inside it. */
    predicate Valid()
      reads this
    {
      && 0 < maxSize
      && |data| <= maxSize
      && 0 <= offset < maxSize
      && offset <= |data|
      && (|data| < maxSize ==> offset == 0)
    }

    /** The points, oldest first. */
    function Points(): seq<Point>
      requires Valid()
      reads this
    {
      Window(data, offset)
    }

    constructor (maxSize: int)
      ensures this.maxSize == maxSize && offset == 0 && data == [] && maxValue == None
      ensures 0 < maxSize ==> Valid()
    {
      this.maxSize := maxSize;
      offset := 0;
      data := [];
      maxValue := None;
    }

    /**
     * `AddPoint`: appends below capacity, otherwise overwrites the oldest point and moves
     * `Offset` on by one, wrapping at `MaxSize`; then, when the clock says so, `calculate_max`.
     */
    method AddPoint(x: real, y: real, recalculate: bool)
      requires Valid()
      modifies this
      ensures Valid()
      ensures old(|data|) < maxSize ==> data == old(data) + [Point(x, y)] && offset == old(offset)
      ensures old(|data|) == maxSize ==>
        (data == old(data)[old(offset) := Point(x, y)] && offset == (old(offset) + 1) % maxSize)
      ensures Points() == Last(old(Points()) + [Point(x, y)], maxSize)
      ensures maxValue == if recalculate then Some(MaxY(data)) else old(maxValue)
    {
      var p := Point(x, y);
      ghost var before := Points();
      if |data| < maxSize {
        data := data + [p];
        assert Points() == data;
      } else {
        OverwriteOldest(data, offset, p);
        data := data[offset := p];
        offset := (offset + 1) % maxSize;
        assert (before + [p])[1..] == before[1..] + [p];
      }
      if recalculate {
        CalculateMax();
      }
    }

    /** `Erase`: a non-empty buffer is emptied and `Offset` reset; an empty one is left alone. */
    method Erase()
      requires Valid()
      modifies this
      ensures Valid()
      ensures data == [] && offset == 0
      ensures old(data) == [] ==> offset == old(offset)
      ensures maxValue == old(maxValue)
    {
      if |data| > 0 {
        data := [];
        offset := 0;
      }
    }

    /** `calculate_max`: the largest `y`, or zero when there is none above zero. */
    method CalculateMax()
      modifies this
      ensures maxValue == Some(MaxY(data))
      ensures data == old(data) && offset == old(offset)
    {
      var m := 0.0;
      for i := 0 to |data|
        invariant data == old(data) && offset == old(offset)
        invariant m == MaxY(data[..i])
      {
        assert data[..i + 1][..i] == data[..i];
        if data[i].y > m {
          m := data[i].y;
        }
      }
      assert data[..|data|] == data;
      maxValue := Some(m);
    }
  }

  /** A sequence of `AddPoint` calls from empty keeps exactly the last `MaxSize` points, in order. */
  lemma {:induction false} AddedPointsKeepLast(points: seq<Point>, maxSize: nat)
    ensures Kept(points, maxSize) == Last(points, maxSize)
    decreases |points|
  {
    if points != [] {
      var front := points[..|points| - 1];
      AddedPointsKeepLast(front, maxSize);
      LastOfLast(front, points[|points| - 1], maxSize);
      assert front + [points[|points| - 1]] == points;
    }
  }

  /** What the buffer holds, oldest first, after the points were added one by one to an empty one. */
  function Kept(points: seq<Point>, maxSize: nat): seq<Point> {
    if points == [] then []
    else Last(Kept(points[..|points| - 1], maxSize) + [points[|points| - 1]], maxSize)
  }
}
