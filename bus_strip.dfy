/**
 * LED strips of the bus (main.ts): the two physical strips and the four
 * segments the wall strip is cut into. A strip is a view on a pixel
 * buffer (a start and a length); the segments of the wall share the wall's
 * buffer, so writing one segment must leave the others alone.
 */
module BusStrip {

  /** `enum Strips` of main.ts: the names of the strips and segments. */
  datatype StripId = Seat | Stove | AC | CounterTop | Wall | Ceiling

  const CeilingLength := 299
  const WallLength := 298

  /** A contiguous run of pixels: `strip.range(offset, length)`. */
  datatype Range = Range(offset: nat, length: nat)

  predicate Covers(r: Range, k: int)
  {
    r.offset <= k < r.offset + r.length
  }

  /**
   * The wall segments in the order the source declares them: counter top
   * [0, 60), AC [60, 120), stove [120, 180), and the seats from 180 to the
   * end of the strip. They are contiguous and end where the strip ends.
   */
  function WallSegments(wallLen: nat): (segs: seq<Range>)
    requires wallLen >= 180
    ensures |segs| == 4
    ensures segs[0].offset == 0
    ensures forall i :: 0 <= i < 3 ==> segs[i + 1].offset == segs[i].offset + segs[i].length
    ensures segs[3].offset + segs[3].length == wallLen
  {
    [Range(0, 60), Range(60, 60), Range(120, 60), Range(180, wallLen - 180)]
  }

  /** Every pixel of the wall lies in exactly one segment. */
  lemma {:induction false} WallSegmentsPartition(wallLen: nat, k: int)
    requires wallLen >= 180
    ensures 0 <= k < wallLen <==> exists i :: 0 <= i < 4 && Covers(WallSegments(wallLen)[i], k)
    ensures forall i, j ::
              0 <= i < 4 && 0 <= j < 4 && Covers(WallSegments(wallLen)[i], k) && Covers(WallSegments(wallLen)[j], k)
              ==> i == j
  {
    var segs := WallSegments(wallLen);
    if 0 <= k < wallLen {
      var i := if k < 60 then 0 else if k < 120 then 1 else if k < 180 then 2 else 3;
      assert Covers(segs[i], k);
    }
  }

  /** `rotate()`: every pixel moves one place up and the last comes round to the front. */
  function RotatedForward<T>(s: seq<T>): (r: seq<T>)
    ensures |r| == |s|
    ensures |s| > 0 ==> r[0] == s[|s| - 1]
    ensures forall i :: 1 <= i < |s| ==> r[i] == s[i - 1]
  {
    if s == [] then [] else [s[|s| - 1]] + s[..|s| - 1]
  }

  /** Rotating loses no pixel and duplicates none. */
  lemma {:induction false} RotatedForwardPermutes<T>(s: seq<T>)
    ensures multiset(RotatedForward(s)) == multiset(s)
  {
    if s != [] {
      var last, front := s[|s| - 1], s[..|s| - 1];
      assert s == front + [last];
      assert RotatedForward(s) == [last] + front;
    }
  }

  class Strip {
    const buf: array<int>
    const start: nat
    const length: nat

    ghost predicate Valid()
    {
      start + length <= buf.Length
    }

    /** The colours of this strip's pixels, in order. */
    function Pixels(): (px: seq<int>)
      requires Valid()
      reads buf
    {
      buf[start..start + length]
    }

    /** Every pixel of the buffer outside this strip still has its colour from `before`. */
    ghost predicate KeepsOutside(before: seq<int>)
      reads buf
    {
      |before| == buf.Length &&
      forall k :: 0 <= k < buf.Length && !(start <= k < start + length) ==> buf[k] == before[k]
    }

    /** `neopixel.create(pin, n, mode)`: a strip with a buffer of its own. */
    constructor Create(n: nat)
      ensures Valid() && fresh(buf)
      ensures start == 0 && length == n && buf.Length == n
    {
      buf := new int[n];
      start, length := 0, n;
    }

    /** `parent.range(r.offset, r.length)`: a view on the parent's buffer. */
    constructor View(parent: Strip, r: Range)
      requires parent.Valid() && r.offset + r.length <= parent.length
      ensures Valid()
      ensures buf == parent.buf && start == parent.start + r.offset && length == r.length
    {
      buf := parent.buf;
      start, length := parent.start + r.offset, r.length;
    }

    /** `setPixelColor(i, c)`: an index outside the strip is ignored. */
    method SetPixelColor(i: int, c: int)
      requires Valid()
      modifies buf
      ensures Pixels() == if 0 <= i < length then old(Pixels())[i := c] else old(Pixels())
      ensures KeepsOutside(old(buf[..]))
    {
      if 0 <= i < length {
        buf[start + i] := c;
      }
    }

    /** `rotate()`, in place on the shared buffer. */
    method Rotate()
      requires Valid()
      modifies buf
      ensures Pixels() == RotatedForward(old(Pixels()))
      ensures KeepsOutside(old(buf[..]))
    {
      if length == 0 {
        return;
      }
      var last := buf[start + length - 1];
      ShiftUp();
      buf[start] := last;
      assert Pixels() == RotatedForward(old(Pixels())) by {
        forall k | 0 <= k < length
          ensures Pixels()[k] == RotatedForward(old(Pixels()))[k]
        {
          if k > 0 {
            assert buf[start + k] == old(buf[start + k - 1]);
          }
        }
      }
    }

    /** The loop of `rotate()`: every pixel but the last moves one place up, from the top down. */
    method ShiftUp()
      requires Valid() && length > 0
      modifies buf
      ensures forall k :: start < k < start + length ==> buf[k] == old(buf[k - 1])
      ensures forall k :: 0 <= k <= start ==> buf[k] == old(buf[k])
      ensures forall k :: start + length <= k < buf.Length ==> buf[k] == old(buf[k])
    {
      var i := length - 1;
      while i > 0
        invariant 0 <= i < length
        invariant forall k :: 0 <= k <= start + i ==> buf[k] == old(buf[k])
        invariant forall k :: start + length <= k < buf.Length ==> buf[k] == old(buf[k])
        invariant forall k :: start + i < k < start + length ==> buf[k] == old(buf[k - 1])
      {
        buf[start + i] := buf[start + i - 1];
        i := i - 1;
      }
    }
  }

  /** Two views that share no pixel: on different buffers, or on disjoint ranges of one. */
  predicate Apart(s: Strip, t: Strip)
  {
    s.buf != t.buf || s.start + s.length <= t.start || t.start + t.length <= s.start
  }

  /**
   * A write confined to strip `s` leaves every strip apart from it showing
   * what it showed before: `before` is the whole buffer before the write.
   */
  lemma {:induction false} ApartPixelsKept(s: Strip, t: Strip, before: seq<int>)
    requires s.Valid() && t.Valid() && s.buf == t.buf && Apart(s, t)
    requires s.KeepsOutside(before)
    ensures t.Pixels() == before[t.start..t.start + t.length]
  {
    forall k | 0 <= k < t.length
      ensures t.Pixels()[k] == before[t.start + k]
    {
      assert !(s.start <= t.start + k < s.start + s.length);
    }
  }
}
