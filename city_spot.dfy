/**
  The bit grid of the city spot generator (src/CitySpotGenerator.h): a
  citySize by citySize square of cells, packed eight to a byte, `pitch`
  bytes to a row; `put_point` sets a cell's bit, `check_point` reads it and
  treats every cell outside the square as set; `generate_blob` clears the
  buffer, draws a contour and fills it from the centre with a LIFO stack of
  cells and their four neighbours.

  The buffer's contents are a `seq<bv8>`: `WithPoint` is the buffer after
  put_point and `CheckPoint` is check_point, and the methods that change the
  buffer in place are proved against them.
*/
module CitySpot {
  import opened Arith

  /** A cell as the fill keeps it: `std::array<int, 2>`, column then row. */
  type Point = (int, int)

  /**
    What the generator assumes of its buffer: a row's pitch bytes have a bit
    for every column, and the citySize rows fit the buffer.
  */
  predicate Fits(citySize: nat, pitch: nat, size: nat) {
    citySize <= 8 * pitch && citySize * pitch <= size
  }

  predicate InSquare(citySize: nat, p: Point) {
    0 <= p.0 < citySize && 0 <= p.1 < citySize
  }

  /** `(x >> 3) + y * pitch`: the byte holding cell (x, y). */
  function ByteIndex(pitch: nat, x: nat, y: nat): nat {
    x / 8 + y * pitch
  }

  /** `1 << n` for each bit n of a byte. */
  const MASKS: seq<bv8> := [1, 2, 4, 8, 16, 32, 64, 128]

  /** `1 << (x & 7)`: the bit of cell column x within its byte. */
  function BitMask(x: nat): bv8 {
    MASKS[x % 8]
  }

  /** The byte of a cell of the square lies in the first citySize rows of the buffer. */
  lemma ByteInBuffer(citySize: nat, pitch: nat, size: nat, x: nat, y: nat)
    requires Fits(citySize, pitch, size) && x < citySize && y < citySize
    ensures ByteIndex(pitch, x, y) < citySize * pitch <= size
  {
    assert x / 8 < pitch;
    MulMono(y + 1, citySize, pitch);
  }

  /** Two cells of the square share a byte and a bit only if they are the same cell. */
  lemma CellsDistinct(citySize: nat, pitch: nat, x: nat, y: nat, x': nat, y': nat)
    requires citySize <= 8 * pitch && x < citySize && x' < citySize
    ensures ByteIndex(pitch, x, y) == ByteIndex(pitch, x', y') && x % 8 == x' % 8 <==> x == x' && y == y'
  {
    if ByteIndex(pitch, x, y) == ByteIndex(pitch, x', y') && x % 8 == x' % 8 {
      var w := ByteIndex(pitch, x, y);
      DivModUnique(w, pitch, y, x / 8);
      DivModUnique(w, pitch, y', x' / 8);
      assert x == 8 * (x / 8) + x % 8 && x' == 8 * (x' / 8) + x' % 8;
    }
  }

  /** Setting one bit of a byte leaves every other single bit as it was. */
  lemma PowerBits(c: bv8, m: bv8, n: bv8)
    requires m != 0 && m & (m - 1) == 0 && n != 0 && n & (n - 1) == 0
    ensures (c | m) & n != 0 <==> c & n != 0 || m == n
  {
  }

  /** Each mask has exactly one bit, and the eight masks differ. */
  lemma MasksSingleBits(i: nat, j: nat)
    requires i < 8 && j < 8
    ensures MASKS[i] != 0 && MASKS[i] & (MASKS[i] - 1) == 0
    ensures MASKS[i] == MASKS[j] <==> i == j
  {
  }

  /** Setting bit a of a byte leaves every other bit as it was. */
  lemma MaskBits(cell: bv8, a: nat, b: nat)
    ensures (cell | BitMask(a)) & BitMask(b) != 0 <==> cell & BitMask(b) != 0 || a % 8 == b % 8
  {
    MasksSingleBits(a % 8, b % 8);
    MasksSingleBits(b % 8, a % 8);
    PowerBits(cell, BitMask(a), BitMask(b));
  }

  // ---------------------------------------------------------------------
  // put_point and check_point

  /** The buffer after `put_point(x, y)`: the cell's bit ORed into its byte. */
  function WithPoint(s: seq<bv8>, citySize: nat, pitch: nat, x: nat, y: nat): (r: seq<bv8>)
    requires Fits(citySize, pitch, |s|) && x < citySize && y < citySize
    ensures |r| == |s|
  {
    ByteInBuffer(citySize, pitch, |s|, x, y);
    s[ByteIndex(pitch, x, y) := s[ByteIndex(pitch, x, y)] | BitMask(x)]
  }

  /** put_point: it checks no bounds, so the cell must lie in the square. */
  method PutPoint(bits: array<bv8>, x: nat, y: nat, citySize: nat, pitch: nat)
    requires Fits(citySize, pitch, bits.Length) && x < citySize && y < citySize
    modifies bits
    ensures bits[..] == WithPoint(old(bits[..]), citySize, pitch, x, y)
  {
    ByteInBuffer(citySize, pitch, bits.Length, x, y);
    var i := x / 8 + y * pitch;
    bits[i] := bits[i] | BitMask(x);
  }

  /** check_point: true outside the square without reading the buffer, otherwise the cell's bit. */
  function CheckPoint(s: seq<bv8>, citySize: nat, pitch: nat, x: int, y: int): (r: bool)
    requires Fits(citySize, pitch, |s|)
  {
    if x < 0 || y < 0 || x >= citySize || y >= citySize then true
    else
      ByteInBuffer(citySize, pitch, |s|, x, y);
      s[ByteIndex(pitch, x, y)] & BitMask(x) != 0
  }

  /** After put_point(x, y) exactly cell (x, y) joins the set cells: the one bit it ORs in is that cell's. */
  lemma CheckAfterPut(s: seq<bv8>, citySize: nat, pitch: nat, x: nat, y: nat, x': int, y': int)
    requires Fits(citySize, pitch, |s|) && x < citySize && y < citySize
    ensures CheckPoint(WithPoint(s, citySize, pitch, x, y), citySize, pitch, x', y')
         == (CheckPoint(s, citySize, pitch, x', y') || (x' == x && y' == y))
  {
    if 0 <= x' < citySize && 0 <= y' < citySize {
      CellsDistinct(citySize, pitch, x, y, x', y');
      CellAfterPut(s, citySize, pitch, x, y, x', y');
    }
  }

  /** The cell's bit after put_point, byte by byte: a different byte is untouched. */
  lemma CellAfterPut(s: seq<bv8>, citySize: nat, pitch: nat, x: nat, y: nat, x': nat, y': nat)
    requires Fits(citySize, pitch, |s|) && x < citySize && y < citySize && x' < citySize && y' < citySize
    ensures CheckPoint(WithPoint(s, citySize, pitch, x, y), citySize, pitch, x', y')
         == (CheckPoint(s, citySize, pitch, x', y') || (ByteIndex(pitch, x, y) == ByteIndex(pitch, x', y') && x % 8 == x' % 8))
  {
    ByteInBuffer(citySize, pitch, |s|, x, y);
    ByteInBuffer(citySize, pitch, |s|, x', y');
    var i, i' := ByteIndex(pitch, x, y), ByteIndex(pitch, x', y');
    if i == i' {
      MaskBits(s[i], x, x');
    }
  }

  /** put_point sets exactly one bit of the buffer: bit x & 7 of byte (x >> 3) + y * pitch. */
  lemma PutPointSetsOneBit(s: seq<bv8>, citySize: nat, pitch: nat, x: nat, y: nat, i: nat, b: nat)
    requires Fits(citySize, pitch, |s|) && x < citySize && y < citySize && i < |s|
    ensures WithPoint(s, citySize, pitch, x, y)[i] & MASKS[b % 8] != 0
         <==> s[i] & MASKS[b % 8] != 0 || (i == ByteIndex(pitch, x, y) && b % 8 == x % 8)
  {
    if i == ByteIndex(pitch, x, y) {
      MaskBits(s[i], x, b);
    }
  }

  /** Putting a point twice is putting it once. */
  lemma PutPointIdempotent(s: seq<bv8>, citySize: nat, pitch: nat, x: nat, y: nat)
    requires Fits(citySize, pitch, |s|) && x < citySize && y < citySize
    ensures WithPoint(WithPoint(s, citySize, pitch, x, y), citySize, pitch, x, y) == WithPoint(s, citySize, pitch, x, y)
  {
    ByteInBuffer(citySize, pitch, |s|, x, y);
    var i := ByteIndex(pitch, x, y);
    assert (s[i] | BitMask(x)) | BitMask(x) == s[i] | BitMask(x);
  }

  // ---------------------------------------------------------------------
  // The cells set, and buffers that only gain bits

  function Marked(s: seq<bv8>, citySize: nat, pitch: nat): set<Point>
    requires Fits(citySize, pitch, |s|)
  {
    set x: int, y: int | 0 <= x < citySize && 0 <= y < citySize && CheckPoint(s, citySize, pitch, x, y) :: (x, y)
  }

  function Unmarked(s: seq<bv8>, citySize: nat, pitch: nat): set<Point>
    requires Fits(citySize, pitch, |s|)
  {
    set x: int, y: int | 0 <= x < citySize && 0 <= y < citySize && !CheckPoint(s, citySize, pitch, x, y) :: (x, y)
  }

  /** put_point adds its cell to the set cells and takes it from the clear ones. */
  lemma PutMarks(s: seq<bv8>, citySize: nat, pitch: nat, x: nat, y: nat)
    requires Fits(citySize, pitch, |s|) && x < citySize && y < citySize
    ensures Marked(WithPoint(s, citySize, pitch, x, y), citySize, pitch) == Marked(s, citySize, pitch) + {(x, y)}
    ensures Unmarked(WithPoint(s, citySize, pitch, x, y), citySize, pitch) == Unmarked(s, citySize, pitch) - {(x, y)}
  {
    var s' := WithPoint(s, citySize, pitch, x, y);
    forall p: Point | InSquare(citySize, p)
      ensures CheckPoint(s', citySize, pitch, p.0, p.1) == (CheckPoint(s, citySize, pitch, p.0, p.1) || p == (x, y))
    {
      CheckAfterPut(s, citySize, pitch, x, y, p.0, p.1);
    }
  }

  /** s' holds every bit s holds. */
  predicate Grows(s: seq<bv8>, s': seq<bv8>) {
    |s'| == |s| && forall i :: 0 <= i < |s| ==> s[i] | s'[i] == s'[i]
  }

  lemma GrowsReflexive(s: seq<bv8>)
    ensures Grows(s, s)
  {
    assert forall a: bv8 {:trigger a | a} :: a | a == a;
  }

  lemma GrowsTransitive(s: seq<bv8>, s': seq<bv8>, s'': seq<bv8>)
    requires Grows(s, s') && Grows(s', s'')
    ensures Grows(s, s'')
  {
    forall i | 0 <= i < |s|
      ensures s[i] | s''[i] == s''[i]
    {
      assert s[i] | s'[i] == s'[i] && s'[i] | s''[i] == s''[i];
      assert forall a: bv8, b: bv8, c: bv8 {:trigger a | c, b | c} :: a | b == b && b | c == c ==> a | c == c;
    }
  }

  lemma WithPointGrows(s: seq<bv8>, citySize: nat, pitch: nat, x: nat, y: nat)
    requires Fits(citySize, pitch, |s|) && x < citySize && y < citySize
    ensures Grows(s, WithPoint(s, citySize, pitch, x, y))
  {
    ByteInBuffer(citySize, pitch, |s|, x, y);
    var i := ByteIndex(pitch, x, y);
    assert s[i] | (s[i] | BitMask(x)) == s[i] | BitMask(x);
  }

  /** A set cell stays set in a buffer that only gains bits. */
  lemma GrowsKeepsMarks(s: seq<bv8>, s': seq<bv8>, citySize: nat, pitch: nat, x: int, y: int)
    requires Fits(citySize, pitch, |s|) && Grows(s, s') && CheckPoint(s, citySize, pitch, x, y)
    ensures CheckPoint(s', citySize, pitch, x, y)
  {
    if 0 <= x < citySize && 0 <= y < citySize {
      ByteInBuffer(citySize, pitch, |s|, x, y);
      var i := ByteIndex(pitch, x, y);
      assert s[i] | s'[i] == s'[i];
      assert forall a: bv8, b: bv8, m: bv8 {:trigger a | b, a & m} :: a | b == b && a & m != 0 ==> b & m != 0;
    }
  }

  // ---------------------------------------------------------------------
  // Clearing the buffer

  /** `memset(bitset, 0, citySize * pitch)`: the first count bytes zero, the rest as before. */
  function Cleared(s: seq<bv8>, count: nat): (r: seq<bv8>)
    requires count <= |s|
    ensures |r| == |s|
  {
    seq(|s|, i requires 0 <= i < |s| => if i < count then 0 else s[i])
  }

  method Clear(bits: array<bv8>, count: nat)
    requires count <= bits.Length
    modifies bits
    ensures bits[..] == Cleared(old(bits[..]), count)
  {
    var i := 0;
    while i < count
      invariant i <= count
      invariant forall j :: 0 <= j < bits.Length ==> bits[j] == if j < i then 0 else old(bits[j])
    {
      bits[i] := 0;
      i := i + 1;
    }
  }

  /** After the memset no cell of the square is set, whatever the buffer held. */
  lemma ClearedIsEmpty(s: seq<bv8>, citySize: nat, pitch: nat)
    requires Fits(citySize, pitch, |s|)
    ensures Marked(Cleared(s, citySize * pitch), citySize, pitch) == {}
  {
    var c := Cleared(s, citySize * pitch);
    forall p: Point | InSquare(citySize, p)
      ensures !CheckPoint(c, citySize, pitch, p.0, p.1)
    {
      ByteInBuffer(citySize, pitch, |s|, p.0, p.1);
      assert c[ByteIndex(pitch, p.0, p.1)] == 0;
    }
  }

  // ---------------------------------------------------------------------
  // The fill

  /** The buffer after put_point on each of ps in turn. */
  function PutAll(s: seq<bv8>, citySize: nat, pitch: nat, ps: seq<Point>): (r: seq<bv8>)
    requires Fits(citySize, pitch, |s|) && forall i :: 0 <= i < |ps| ==> InSquare(citySize, ps[i])
    ensures |r| == |s|
    decreases |ps|
  {
    if |ps| == 0 then s
    else
      var p := ps[|ps| - 1];
      assert InSquare(citySize, ps[|ps| - 1]);
      assert forall i :: 0 <= i < |ps| - 1 ==> ps[..|ps| - 1][i] == ps[i];
      WithPoint(PutAll(s, citySize, pitch, ps[..|ps| - 1]), citySize, pitch, p.0, p.1)
  }

  /** Putting the points of ps sets exactly those cells besides the ones already set. */
  lemma {:induction false} PutAllMarks(s: seq<bv8>, citySize: nat, pitch: nat, ps: seq<Point>)
    requires Fits(citySize, pitch, |s|) && forall i :: 0 <= i < |ps| ==> InSquare(citySize, ps[i])
    ensures Marked(PutAll(s, citySize, pitch, ps), citySize, pitch) == Marked(s, citySize, pitch) + set p | p in ps
    decreases |ps|
  {
    if |ps| > 0 {
      var front, p := ps[..|ps| - 1], ps[|ps| - 1];
      PutAllMarks(s, citySize, pitch, front);
      PutMarks(PutAll(s, citySize, pitch, front), citySize, pitch, p.0, p.1);
      assert ps == front + [p];
      assert (set q | q in ps) == (set q | q in front) + {p};
    }
  }

  /** Putting points only ever sets bits. */
  lemma {:induction false} PutAllGrows(s: seq<bv8>, citySize: nat, pitch: nat, ps: seq<Point>)
    requires Fits(citySize, pitch, |s|) && forall i :: 0 <= i < |ps| ==> InSquare(citySize, ps[i])
    ensures Grows(s, PutAll(s, citySize, pitch, ps))
    decreases |ps|
  {
    if |ps| == 0 {
      assert forall i :: 0 <= i < |s| ==> s[i] | s[i] == s[i];
    } else {
      var front, p := ps[..|ps| - 1], ps[|ps| - 1];
      PutAllGrows(s, citySize, pitch, front);
      WithPointGrows(PutAll(s, citySize, pitch, front), citySize, pitch, p.0, p.1);
      GrowsTransitive(s, PutAll(s, citySize, pitch, front), PutAll(s, citySize, pitch, ps));
    }
  }

  /** The four neighbours the fill visits, in its order: left, right, up, down. */
  const DELTAS: seq<Point> := [(-1, 0), (1, 0), (0, -1), (0, 1)]

  /** Every neighbour of c is set or outside the square. */
  predicate Closed(s: seq<bv8>, citySize: nat, pitch: nat, c: Point)
    requires Fits(citySize, pitch, |s|)
  {
    forall d :: 0 <= d < 4 ==> CheckPoint(s, citySize, pitch, c.0 + DELTAS[d].0, c.1 + DELTAS[d].1)
  }

  /** The first d neighbours of c, in the order of DELTAS, are set or outside the square. */
  predicate NeighboursSet(s: seq<bv8>, citySize: nat, pitch: nat, c: Point, d: nat)
    requires Fits(citySize, pitch, |s|) && d <= 4
  {
    forall e :: 0 <= e < d ==> CheckPoint(s, citySize, pitch, c.0 + DELTAS[e].0, c.1 + DELTAS[e].1)
  }

  /** One more neighbour set, while the buffer only gained bits. */
  lemma NeighbourStep(s: seq<bv8>, s': seq<bv8>, citySize: nat, pitch: nat, c: Point, d: nat)
    requires Fits(citySize, pitch, |s|) && d < 4 && NeighboursSet(s, citySize, pitch, c, d) && Grows(s, s')
    requires CheckPoint(s', citySize, pitch, c.0 + DELTAS[d].0, c.1 + DELTAS[d].1)
    ensures NeighboursSet(s', citySize, pitch, c, d + 1)
  {
    forall e | 0 <= e < d
      ensures CheckPoint(s', citySize, pitch, c.0 + DELTAS[e].0, c.1 + DELTAS[e].1)
    {
      GrowsKeepsMarks(s, s', citySize, pitch, c.0 + DELTAS[e].0, c.1 + DELTAS[e].1);
    }
  }

  lemma ClosedGrows(s: seq<bv8>, s': seq<bv8>, citySize: nat, pitch: nat, c: Point)
    requires Fits(citySize, pitch, |s|) && Grows(s, s') && Closed(s, citySize, pitch, c)
    ensures Closed(s', citySize, pitch, c)
  {
    forall d | 0 <= d < 4
      ensures CheckPoint(s', citySize, pitch, c.0 + DELTAS[d].0, c.1 + DELTAS[d].1)
    {
      GrowsKeepsMarks(s, s', citySize, pitch, c.0 + DELTAS[d].0, c.1 + DELTAS[d].1);
    }
  }

  /** q is one of the four neighbours of p. */
  predicate Neighbour(p: Point, q: Point) {
    (q.0 - p.0, q.1 - p.1) in DELTAS
  }

  lemma NeighbourOfDelta(p: Point, d: nat)
    requires d < 4
    ensures Neighbour(p, (p.0 + DELTAS[d].0, p.1 + DELTAS[d].1))
  {
    assert (p.0 + DELTAS[d].0 - p.0, p.1 + DELTAS[d].1 - p.1) == DELTAS[d];
  }

  /** Every pushed point after the first is a neighbour of an earlier one, its parent. */
  predicate Linked(pushed: seq<Point>, parent: seq<nat>) {
    |parent| == |pushed| &&
    forall i :: 1 <= i < |pushed| ==> parent[i] < i && Neighbour(pushed[parent[i]], pushed[i])
  }

  /**
    What the fill has pushed, over the initial buffer s0: first the centre,
    then only cells of the square that were clear in s0, each a neighbour of
    an earlier one, and none twice.
  */
  predicate History(s0: seq<bv8>, citySize: nat, pitch: nat, pushed: seq<Point>, parent: seq<nat>)
    requires Fits(citySize, pitch, |s0|)
  {
    |pushed| >= 1 && pushed[0] == (citySize / 2, citySize / 2) &&
    (forall i :: 0 <= i < |pushed| ==> InSquare(citySize, pushed[i])) &&
    (forall i, j :: 0 <= i < j < |pushed| ==> pushed[i] != pushed[j]) &&
    (forall i :: 1 <= i < |pushed| ==> pushed[i] in Unmarked(s0, citySize, pitch)) &&
    Linked(pushed, parent)
  }

  /**
    How far the fill has got in buffer s: every pushed point is set, the
    stack holds only pushed points, and a pushed point not on the stack nor
    pending has all its neighbours set.
  */
  predicate Progress(s: seq<bv8>, citySize: nat, pitch: nat, lifo: seq<Point>, pushed: seq<Point>, pending: seq<Point>)
    requires Fits(citySize, pitch, |s|)
  {
    (forall i :: 0 <= i < |pushed| ==> CheckPoint(s, citySize, pitch, pushed[i].0, pushed[i].1)) &&
    (forall k :: 0 <= k < |lifo| ==> lifo[k] in pushed) &&
    (forall i :: 0 <= i < |pushed| ==> pushed[i] in lifo || pushed[i] in pending || Closed(s, citySize, pitch, pushed[i]))
  }

  /** The fill's state over the initial buffer s0: s is s0 with the pushed points put, in order. */
  predicate FillState(s: seq<bv8>, s0: seq<bv8>, citySize: nat, pitch: nat,
                      lifo: seq<Point>, pushed: seq<Point>, parent: seq<nat>, pending: seq<Point>)
  {
    Fits(citySize, pitch, |s0|) && |s| == |s0| && History(s0, citySize, pitch, pushed, parent) &&
    s == PutAll(s0, citySize, pitch, pushed) && Progress(s, citySize, pitch, lifo, pushed, pending)
  }

  /** Setting and pushing a clear neighbour (x, y) of pushed[j] keeps the fill's state and clears one cell fewer. */
  lemma Push(s: seq<bv8>, s0: seq<bv8>, citySize: nat, pitch: nat, lifo: seq<Point>,
             pushed: seq<Point>, parent: seq<nat>, pending: seq<Point>, x: int, y: int, j: nat)
    requires FillState(s, s0, citySize, pitch, lifo, pushed, parent, pending)
    requires 0 <= x < citySize && 0 <= y < citySize && !CheckPoint(s, citySize, pitch, x, y)
    requires j < |pushed| && Neighbour(pushed[j], (x, y))
    ensures FillState(WithPoint(s, citySize, pitch, x, y), s0, citySize, pitch,
                      lifo + [(x, y)], pushed + [(x, y)], parent + [j], pending)
    ensures |Unmarked(WithPoint(s, citySize, pitch, x, y), citySize, pitch)| < |Unmarked(s, citySize, pitch)|
  {
    var s' := WithPoint(s, citySize, pitch, x, y);
    PutMarks(s, citySize, pitch, x, y);
    assert (x, y) in Unmarked(s, citySize, pitch);
    WithPointGrows(s, citySize, pitch, x, y);
    CheckAfterPut(s, citySize, pitch, x, y, x, y);
    PushedWasClear(s, s0, citySize, pitch, pushed, x, y);
    PushHistory(s0, citySize, pitch, pushed, parent, x, y, j);
    assert (pushed + [(x, y)])[..|pushed|] == pushed;
    PushKeepsMarks(s, s', citySize, pitch, lifo, pushed, pending, x, y);
  }

  /** A new clear neighbour of an earlier point extends the history. */
  lemma PushHistory(s0: seq<bv8>, citySize: nat, pitch: nat, pushed: seq<Point>, parent: seq<nat>, x: int, y: int, j: nat)
    requires Fits(citySize, pitch, |s0|) && History(s0, citySize, pitch, pushed, parent)
    requires (x, y) in Unmarked(s0, citySize, pitch) && (x, y) !in pushed
    requires j < |pushed| && Neighbour(pushed[j], (x, y))
    ensures History(s0, citySize, pitch, pushed + [(x, y)], parent + [j])
  {
  }

  /** The pushed points stay set and closed ones stay closed as the buffer gains bits; the new point is on the stack. */
  lemma PushKeepsMarks(s: seq<bv8>, s': seq<bv8>, citySize: nat, pitch: nat, lifo: seq<Point>,
                       pushed: seq<Point>, pending: seq<Point>, x: int, y: int)
    requires Fits(citySize, pitch, |s|) && Grows(s, s') && CheckPoint(s', citySize, pitch, x, y)
    requires Progress(s, citySize, pitch, lifo, pushed, pending)
    ensures Progress(s', citySize, pitch, lifo + [(x, y)], pushed + [(x, y)], pending)
  {
    var lifo', pushed' := lifo + [(x, y)], pushed + [(x, y)];
    forall i | 0 <= i < |pushed'|
      ensures CheckPoint(s', citySize, pitch, pushed'[i].0, pushed'[i].1)
      ensures pushed'[i] in lifo' || pushed'[i] in pending || Closed(s', citySize, pitch, pushed'[i])
    {
      if i < |pushed| {
        GrowsKeepsMarks(s, s', citySize, pitch, pushed[i].0, pushed[i].1);
        if !(pushed[i] in lifo || pushed[i] in pending) {
          ClosedGrows(s, s', citySize, pitch, pushed[i]);
        }
      }
    }
  }

  /**
    One neighbour (x, y) of pushed[j], the popped cell: if check_point finds
    it clear, put_point it and push it. Either way it is set afterwards and
    the buffer has only gained bits.
  */
  method Visit(bits: array<bv8>, citySize: nat, pitch: nat, x: int, y: int, lifo: seq<Point>,
               ghost s0: seq<bv8>, ghost pushed: seq<Point>, ghost parent: seq<nat>, ghost pending: seq<Point>, ghost j: nat)
    returns (lifo': seq<Point>, ghost pushed': seq<Point>, ghost parent': seq<nat>)
    requires Fits(citySize, pitch, bits.Length) && FillState(bits[..], s0, citySize, pitch, lifo, pushed, parent, pending)
    requires j < |pushed| && Neighbour(pushed[j], (x, y))
    modifies bits
    ensures FillState(bits[..], s0, citySize, pitch, lifo', pushed', parent', pending)
    ensures Grows(old(bits[..]), bits[..]) && CheckPoint(bits[..], citySize, pitch, x, y)
    ensures |Unmarked(bits[..], citySize, pitch)| < |Unmarked(old(bits[..]), citySize, pitch)|
         || (bits[..] == old(bits[..]) && lifo' == lifo)
    ensures pushed' == pushed || pushed' == pushed + [(x, y)]
  {
    ghost var s := bits[..];
    if CheckPoint(bits[..], citySize, pitch, x, y) {
      lifo', pushed', parent' := lifo, pushed, parent;
      GrowsReflexive(s);
      return;
    }
    PutPoint(bits, x, y, citySize, pitch);
    lifo' := lifo + [(x, y)];
    pushed', parent' := pushed + [(x, y)], parent + [j];
    Push(s, s0, citySize, pitch, lifo, pushed, parent, pending, x, y, j);
    WithPointGrows(s, citySize, pitch, x, y);
    CheckAfterPut(s, citySize, pitch, x, y, x, y);
  }

  /** The state right after the centre is put and pushed. */
  lemma Start(s0: seq<bv8>, citySize: nat, pitch: nat)
    requires Fits(citySize, pitch, |s0|) && citySize > 0
    ensures FillState(WithPoint(s0, citySize, pitch, citySize / 2, citySize / 2), s0, citySize, pitch,
                      [(citySize / 2, citySize / 2)], [(citySize / 2, citySize / 2)], [0], [])
  {
    var c := citySize / 2;
    CheckAfterPut(s0, citySize, pitch, c, c, c, c);
    assert [(c, c)][..0] == [];
  }

  /** Popping the top of the stack makes it the pending point. */
  lemma Pop(s: seq<bv8>, s0: seq<bv8>, citySize: nat, pitch: nat, lifo: seq<Point>, pushed: seq<Point>, parent: seq<nat>)
    requires FillState(s, s0, citySize, pitch, lifo, pushed, parent, []) && |lifo| > 0
    ensures FillState(s, s0, citySize, pitch, lifo[..|lifo| - 1], pushed, parent, [lifo[|lifo| - 1]])
    ensures lifo[|lifo| - 1] in pushed
  {
    var rest, top := lifo[..|lifo| - 1], lifo[|lifo| - 1];
    assert lifo == rest + [top];
    forall i | 0 <= i < |pushed| && pushed[i] in lifo
      ensures pushed[i] in rest || pushed[i] in [top]
    {
    }
  }

  /** Once all its neighbours are set the pending point is done. */
  lemma Settle(s: seq<bv8>, s0: seq<bv8>, citySize: nat, pitch: nat, lifo: seq<Point>,
               pushed: seq<Point>, parent: seq<nat>, curr: Point)
    requires FillState(s, s0, citySize, pitch, lifo, pushed, parent, [curr]) && NeighboursSet(s, citySize, pitch, curr, 4)
    ensures FillState(s, s0, citySize, pitch, lifo, pushed, parent, [])
  {
  }

  /**
    The loop over `deltas` for the popped cell curr, which is pushed[j]:
    visit its four neighbours in turn. Afterwards all four are set, and
    either fewer cells are clear or the stack has not grown past l0.
  */
  method VisitNeighbours(bits: array<bv8>, citySize: nat, pitch: nat, curr: Point, lifo: seq<Point>,
                         ghost s0: seq<bv8>, ghost pushed: seq<Point>, ghost parent: seq<nat>, ghost j: nat, ghost l0: nat)
    returns (lifo': seq<Point>, ghost pushed': seq<Point>, ghost parent': seq<nat>)
    requires Fits(citySize, pitch, bits.Length) && FillState(bits[..], s0, citySize, pitch, lifo, pushed, parent, [curr])
    requires j < |pushed| && pushed[j] == curr && |lifo| < l0
    modifies bits
    ensures FillState(bits[..], s0, citySize, pitch, lifo', pushed', parent', [])
    ensures |Unmarked(bits[..], citySize, pitch)| < |Unmarked(old(bits[..]), citySize, pitch)|
         || (|Unmarked(bits[..], citySize, pitch)| == |Unmarked(old(bits[..]), citySize, pitch)| && |lifo'| < l0)
  {
    ghost var u0 := |Unmarked(bits[..], citySize, pitch)|;
    lifo', pushed', parent' := lifo, pushed, parent;
    var d := 0;
    while d < 4
      invariant d <= 4 && j < |pushed'| && pushed'[j] == curr
      invariant FillState(bits[..], s0, citySize, pitch, lifo', pushed', parent', [curr])
      invariant NeighboursSet(bits[..], citySize, pitch, curr, d)
      invariant |Unmarked(bits[..], citySize, pitch)| < u0 || (|Unmarked(bits[..], citySize, pitch)| == u0 && |lifo'| < l0)
    {
      var x, y := curr.0 + DELTAS[d].0, curr.1 + DELTAS[d].1;
      ghost var before := bits[..];
      ghost var pushedBefore := pushed';
      NeighbourOfDelta(curr, d);
      lifo', pushed', parent' := Visit(bits, citySize, pitch, x, y, lifo', s0, pushed', parent', [curr], j);
      assert pushed'[j] == pushedBefore[j];
      NeighbourStep(before, bits[..], citySize, pitch, curr, d);
      d := d + 1;
    }
    Settle(bits[..], s0, citySize, pitch, lifo', pushed', parent', curr);
  }

  /**
    The fill of generate_blob, from put_point of the centre to the empty
    stack. The ghost results record every point pushed, in order, and the
    earlier point each was reached from. Afterwards the buffer is the old
    one with exactly those points put; they are the centre and cells that
    were clear, each once; and every one of them has all four neighbours set.
  */
  method Fill(bits: array<bv8>, citySize: nat, pitch: nat) returns (ghost pushed: seq<Point>, ghost parent: seq<nat>)
    requires Fits(citySize, pitch, bits.Length) && citySize > 0
    modifies bits
    ensures History(old(bits[..]), citySize, pitch, pushed, parent)
    ensures bits[..] == PutAll(old(bits[..]), citySize, pitch, pushed)
    ensures forall i :: 0 <= i < |pushed| ==> Closed(bits[..], citySize, pitch, pushed[i])
  {
    ghost var s0 := bits[..];
    var cx, cy := citySize / 2, citySize / 2;
    var lifo := [(cx, cy)];
    PutPoint(bits, cx, cy, citySize, pitch);
    pushed, parent := [(cx, cy)], [0];
    Start(s0, citySize, pitch);
    while |lifo| > 0
      invariant FillState(bits[..], s0, citySize, pitch, lifo, pushed, parent, [])
      decreases |Unmarked(bits[..], citySize, pitch)|, |lifo|
    {
      var curr := lifo[|lifo| - 1];
      Pop(bits[..], s0, citySize, pitch, lifo, pushed, parent);
      ghost var j :| 0 <= j < |pushed| && pushed[j] == curr;
      lifo, pushed, parent := VisitNeighbours(bits, citySize, pitch, curr, lifo[..|lifo| - 1], s0, pushed, parent, j, |lifo|);
    }
    Done(bits[..], s0, citySize, pitch, pushed, parent);
  }

  /** put_point on each of ps in turn, as the loops that draw the contour do. */
  method PutPoints(bits: array<bv8>, citySize: nat, pitch: nat, ps: seq<Point>)
    requires Fits(citySize, pitch, bits.Length) && forall i :: 0 <= i < |ps| ==> InSquare(citySize, ps[i])
    modifies bits
    ensures bits[..] == PutAll(old(bits[..]), citySize, pitch, ps)
  {
    var k := 0;
    while k < |ps|
      invariant k <= |ps|
      invariant bits[..] == PutAll(old(bits[..]), citySize, pitch, ps[..k])
    {
      assert ps[..k + 1][..k] == ps[..k];
      PutPoint(bits, ps[k].0, ps[k].1, citySize, pitch);
      k := k + 1;
    }
    assert ps[..|ps|] == ps;
  }

  /**
    generate_blob with its floating-point contour given as the cells it
    draws: clear the buffer, put the contour cells, fill from the centre.
  */
  method GenerateBlob(bits: array<bv8>, citySize: nat, pitch: nat, contour: seq<Point>)
    returns (ghost pushed: seq<Point>, ghost parent: seq<nat>)
    requires Fits(citySize, pitch, bits.Length) && citySize > 0
    requires forall i :: 0 <= i < |contour| ==> InSquare(citySize, contour[i])
    modifies bits
    ensures History(PutAll(Cleared(old(bits[..]), citySize * pitch), citySize, pitch, contour), citySize, pitch, pushed, parent)
    ensures bits[..] == PutAll(PutAll(Cleared(old(bits[..]), citySize * pitch), citySize, pitch, contour), citySize, pitch, pushed)
    ensures forall i :: 0 <= i < |pushed| ==> Closed(bits[..], citySize, pitch, pushed[i])
  {
    Clear(bits, citySize * pitch);
    PutPoints(bits, citySize, pitch, contour);
    pushed, parent := Fill(bits, citySize, pitch);
  }

  /** The blob's set cells are the contour's and the filled ones, whatever the buffer held before. */
  lemma BlobMarks(s: seq<bv8>, citySize: nat, pitch: nat, contour: seq<Point>, pushed: seq<Point>)
    requires Fits(citySize, pitch, |s|)
    requires forall i :: 0 <= i < |contour| ==> InSquare(citySize, contour[i])
    requires forall i :: 0 <= i < |pushed| ==> InSquare(citySize, pushed[i])
    ensures Marked(PutAll(PutAll(Cleared(s, citySize * pitch), citySize, pitch, contour), citySize, pitch, pushed), citySize, pitch)
         == (set p | p in contour) + (set p | p in pushed)
  {
    var c := Cleared(s, citySize * pitch);
    var drawn := PutAll(c, citySize, pitch, contour);
    ClearedIsEmpty(s, citySize, pitch);
    PutAllMarks(c, citySize, pitch, contour);
    assert Marked(drawn, citySize, pitch) == set p | p in contour;
    PutAllMarks(drawn, citySize, pitch, pushed);
  }

  /** With the stack empty and nothing pending, every pushed point is closed. */
  lemma Done(s: seq<bv8>, s0: seq<bv8>, citySize: nat, pitch: nat, pushed: seq<Point>, parent: seq<nat>)
    requires FillState(s, s0, citySize, pitch, [], pushed, parent, [])
    ensures forall i :: 0 <= i < |pushed| ==> Closed(s, citySize, pitch, pushed[i])
  {
  }

  /** A neighbour of a closed point is set. */
  lemma NeighbourOfClosed(s: seq<bv8>, citySize: nat, pitch: nat, p: Point, q: Point)
    requires Fits(citySize, pitch, |s|) && Closed(s, citySize, pitch, p) && Neighbour(p, q)
    ensures CheckPoint(s, citySize, pitch, q.0, q.1)
  {
    var d :| 0 <= d < 4 && DELTAS[d] == (q.0 - p.0, q.1 - p.1);
    assert q == (p.0 + DELTAS[d].0, p.1 + DELTAS[d].1);
  }

  /** A cell of the square set after the fill but clear before it was pushed. */
  lemma SetCellWasPushed(s0: seq<bv8>, citySize: nat, pitch: nat, pushed: seq<Point>, q: Point)
    requires Fits(citySize, pitch, |s0|) && forall i :: 0 <= i < |pushed| ==> InSquare(citySize, pushed[i])
    requires q in Unmarked(s0, citySize, pitch) && CheckPoint(PutAll(s0, citySize, pitch, pushed), citySize, pitch, q.0, q.1)
    ensures q in pushed
  {
    PutAllMarks(s0, citySize, pitch, pushed);
    assert q in Marked(PutAll(s0, citySize, pitch, pushed), citySize, pitch);
  }

  /**
    The fill reaches every cell joined to the centre by a path of cells that
    were clear: the last cell of such a path is among the pushed points.
  */
  lemma {:induction false} FillReachesComponent(s0: seq<bv8>, citySize: nat, pitch: nat,
                                                pushed: seq<Point>, parent: seq<nat>, path: seq<Point>)
    requires Fits(citySize, pitch, |s0|) && History(s0, citySize, pitch, pushed, parent)
    requires forall i :: 0 <= i < |pushed| ==> Closed(PutAll(s0, citySize, pitch, pushed), citySize, pitch, pushed[i])
    requires |path| >= 1 && path[0] == pushed[0]
    requires forall k :: 1 <= k < |path| ==> Neighbour(path[k - 1], path[k]) && path[k] in Unmarked(s0, citySize, pitch)
    ensures path[|path| - 1] in pushed
    decreases |path|
  {
    if |path| > 1 {
      var front := path[..|path| - 1];
      FillReachesComponent(s0, citySize, pitch, pushed, parent, front);
      var prev, last := path[|path| - 2], path[|path| - 1];
      assert prev == front[|front| - 1];
      var i :| 0 <= i < |pushed| && pushed[i] == prev;
      NeighbourOfClosed(PutAll(s0, citySize, pitch, pushed), citySize, pitch, prev, last);
      SetCellWasPushed(s0, citySize, pitch, pushed, last);
    }
  }

  /** A cell clear now was clear at the start, and is none of the pushed points, which are all set. */
  lemma PushedWasClear(s: seq<bv8>, s0: seq<bv8>, citySize: nat, pitch: nat, pushed: seq<Point>, x: int, y: int)
    requires Fits(citySize, pitch, |s0|) && |s| == |s0| && (forall i :: 0 <= i < |pushed| ==> InSquare(citySize, pushed[i]))
    requires s == PutAll(s0, citySize, pitch, pushed)
    requires (forall i :: 0 <= i < |pushed| ==> CheckPoint(s, citySize, pitch, pushed[i].0, pushed[i].1))
    requires 0 <= x < citySize && 0 <= y < citySize && !CheckPoint(s, citySize, pitch, x, y)
    ensures (x, y) in Unmarked(s0, citySize, pitch) && (x, y) !in pushed
  {
    PutAllGrows(s0, citySize, pitch, pushed);
    if CheckPoint(s0, citySize, pitch, x, y) {
      GrowsKeepsMarks(s0, s, citySize, pitch, x, y);
    }
  }
}
