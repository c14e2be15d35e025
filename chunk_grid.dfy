/** The arithmetic of the chunk loader: which chunk the player stands in,
    which chunk positions the loader considers around it, and what the
    load/unload job does with each of them. Chunks are square, `chunkSize`
    world units on a side, and a chunk is identified by the world position
    of its corner, which always lies on the ground plane (y = 0). */
module ChunkGrid {
  import opened Arithmetic

  /** A world position. */
  datatype Vec3 = Vec3(x: real, y: real, z: real)

  /** The corner of a chunk: the world position (x, 0, z). */
  datatype Cell = Cell(x: int, z: int)

  /** What the loader asks the engine to do: create a chunk at a position,
      or destroy the first scene object found under a name. */
  datatype HostCall = Instantiate(position: Cell) | DestroyByName(name: string)

  /** The name the engine gives every instantiated chunk. */
  const CloneName := "Chunk(Clone)"

  // ---------------------------------------------------------------------
  // Chunk coordinates.

  lemma RealFloorLower(p: real, c: real)
    requires c > 0.0
    ensures (p / c).Floor as real * c <= p
  {
    var q := p / c;
    RealScaleLe(q.Floor as real, q, c);
    assert q * c == p;
  }

  lemma RealFloorUpper(p: real, c: real)
    requires c > 0.0
    ensures p < ((p / c).Floor as real + 1.0) * c
  {
    var q := p / c;
    var m := q.Floor as real + 1.0;
    assert q < m;
    RealScaleLt(q, m, c);
    assert q * c == p;
  }

  /** The same bracket with an integer chunk size. */
  lemma FloorBounds(p: real, chunkSize: int)
    requires chunkSize > 0
    ensures var k := (p / (chunkSize as real)).Floor;
      (k * chunkSize) as real <= p < ((k + 1) * chunkSize) as real
  {
    var c := chunkSize as real;
    var k := (p / c).Floor;
    RealFloorLower(p, c);
    RealFloorUpper(p, c);
    assert (k * chunkSize) as real == k as real * c;
    assert ((k + 1) * chunkSize) as real == (k as real + 1.0) * c;
  }

  /** The chunk index of world coordinate `p`: `p / chunkSize` rounded down
      (the loader's floor-to-int of a real division). */
  function ChunkIndex(p: real, chunkSize: int): (k: int)
    requires chunkSize > 0
    ensures (k * chunkSize) as real <= p < ((k + 1) * chunkSize) as real
  {
    FloorBounds(p, chunkSize);
    (p / (chunkSize as real)).Floor
  }

  /** The chunk index is the only k whose chunk [k * size, (k + 1) * size)
      holds the coordinate. */
  lemma ChunkIndexUnique(p: real, chunkSize: int, k: int)
    requires chunkSize > 0
    requires (k * chunkSize) as real <= p < ((k + 1) * chunkSize) as real
    ensures ChunkIndex(p, chunkSize) == k
  {
    var j := ChunkIndex(p, chunkSize);
    assert j * chunkSize < (k + 1) * chunkSize;
    MulLessCancel(j, k + 1, chunkSize);
    assert k * chunkSize < (j + 1) * chunkSize;
    MulLessCancel(k, j + 1, chunkSize);
  }

  /** Dividing a chunk-aligned coordinate by the chunk size gives back its
      index, so re-deriving the player's chunk index from the aligned
      position loses nothing. */
  lemma {:induction false} ReDivide(k: int, chunkSize: int)
    requires chunkSize > 0
    ensures ChunkIndex((k * chunkSize) as real, chunkSize) == k
  {
    assert (k * chunkSize) < ((k + 1) * chunkSize) by {
      assert (k + 1) * chunkSize == k * chunkSize + chunkSize;
    }
    ChunkIndexUnique((k * chunkSize) as real, chunkSize, k);
  }

  /** The corner of the chunk the player stands in: each horizontal
      coordinate rounded down to a multiple of the chunk size. */
  function PlayerChunk(position: Vec3, chunkSize: int): (c: Cell)
    requires chunkSize > 0
    ensures c.x % chunkSize == 0 && c.z % chunkSize == 0
    ensures c.x as real <= position.x < (c.x + chunkSize) as real
    ensures c.z as real <= position.z < (c.z + chunkSize) as real
  {
    var kx := ChunkIndex(position.x, chunkSize);
    var kz := ChunkIndex(position.z, chunkSize);
    assert (kx + 1) * chunkSize == kx * chunkSize + chunkSize;
    assert (kz + 1) * chunkSize == kz * chunkSize + chunkSize;
    DivModOfSlot(chunkSize, kx, 0);
    DivModOfSlot(chunkSize, kz, 0);
    Cell(kx * chunkSize, kz * chunkSize)
  }

  // ---------------------------------------------------------------------
  // The candidate positions around a chunk.

  /** Side of the square of candidates: viewDistance chunks each way. */
  function Side(viewDistance: int): int {
    2 * viewDistance + 1
  }

  /** The candidate buffer's length, (2 * viewDistance + 1) squared; it is
      allocated at this size even when no candidate is written. */
  function BufferLength(viewDistance: int): nat {
    Side(viewDistance) * Side(viewDistance)
  }

  /** Entry n of the candidate list around chunk index (kx, kz): the
      candidates run through the offsets -v .. v of x in the outer loop and
      of z in the inner loop. */
  function CandidateAt(chunkSize: int, viewDistance: int, kx: int, kz: int, n: int): Cell
    requires viewDistance >= 0 && 0 <= n
  {
    var w := Side(viewDistance);
    Cell((n / w - viewDistance + kx) * chunkSize, (n % w - viewDistance + kz) * chunkSize)
  }

  /** The positions the loader writes into its buffer, in the order it
      writes them; none when viewDistance is negative. */
  function Candidates(chunkSize: int, viewDistance: int, kx: int, kz: int): (cs: seq<Cell>)
    ensures viewDistance >= 0 ==> |cs| == BufferLength(viewDistance)
    ensures viewDistance < 0 ==> cs == []
  {
    if viewDistance < 0 then []
    else seq(BufferLength(viewDistance), n requires 0 <= n => CandidateAt(chunkSize, viewDistance, kx, kz, n))
  }

  /** The buffer slot of offset (a, b): a row of w slots per x offset. */
  function Slot(viewDistance: int, a: int, b: int): int {
    (a + viewDistance) * Side(viewDistance) + (b + viewDistance)
  }

  lemma DivModOfSlot(w: int, q: int, r: int)
    requires w > 0 && 0 <= r < w
    ensures (q * w + r) / w == q && (q * w + r) % w == r
  {
    DivModUnique(q * w + r, w, q, r);
  }

  /** The slot of offset (a, b) holds chunk (kx + a, kz + b). */
  lemma SlotHolds(chunkSize: int, viewDistance: int, kx: int, kz: int, a: int, b: int)
    requires viewDistance >= 0
    requires -viewDistance <= a <= viewDistance && -viewDistance <= b <= viewDistance
    ensures 0 <= Slot(viewDistance, a, b) < BufferLength(viewDistance)
    ensures Candidates(chunkSize, viewDistance, kx, kz)[Slot(viewDistance, a, b)] == Cell((a + kx) * chunkSize, (b + kz) * chunkSize)
  {
    var w := Side(viewDistance);
    var n := Slot(viewDistance, a, b);
    DivModOfSlot(w, a + viewDistance, b + viewDistance);
    assert n < w * w by {
      assert n <= (w - 1) * w + (w - 1);
      assert (w - 1) * w + (w - 1) == w * w - 1;
    }
  }

  /** Going through the slots in order, the slot after (a, b) is (a, b + 1),
      or (a + 1, -v) once b has reached v. */
  lemma SlotNext(viewDistance: int, a: int, b: int)
    ensures Slot(viewDistance, a, b) + 1 == Slot(viewDistance, a, b + 1)
    ensures b == viewDistance ==> Slot(viewDistance, a, b) + 1 == Slot(viewDistance, a + 1, -viewDistance)
  {
    assert (a + 1 + viewDistance) * Side(viewDistance) == (a + viewDistance) * Side(viewDistance) + Side(viewDistance);
  }

  /** Every slot is the slot of one offset pair in range. */
  lemma SlotOffsets(viewDistance: int, n: int)
    requires viewDistance >= 0 && 0 <= n < BufferLength(viewDistance)
    ensures var w := Side(viewDistance);
      -viewDistance <= n / w - viewDistance <= viewDistance &&
      -viewDistance <= n % w - viewDistance <= viewDistance &&
      Slot(viewDistance, n / w - viewDistance, n % w - viewDistance) == n
  {
    var w := Side(viewDistance);
    var q, r := n / w, n % w;
    assert n == q * w + r && 0 <= r < w;
    if q < 0 {
      MulLe(q, -1, w);
    }
    if q >= w {
      MulLe(w, q, w);
    }
    assert Slot(viewDistance, q - viewDistance, r - viewDistance) == q * w + r by {
      assert q - viewDistance + viewDistance == q && r - viewDistance + viewDistance == r;
    }
  }

  /** The chunk-index box of Chebyshev radius v around (kx, kz), in world
      positions: chunk-aligned, at most v chunks away on each axis. */
  predicate InBox(c: Cell, chunkSize: int, viewDistance: int, kx: int, kz: int)
    requires chunkSize > 0
  {
    c.x % chunkSize == 0 && c.z % chunkSize == 0 &&
    -viewDistance <= c.x / chunkSize - kx <= viewDistance &&
    -viewDistance <= c.z / chunkSize - kz <= viewDistance
  }

  /** Every candidate lies in the box. */
  lemma CandidateInBox(chunkSize: int, viewDistance: int, kx: int, kz: int, n: int)
    requires chunkSize > 0 && 0 <= n < |Candidates(chunkSize, viewDistance, kx, kz)|
    ensures InBox(Candidates(chunkSize, viewDistance, kx, kz)[n], chunkSize, viewDistance, kx, kz)
  {
    var w := Side(viewDistance);
    SlotOffsets(viewDistance, n);
    var a := n / w - viewDistance;
    var b := n % w - viewDistance;
    assert Candidates(chunkSize, viewDistance, kx, kz)[n] == Cell((a + kx) * chunkSize, (b + kz) * chunkSize);
    MulDiv(a + kx, chunkSize);
    MulDiv(b + kz, chunkSize);
  }

  /** Every chunk of the box is a candidate. */
  lemma BoxInCandidates(chunkSize: int, viewDistance: int, kx: int, kz: int, c: Cell)
    requires chunkSize > 0 && InBox(c, chunkSize, viewDistance, kx, kz)
    ensures c in Candidates(chunkSize, viewDistance, kx, kz)
  {
    var a := c.x / chunkSize - kx;
    var b := c.z / chunkSize - kz;
    assert c.x == (c.x / chunkSize) * chunkSize + c.x % chunkSize;
    assert c.z == (c.z / chunkSize) * chunkSize + c.z % chunkSize;
    SlotHolds(chunkSize, viewDistance, kx, kz, a, b);
  }

  /** The candidates are exactly the box: every candidate lies in it, and
      every chunk of the box is a candidate. */
  lemma CandidatesAreBox(chunkSize: int, viewDistance: int, kx: int, kz: int, c: Cell)
    requires chunkSize > 0
    ensures c in Candidates(chunkSize, viewDistance, kx, kz) <==> InBox(c, chunkSize, viewDistance, kx, kz)
  {
    var cs := Candidates(chunkSize, viewDistance, kx, kz);
    if c in cs {
      var n :| 0 <= n < |cs| && cs[n] == c;
      CandidateInBox(chunkSize, viewDistance, kx, kz, n);
    }
    if InBox(c, chunkSize, viewDistance, kx, kz) {
      BoxInCandidates(chunkSize, viewDistance, kx, kz, c);
    }
  }

  /** No chunk is a candidate twice. */
  lemma CandidatesDistinct(chunkSize: int, viewDistance: int, kx: int, kz: int, i: int, j: int)
    requires chunkSize > 0
    requires 0 <= i < j < |Candidates(chunkSize, viewDistance, kx, kz)|
    ensures Candidates(chunkSize, viewDistance, kx, kz)[i] != Candidates(chunkSize, viewDistance, kx, kz)[j]
  {
    var cs := Candidates(chunkSize, viewDistance, kx, kz);
    var w := Side(viewDistance);
    DivModOrder(i, j, w);
    if cs[i] == cs[j] {
      MulCancel(i / w - viewDistance + kx, j / w - viewDistance + kx, chunkSize);
      MulCancel(i % w - viewDistance + kz, j % w - viewDistance + kz, chunkSize);
    }
  }

  /** The candidates are written column by column: x never decreases, and
      within one x, z increases. */
  lemma CandidatesOrdered(chunkSize: int, viewDistance: int, kx: int, kz: int, i: int, j: int)
    requires chunkSize > 0
    requires 0 <= i < j < |Candidates(chunkSize, viewDistance, kx, kz)|
    ensures var cs := Candidates(chunkSize, viewDistance, kx, kz);
      cs[i].x < cs[j].x || (cs[i].x == cs[j].x && cs[i].z < cs[j].z)
  {
    var w := Side(viewDistance);
    DivModOrder(i, j, w);
    if i / w < j / w {
      MulLe(i / w - viewDistance + kx + 1, j / w - viewDistance + kx, chunkSize);
    } else {
      MulLe(i % w - viewDistance + kz + 1, j % w - viewDistance + kz, chunkSize);
    }
  }

  // ---------------------------------------------------------------------
  // The load/unload job.

  /** The squared distance from the ground-plane chunk corner to the player. */
  function SquaredDistance(c: Cell, p: Vec3): (d: real)
    ensures d >= 0.0
  {
    var dx := c.x as real - p.x;
    var dy := 0.0 - p.y;
    var dz := c.z as real - p.z;
    dx * dx + dy * dy + dz * dz
  }

  /** The unload radius: one chunk beyond the view distance. */
  function Radius(chunkSize: int, viewDistance: int): int {
    chunkSize * (viewDistance + 1)
  }

  /** What the job does for one candidate: a chunk farther than the radius
      is unloaded by destroying whatever object carries the clone name
      (the candidate's own position plays no part in that), any other is
      instantiated. The distance test is done on squares. */
  function Execute(c: Cell, p: Vec3, chunkSize: int, viewDistance: int): (call: HostCall)
    ensures call == Instantiate(c) || call == DestroyByName(CloneName)
  {
    var r := Radius(chunkSize, viewDistance);
    if r < 0 || SquaredDistance(c, p) > (r * r) as real then DestroyByName(CloneName)
    else Instantiate(c)
  }

  /** Execute's squared test is the Euclidean test: for the distance d (the
      non-negative root of the squared distance), the job unloads exactly
      when d exceeds the radius. */
  lemma ExecuteIsDistanceTest(c: Cell, p: Vec3, chunkSize: int, viewDistance: int, d: real)
    requires d >= 0.0 && d * d == SquaredDistance(c, p)
    ensures Execute(c, p, chunkSize, viewDistance).DestroyByName? <==> d > Radius(chunkSize, viewDistance) as real
  {
    var r := Radius(chunkSize, viewDistance);
    if r >= 0 {
      SquareMonotone(d, r as real);
      assert (r * r) as real == r as real * r as real;
    }
  }

  /** The host calls of one job over a buffer prefix, in slot order. */
  function JobCalls(entries: seq<Cell>, p: Vec3, chunkSize: int, viewDistance: int): (calls: seq<HostCall>)
    ensures |calls| == |entries|
  {
    seq(|entries|, k requires 0 <= k < |entries| => Execute(entries[k], p, chunkSize, viewDistance))
  }

  /** A chunk is instantiated by the job exactly when it is one of the
      entries and passes the distance test; every other call destroys the
      clone-named object. */
  lemma JobCallsMeaning(entries: seq<Cell>, p: Vec3, chunkSize: int, viewDistance: int, c: Cell)
    ensures Instantiate(c) in JobCalls(entries, p, chunkSize, viewDistance) <==>
      c in entries && Execute(c, p, chunkSize, viewDistance) == Instantiate(c)
    ensures forall call :: call in JobCalls(entries, p, chunkSize, viewDistance) && !call.Instantiate? ==>
      call == DestroyByName(CloneName)
  {
    var calls := JobCalls(entries, p, chunkSize, viewDistance);
    if Instantiate(c) in calls {
      var k :| 0 <= k < |calls| && calls[k] == Instantiate(c);
      assert entries[k] == c;
    }
    if c in entries && Execute(c, p, chunkSize, viewDistance) == Instantiate(c) {
      var k :| 0 <= k < |entries| && entries[k] == c;
      assert calls[k] == Instantiate(c);
    }
  }

  /** The job the loader runs when the player is in chunk `playerChunk`:
      the chunk index is re-derived from the aligned position. */
  function LoadUnloadCalls(playerChunk: Cell, p: Vec3, chunkSize: int, viewDistance: int): seq<HostCall>
    requires chunkSize > 0
  {
    var kx := ChunkIndex(playerChunk.x as real, chunkSize);
    var kz := ChunkIndex(playerChunk.z as real, chunkSize);
    JobCalls(Candidates(chunkSize, viewDistance, kx, kz), p, chunkSize, viewDistance)
  }

  /** What one chunk change loads: exactly the chunks of the box of radius
      viewDistance around the player's chunk that lie within the radius of
      the player. */
  lemma LoadedChunks(p: Vec3, chunkSize: int, viewDistance: int, c: Cell)
    requires chunkSize > 0
    ensures var pc := PlayerChunk(p, chunkSize);
      Instantiate(c) in LoadUnloadCalls(pc, p, chunkSize, viewDistance) <==>
        InBox(c, chunkSize, viewDistance, ChunkIndex(p.x, chunkSize), ChunkIndex(p.z, chunkSize)) &&
        Execute(c, p, chunkSize, viewDistance) == Instantiate(c)
  {
    var kx := ChunkIndex(p.x, chunkSize);
    var kz := ChunkIndex(p.z, chunkSize);
    ReDivide(kx, chunkSize);
    ReDivide(kz, chunkSize);
    var entries := Candidates(chunkSize, viewDistance, kx, kz);
    JobCallsMeaning(entries, p, chunkSize, viewDistance, c);
    CandidatesAreBox(chunkSize, viewDistance, kx, kz, c);
  }

  /** The radius of a view distance of at least one is at least two chunks. */
  lemma RadiusSquareBound(chunkSize: int, viewDistance: int)
    requires chunkSize > 0 && viewDistance >= 1
    ensures (Radius(chunkSize, viewDistance) * Radius(chunkSize, viewDistance)) as real >=
      4.0 * (chunkSize as real * chunkSize as real)
  {
    var r := Radius(chunkSize, viewDistance);
    var d := 2 * chunkSize;
    MulLe(2, viewDistance + 1, chunkSize);
    assert d <= r;
    MulLe(d, r, d);
    MulLe(d, r, r);
    assert d * d <= r * r;
    var s := chunkSize as real;
    assert (d * d) as real == d as real * d as real;
    assert d as real * d as real == 4.0 * (s * s);
  }

  /** The player's own chunk corner is within 2 chunks of the player. */
  lemma OwnChunkDistance(p: Vec3, chunkSize: int)
    requires chunkSize > 0
    requires p.y * p.y <= 2.0 * (chunkSize as real * chunkSize as real)
    ensures SquaredDistance(PlayerChunk(p, chunkSize), p) <= 4.0 * (chunkSize as real * chunkSize as real)
  {
    var c := PlayerChunk(p, chunkSize);
    var s := chunkSize as real;
    var dx := c.x as real - p.x;
    var dz := c.z as real - p.z;
    assert (c.x + chunkSize) as real == c.x as real + s;
    assert (c.z + chunkSize) as real == c.z as real + s;
    SquareBelow(dx, s);
    SquareBelow(dz, s);
    assert (0.0 - p.y) * (0.0 - p.y) == p.y * p.y;
  }

  /** With a view distance of at least one and the player no higher above
      the ground than sqrt(2) chunk sizes, the player's own chunk is always
      among the chunks loaded. */
  lemma OwnChunkLoaded(p: Vec3, chunkSize: int, viewDistance: int)
    requires chunkSize > 0 && viewDistance >= 1
    requires p.y * p.y <= 2.0 * (chunkSize as real * chunkSize as real)
    ensures Instantiate(PlayerChunk(p, chunkSize)) in LoadUnloadCalls(PlayerChunk(p, chunkSize), p, chunkSize, viewDistance)
  {
    var c := PlayerChunk(p, chunkSize);
    OwnChunkDistance(p, chunkSize);
    RadiusSquareBound(chunkSize, viewDistance);
    assert Execute(c, p, chunkSize, viewDistance) == Instantiate(c);
    var kx := ChunkIndex(p.x, chunkSize);
    var kz := ChunkIndex(p.z, chunkSize);
    MulDiv(kx, chunkSize);
    MulDiv(kz, chunkSize);
    assert InBox(c, chunkSize, viewDistance, kx, kz);
    LoadedChunks(p, chunkSize, viewDistance, c);
  }

  /** Chunk size 10, view distance 1, the player at (12, 0, 0) in chunk (1, 0):
      the job goes through the nine chunks of columns x = 0, 10, 20 and rows
      z = -10, 0, 10 and, all being within 20 units, instantiates every one
      of them (the six already present included) and unloads none. */
  lemma ScenarioStepRight()
    ensures PlayerChunk(Vec3(12.0, 0.0, 0.0), 10) == Cell(10, 0)
    ensures LoadUnloadCalls(Cell(10, 0), Vec3(12.0, 0.0, 0.0), 10, 1) ==
      [Instantiate(Cell(0, -10)), Instantiate(Cell(0, 0)), Instantiate(Cell(0, 10)),
       Instantiate(Cell(10, -10)), Instantiate(Cell(10, 0)), Instantiate(Cell(10, 10)),
       Instantiate(Cell(20, -10)), Instantiate(Cell(20, 0)), Instantiate(Cell(20, 10))]
  {
    ChunkIndexUnique(12.0, 10, 1);
    ChunkIndexUnique(0.0, 10, 0);
    ChunkIndexUnique(10.0, 10, 1);
    var entries := Candidates(10, 1, 1, 0);
    assert entries == [Cell(0, -10), Cell(0, 0), Cell(0, 10), Cell(10, -10), Cell(10, 0),
      Cell(10, 10), Cell(20, -10), Cell(20, 0), Cell(20, 10)];
  }

  /** The loaded set is not the whole box: with chunk size 10, view distance
      1 and the player at (9.5, 0, 9.5), the diagonal neighbour chunk at
      (-10, 0, -10) is a candidate but lies 27.6 units away, beyond the
      radius 20, so the job destroys a clone instead of loading it. */
  lemma ScenarioCornerUnloaded()
    ensures var p := Vec3(9.5, 0.0, 9.5);
      PlayerChunk(p, 10) == Cell(0, 0) &&
      Cell(-10, -10) in Candidates(10, 1, 0, 0) &&
      Execute(Cell(-10, -10), p, 10, 1) == DestroyByName(CloneName) &&
      Instantiate(Cell(-10, -10)) !in LoadUnloadCalls(Cell(0, 0), p, 10, 1)
  {
    var p := Vec3(9.5, 0.0, 9.5);
    ChunkIndexUnique(9.5, 10, 0);
    ChunkIndexUnique(0.0, 10, 0);
    assert Candidates(10, 1, 0, 0)[0] == Cell(-10, -10);
    JobCallsMeaning(Candidates(10, 1, 0, 0), p, 10, 1, Cell(-10, -10));
  }
}
