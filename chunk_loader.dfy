/** The chunk loader component: seeds the world with the chunks around the
    origin, then on every frame works out the player's chunk and, when it
    differs from the last one seen, runs the load/unload job over the chunks
    around it. The engine calls it makes (creating a chunk, destroying one
    found by name) are recorded, in order, in `hostCalls`. */
module ChunkLoading {
  import opened Wrappers
  import opened ChunkGrid

  /** The component's default chunk size, in world units. */
  const DefaultChunkSize := 10

  /** The component's default view distance, in chunks. */
  const DefaultViewDistance := 5

  /** The bootstrap's calls: one instantiation per chunk of the box of
      radius viewDistance around chunk (0, 0), in loop order. */
  function InitialCalls(chunkSize: int, viewDistance: int): (calls: seq<HostCall>)
    ensures |calls| == |Candidates(chunkSize, viewDistance, 0, 0)|
  {
    var cells := Candidates(chunkSize, viewDistance, 0, 0);
    seq(|cells|, k requires 0 <= k < |cells| => Instantiate(cells[k]))
  }

  /** The bootstrap creates exactly the chunks of the box around the origin
      and destroys nothing. */
  lemma InitialCallsAreBox(chunkSize: int, viewDistance: int, c: Cell)
    requires chunkSize > 0
    ensures Instantiate(c) in InitialCalls(chunkSize, viewDistance) <==> InBox(c, chunkSize, viewDistance, 0, 0)
    ensures forall call :: call in InitialCalls(chunkSize, viewDistance) ==> call.Instantiate?
  {
    var cells := Candidates(chunkSize, viewDistance, 0, 0);
    var calls := InitialCalls(chunkSize, viewDistance);
    CandidatesAreBox(chunkSize, viewDistance, 0, 0, c);
    if Instantiate(c) in calls {
      var k :| 0 <= k < |calls| && calls[k] == Instantiate(c);
      assert cells[k] == c;
    }
    if c in cells {
      var k :| 0 <= k < |cells| && cells[k] == c;
      assert calls[k] == Instantiate(c);
    }
  }

  class ChunkLoader {
    const chunkSize: int
    const viewDistance: int
    /** The chunk the player was last seen in; none before the first frame. */
    var lastPlayerChunk: Option<Cell>
    /** Every engine call made so far, oldest first. */
    var hostCalls: seq<HostCall>

    constructor(chunkSize: int, viewDistance: int)
      ensures this.chunkSize == chunkSize && this.viewDistance == viewDistance
      ensures lastPlayerChunk == None && hostCalls == []
    {
      this.chunkSize := chunkSize;
      this.viewDistance := viewDistance;
      lastPlayerChunk := None;
      hostCalls := [];
    }

    /** The bootstrap: instantiates the chunk at (x * size, 0, z * size) for
        every x and z from -viewDistance to viewDistance, x in the outer
        loop. (The engine spreads it over frames, one chunk per frame.) */
    method GenerateInitialTerrain()
      modifies this`hostCalls
      ensures hostCalls == old(hostCalls) + InitialCalls(chunkSize, viewDistance)
    {
      ghost var start := hostCalls;
      ghost var cells := Candidates(chunkSize, viewDistance, 0, 0);
      ghost var index := 0;
      var x := -viewDistance;
      while x <= viewDistance
        invariant x == -viewDistance || -viewDistance < x <= viewDistance + 1
        invariant index == Slot(viewDistance, x, -viewDistance)
        invariant 0 <= index <= |cells|
        invariant hostCalls == start + InitialCalls(chunkSize, viewDistance)[..index]
      {
        var z := -viewDistance;
        while z <= viewDistance
          invariant -viewDistance <= z <= viewDistance + 1
          invariant index == Slot(viewDistance, x, z)
          invariant 0 <= index <= |cells|
          invariant hostCalls == start + InitialCalls(chunkSize, viewDistance)[..index]
        {
          SlotHolds(chunkSize, viewDistance, 0, 0, x, z);
          assert InitialCalls(chunkSize, viewDistance)[..index + 1] ==
            InitialCalls(chunkSize, viewDistance)[..index] + [Instantiate(Cell(x * chunkSize, z * chunkSize))];
          hostCalls := hostCalls + [Instantiate(Cell(x * chunkSize, z * chunkSize))];
          SlotNext(viewDistance, x, z);
          index := index + 1;
          z := z + 1;
        }
        SlotNext(viewDistance, x, viewDistance);
        x := x + 1;
      }
      assert index == |cells| by {
        if viewDistance >= 0 {
          assert Slot(viewDistance, viewDistance + 1, -viewDistance) == BufferLength(viewDistance);
        }
      }
    }

    /** One frame: when the player's chunk differs from the last one seen
        (or none has been seen yet), the chunks around it are loaded and
        unloaded and the chunk is remembered; otherwise nothing happens. */
    method Update(playerPosition: Vec3)
      requires chunkSize > 0
      modifies this
      ensures var playerChunk := PlayerChunk(playerPosition, chunkSize);
        if old(lastPlayerChunk) == Some(playerChunk) then
          hostCalls == old(hostCalls) && lastPlayerChunk == old(lastPlayerChunk)
        else
          hostCalls == old(hostCalls) + LoadUnloadCalls(playerChunk, playerPosition, chunkSize, viewDistance) &&
          lastPlayerChunk == Some(playerChunk)
    {
      var playerChunk := Cell(
        ChunkIndex(playerPosition.x, chunkSize) * chunkSize,
        ChunkIndex(playerPosition.z, chunkSize) * chunkSize);
      if lastPlayerChunk != Some(playerChunk) {
        LoadUnloadChunks(playerChunk, playerPosition);
        lastPlayerChunk := Some(playerChunk);
      }
    }

    /** Fills the candidate buffer around `playerChunk` and runs the
        load/unload job over the entries written. */
    method LoadUnloadChunks(playerChunk: Cell, playerPosition: Vec3)
      requires chunkSize > 0
      modifies this`hostCalls
      ensures hostCalls == old(hostCalls) + LoadUnloadCalls(playerChunk, playerPosition, chunkSize, viewDistance)
    {
      var chunkPositions, index := FillCandidates(playerChunk);
      var calls := RunLoadUnloadJob(chunkPositions, index, playerPosition);
      hostCalls := hostCalls + calls;
    }

    /** The candidate buffer: (2 * viewDistance + 1) squared entries, the
        first `index` of them written with the chunks around `playerChunk`
        in loop order and the rest left at the origin. */
    method FillCandidates(playerChunk: Cell) returns (chunkPositions: array<Cell>, index: int)
      requires chunkSize > 0
      ensures chunkPositions.Length == BufferLength(viewDistance)
      ensures index == |Candidates(chunkSize, viewDistance, ChunkIndex(playerChunk.x as real, chunkSize), ChunkIndex(playerChunk.z as real, chunkSize))|
      ensures 0 <= index <= chunkPositions.Length
      ensures chunkPositions[..index] == Candidates(chunkSize, viewDistance, ChunkIndex(playerChunk.x as real, chunkSize), ChunkIndex(playerChunk.z as real, chunkSize))
      ensures forall k :: index <= k < chunkPositions.Length ==> chunkPositions[k] == Cell(0, 0)
    {
      ghost var kx := ChunkIndex(playerChunk.x as real, chunkSize);
      ghost var kz := ChunkIndex(playerChunk.z as real, chunkSize);
      ghost var cells := Candidates(chunkSize, viewDistance, kx, kz);
      chunkPositions := new Cell[BufferLength(viewDistance)](_ => Cell(0, 0));
      index := 0;
      var x := -viewDistance;
      while x <= viewDistance
        invariant x == -viewDistance || -viewDistance < x <= viewDistance + 1
        invariant index == Slot(viewDistance, x, -viewDistance)
        invariant 0 <= index <= |cells|
        invariant chunkPositions[..index] == cells[..index]
        invariant forall k :: index <= k < chunkPositions.Length ==> chunkPositions[k] == Cell(0, 0)
      {
        var z := -viewDistance;
        while z <= viewDistance
          invariant -viewDistance <= z <= viewDistance + 1
          invariant index == Slot(viewDistance, x, z)
          invariant 0 <= index <= |cells|
          invariant chunkPositions[..index] == cells[..index]
          invariant forall k :: index <= k < chunkPositions.Length ==> chunkPositions[k] == Cell(0, 0)
        {
          SlotHolds(chunkSize, viewDistance, kx, kz, x, z);
          chunkPositions[index] := Cell(
            (x + ChunkIndex(playerChunk.x as real, chunkSize)) * chunkSize,
            (z + ChunkIndex(playerChunk.z as real, chunkSize)) * chunkSize);
          assert chunkPositions[..index + 1] == cells[..index + 1] by {
            assert chunkPositions[..index + 1] == chunkPositions[..index] + [chunkPositions[index]];
            assert cells[..index + 1] == cells[..index] + [cells[index]];
          }
          SlotNext(viewDistance, x, z);
          index := index + 1;
          z := z + 1;
        }
        SlotNext(viewDistance, x, viewDistance);
        x := x + 1;
      }
      assert index == |cells| by {
        if viewDistance >= 0 {
          assert Slot(viewDistance, viewDistance + 1, -viewDistance) == BufferLength(viewDistance);
        }
      }
    }

    /** The load/unload job over the first `count` buffer entries: Execute
        for every index. The engine may run the indices in parallel; they
        are taken here in index order. */
    method RunLoadUnloadJob(chunkPositions: array<Cell>, count: int, playerPosition: Vec3) returns (calls: seq<HostCall>)
      requires 0 <= count <= chunkPositions.Length
      ensures calls == JobCalls(chunkPositions[..count], playerPosition, chunkSize, viewDistance)
    {
      calls := [];
      var index := 0;
      while index < count
        invariant 0 <= index <= count
        invariant calls == JobCalls(chunkPositions[..index], playerPosition, chunkSize, viewDistance)
      {
        calls := calls + [Execute(chunkPositions[index], playerPosition, chunkSize, viewDistance)];
        index := index + 1;
      }
    }
  }

  /** What one frame of the component does with the last-chunk reference as
      the component declares it: a reference that nothing ever assigns, so
      still null (`None` here) on every frame, whose position the frame
      reads before anything else. */
  datatype FrameOutcome = NullReference | SameChunk | ChunkChanged(playerChunk: Cell)

  function UpdateAsWritten(lastPlayerChunk: Option<Cell>, playerChunk: Cell): (outcome: FrameOutcome)
    ensures outcome == NullReference <==> lastPlayerChunk == None
  {
    match lastPlayerChunk
    case None => NullReference
    case Some(last) => if playerChunk != last then ChunkChanged(playerChunk) else SameChunk
  }

  /** The reference after one as-written frame. A frame never assigns the
      reference itself, only the position of the object it points to, so
      a null reference stays null and a live one ends at the player's chunk. */
  function ReferenceAfterAsWritten(reference: Option<Cell>, playerChunk: Cell): (next: Option<Cell>)
    ensures next == None <==> reference == None
    ensures next != None ==> next == Some(playerChunk)
  {
    match reference
    case None => None
    case Some(_) => Some(playerChunk)
  }

  /** The outcomes of a run of frames as the component is written, starting
      from `reference` and carrying it from one frame to the next. */
  function FramesAsWritten(reference: Option<Cell>, playerPositions: seq<Vec3>, chunkSize: int): (outcomes: seq<FrameOutcome>)
    requires chunkSize > 0
    ensures |outcomes| == |playerPositions|
    decreases |playerPositions|
  {
    if playerPositions == [] then []
    else
      var playerChunk := PlayerChunk(playerPositions[0], chunkSize);
      [UpdateAsWritten(reference, playerChunk)] +
        FramesAsWritten(ReferenceAfterAsWritten(reference, playerChunk), playerPositions[1..], chunkSize)
  }

  /** As declared, the reference starts null and no frame assigns it, so
      every frame of every run fails before the job runs, and no chunk
      beyond the bootstrap is ever loaded. */
  lemma {:induction false} AsWrittenEveryFrameFails(playerPositions: seq<Vec3>, chunkSize: int)
    requires chunkSize > 0
    ensures forall k :: 0 <= k < |playerPositions| ==>
      FramesAsWritten(None, playerPositions, chunkSize)[k] == NullReference
    decreases |playerPositions|
  {
    if playerPositions != [] {
      var rest := playerPositions[1..];
      AsWrittenEveryFrameFails(rest, chunkSize);
      var playerChunk := PlayerChunk(playerPositions[0], chunkSize);
      assert ReferenceAfterAsWritten(None, playerChunk) == None;
      assert FramesAsWritten(None, playerPositions, chunkSize) ==
        [NullReference] + FramesAsWritten(None, rest, chunkSize);
    }
  }

  /** With "no chunk seen yet" as the starting state, the first frame loads
      the chunks around the player and a second frame in the same chunk
      makes no engine call at all. */
  method FirstFrameLoadsSecondIsQuiet(chunkSize: int, viewDistance: int, playerPosition: Vec3)
    returns (first: seq<HostCall>, second: seq<HostCall>)
    requires chunkSize > 0
    ensures first == LoadUnloadCalls(PlayerChunk(playerPosition, chunkSize), playerPosition, chunkSize, viewDistance)
    ensures second == []
  {
    var loader := new ChunkLoader(chunkSize, viewDistance);
    loader.Update(playerPosition);
    first := loader.hostCalls;
    loader.Update(playerPosition);
    second := loader.hostCalls[|first|..];
  }
}
