/**
 * The window sample (D3D12HelloWindow.cpp): the ring of back buffers and its
 * render-target descriptors, the fence that keeps the CPU from running ahead
 * of the GPU, the command lists it records, the box geometry it draws, and the
 * mouse bookkeeping of the orbit camera.
 *
 * The GPU side of the fence is a counter that only moves forward; the value it
 * shows when the CPU looks is a parameter of `WaitForPreviousFrame`. Heap
 * addresses and descriptor sizes are parameters too.
 */
module HelloWindow {
  import opened Wrappers
  import opened Arith

  // ---------------------------------------------------------------------------
  // Render-target descriptors
  // ---------------------------------------------------------------------------

  /**
   * The CPU handle of descriptor n in a heap that starts at heapStart, as
   * `CD3DX12_CPU_DESCRIPTOR_HANDLE(start, n, size)` computes it.
   */
  function DescriptorHandle(heapStart: nat, n: nat, descriptorSize: nat): nat {
    heapStart + n * descriptorSize
  }

  /**
   * The loop that creates one render-target view per back buffer: the handle
   * starts at the heap start and is moved on by one descriptor after each view.
   * The views land exactly where indexing the heap would put them.
   */
  method LayoutRenderTargetViews(heapStart: nat, descriptorSize: nat, count: nat)
    returns (handles: seq<nat>)
    ensures |handles| == count
    ensures forall n :: 0 <= n < count ==> handles[n] == DescriptorHandle(heapStart, n, descriptorSize)
  {
    var rtvHandle := heapStart;
    handles := [];
    var n := 0;
    while n < count
      invariant n <= count && |handles| == n
      invariant rtvHandle == DescriptorHandle(heapStart, n, descriptorSize)
      invariant forall k :: 0 <= k < n ==> handles[k] == DescriptorHandle(heapStart, k, descriptorSize)
    {
      handles := handles + [rtvHandle];        // CreateRenderTargetView(m_renderTargets[n], rtvHandle)
      rtvHandle := rtvHandle + descriptorSize;  // rtvHandle.Offset(1, m_rtvDescriptorSize)
      n := n + 1;
    }
  }

  /**
   * With a non-zero descriptor size, the views of different back buffers never
   * share a descriptor, and each lies inside a heap of count descriptors.
   */
  lemma DescriptorHandlesDisjoint(heapStart: nat, size: nat, count: nat, n: nat, m: nat)
    requires size > 0 && n < count && m < count && n != m
    ensures DescriptorHandle(heapStart, n, size) + size <= DescriptorHandle(heapStart, m, size) ||
            DescriptorHandle(heapStart, m, size) + size <= DescriptorHandle(heapStart, n, size)
    ensures DescriptorHandle(heapStart, n, size) + size <= heapStart + count * size
  {
    if n < m {
      MulMonotone(n + 1, m, size);
    } else {
      MulMonotone(m + 1, n, size);
    }
    MulMonotone(n + 1, count, size);
  }

  // ---------------------------------------------------------------------------
  // The back-buffer ring
  // ---------------------------------------------------------------------------

  /** The back buffer after the current one is presented: `(m_frameIndex + 1) % m_frameCount`. */
  function NextFrameIndex(i: nat, frameCount: nat): (j: nat)
    requires frameCount > 0
    ensures j < frameCount
  {
    (i + 1) % frameCount
  }

  /** The back-buffer index after k frames have been rendered, starting from i. */
  function FrameIndexAfter(i: nat, frameCount: nat, k: nat): nat
    requires frameCount > 0
  {
    if k == 0 then i else NextFrameIndex(FrameIndexAfter(i, frameCount, k - 1), frameCount)
  }

  /** After k frames, the ring has moved on by k places, modulo its size. */
  lemma {:induction false} FrameIndexAfterIsModular(i: nat, frameCount: nat, k: nat)
    requires frameCount > 0 && i < frameCount
    ensures FrameIndexAfter(i, frameCount, k) == (i + k) % frameCount
  {
    if k == 0 {
      ModUnique(i, frameCount, 0, i);
    } else {
      FrameIndexAfterIsModular(i, frameCount, k - 1);
      NextOfRemainder(i + k - 1, frameCount);
    }
  }

  /** Advancing the ring from x mod n lands on (x + 1) mod n. */
  lemma NextOfRemainder(x: nat, frameCount: nat)
    requires frameCount > 0
    ensures NextFrameIndex(x % frameCount, frameCount) == (x + 1) % frameCount
  {
    ModSucc(x, frameCount);
  }

  /** Every back buffer takes its turn: buffer j is current (j - i) mod n frames after buffer i, and after n frames the ring is back where it started. */
  lemma FrameRingVisitsEvery(i: nat, frameCount: nat, j: nat)
    requires frameCount > 0 && i < frameCount && j < frameCount
    ensures FrameIndexAfter(i, frameCount, (j + frameCount - i) % frameCount) == j
    ensures FrameIndexAfter(i, frameCount, frameCount) == i
  {
    var k := (j + frameCount - i) % frameCount;
    FrameIndexAfterIsModular(i, frameCount, k);
    FrameIndexAfterIsModular(i, frameCount, frameCount);
    if j >= i {
      ModUnique(j + frameCount - i, frameCount, 1, j - i);
      ModUnique(j, frameCount, 0, j);
    } else {
      ModUnique(j + frameCount - i, frameCount, 0, j + frameCount - i);
      ModUnique(j + frameCount, frameCount, 1, j);
    }
    ModUnique(i + frameCount, frameCount, 1, i);
  }

  /** ((x mod n) + 1) mod n == (x + 1) mod n. */
  lemma ModSucc(x: nat, n: nat)
    requires n > 0
    ensures ((x % n) + 1) % n == (x + 1) % n
  {
    var q, r := x / n, x % n;
    assert x == q * n + r;
    if r + 1 < n {
      ModUnique(x + 1, n, q, r + 1);
      ModUnique(r + 1, n, 0, r + 1);
    } else {
      MulSplit(q, 1, n);
      ModUnique(x + 1, n, q + 1, 0);
      ModUnique(r + 1, n, 1, 0);
    }
  }

  // ---------------------------------------------------------------------------
  // The fence
  // ---------------------------------------------------------------------------

  /** The fence values n successive `WaitForPreviousFrame` calls signal, the first being start. */
  function SignalledValues(start: nat, n: nat): (r: seq<nat>)
    ensures |r| == n
  {
    if n == 0 then [] else SignalledValues(start, n - 1) + [start + n - 1]
  }

  /** The k-th signalled value is start + k. */
  lemma {:induction false} SignalledValuesAt(start: nat, n: nat, k: nat)
    requires k < n
    ensures SignalledValues(start, n)[k] == start + k
  {
    if k < n - 1 {
      SignalledValuesAt(start, n - 1, k);
    }
  }

  /** Successive signalled values strictly increase, so no value is signalled twice. */
  lemma SignalledStrictlyIncreasing(start: nat, n: nat, j: nat, k: nat)
    requires j < k < n
    ensures SignalledValues(start, n)[j] < SignalledValues(start, n)[k]
  {
    SignalledValuesAt(start, n, j);
    SignalledValuesAt(start, n, k);
  }

  // ---------------------------------------------------------------------------
  // Recorded commands and geometry
  // ---------------------------------------------------------------------------

  /** The two resource states the back buffers move between. */
  datatype ResourceState = Present | RenderTarget

  /** The commands the model tracks in a recorded command list. */
  datatype Command =
    | Barrier(backBuffer: nat, before: ResourceState, after: ResourceState)
    | ClearRenderTarget(rtvHandle: nat)
    | DrawIndexed(indexCountPerInstance: nat, instanceCount: nat, startIndex: nat,
                  baseVertex: int, startInstance: nat)

  /** 16-bit unsigned integers (`std::uint16_t`), the index format `DXGI_FORMAT_R16_UINT`. */
  newtype u16 = x: int | 0 <= x < 0x1_0000

  /** `SubmeshGeometry`: a range of the index buffer, drawn from a base vertex. */
  datatype Submesh = Submesh(indexCount: nat, startIndexLocation: nat, baseVertexLocation: int)

  /** `MeshGeometry`, without its GPU and CPU buffer objects. */
  datatype MeshGeometry = MeshGeometry(
    name: string,
    vertexCount: nat,
    indices: seq<u16>,
    vertexByteStride: nat,
    vertexBufferByteSize: nat,
    indexBufferByteSize: nat,
    drawArgs: map<string, Submesh>)

  /** `sizeof(Vertex)`: an `XMFLOAT3` position and an `XMFLOAT4` colour. */
  const VertexByteSize: nat := 3 * 4 + 4 * 4

  /** `sizeof(std::uint16_t)`. */
  const IndexByteSize: nat := 2

  /** The box's eight corners, two triangles per face, in the order the sample lists them. */
  const BoxIndices: seq<u16> := [
    0, 1, 2, 0, 2, 3,   // front
    4, 6, 5, 4, 7, 6,   // back
    4, 5, 1, 4, 1, 0,   // left
    3, 2, 6, 3, 6, 7,   // right
    1, 5, 6, 1, 6, 2,   // top
    4, 0, 3, 4, 3, 7    // bottom
  ]

  /** The geometry `BuildOwnGeometry` stores in `m_geometry`. */
  function BoxGeometry(): (g: MeshGeometry)
    ensures g.vertexCount == 8 && |g.indices| == 36 && |g.indices| % 3 == 0
    ensures forall i :: 0 <= i < |g.indices| ==> g.indices[i] as nat < g.vertexCount
    ensures g.vertexBufferByteSize == g.vertexCount * g.vertexByteStride == 224
    ensures g.indexBufferByteSize == |g.indices| * IndexByteSize == 72
    ensures "box" in g.drawArgs && g.drawArgs["box"] == Submesh(|g.indices|, 0, 0)
  {
    MeshGeometry("boxGeo", 8, BoxIndices, VertexByteSize, 8 * VertexByteSize,
                 |BoxIndices| * IndexByteSize, map["box" := Submesh(|BoxIndices|, 0, 0)])
  }

  /** The box's twelve triangles are proper ones, and every corner is used. */
  lemma BoxTrianglesWellFormed()
    ensures |BoxIndices| == 36
    ensures forall t :: 0 <= t < 12 ==>
      BoxIndices[3 * t] != BoxIndices[3 * t + 1] &&
      BoxIndices[3 * t + 1] != BoxIndices[3 * t + 2] &&
      BoxIndices[3 * t] != BoxIndices[3 * t + 2]
    ensures forall v: u16 :: 0 <= v < 8 ==> v in BoxIndices
  {
  }

  /**
   * The index count `DrawArgs["box"]` yields. `std::unordered_map::operator[]`
   * inserts a zeroed entry when the key is missing, so the count is then 0.
   */
  function BoxIndexCount(g: MeshGeometry): nat {
    if "box" in g.drawArgs then g.drawArgs["box"].indexCount else 0
  }

  /** The geometry after `DrawArgs["box"]` was looked up: the entry exists. */
  function WithBoxEntry(g: MeshGeometry): (h: MeshGeometry)
    ensures "box" in h.drawArgs && BoxIndexCount(h) == BoxIndexCount(g)
    ensures "box" in g.drawArgs ==> h == g
  {
    if "box" in g.drawArgs then g else g.(drawArgs := g.drawArgs["box" := Submesh(0, 0, 0)])
  }

  /** Drawing the box geometry draws every one of its indices. */
  lemma BoxDrawCoversAllIndices()
    ensures BoxIndexCount(BoxGeometry()) == |BoxGeometry().indices| == 36
  {
  }

  // ---------------------------------------------------------------------------
  // Mouse bookkeeping
  // ---------------------------------------------------------------------------

  /** `MK_LBUTTON` and `MK_RBUTTON` in the button-state word. */
  const MkLButton: bv64 := 0x0001
  const MkRButton: bv64 := 0x0002

  /**
   * What a mouse move does to the orbit camera, in pixels moved since the last
   * stored position: with the left button it orbits, otherwise with the right
   * button it zooms, otherwise nothing.
   */
  datatype CameraGesture = Orbit(dx: int, dy: int) | Zoom(dx: int, dy: int) | NoGesture

  /** The button test of `OnMouseMove`: the left button is looked at first. */
  function Gesture(btnState: bv64, dx: int, dy: int): (g: CameraGesture)
    ensures g.Orbit? <==> btnState & MkLButton != 0
    ensures g.Zoom? <==> btnState & MkLButton == 0 && btnState & MkRButton != 0
    ensures !g.NoGesture? ==> g.dx == dx && g.dy == dy
  {
    if btnState & MkLButton != 0 then Orbit(dx, dy)
    else if btnState & MkRButton != 0 then Zoom(dx, dy)
    else NoGesture
  }

  /**
   * The per-move offsets along one axis that successive `OnMouseMove` calls
   * compute, starting from the stored coordinate p0 and moving to each of ps.
   */
  function MoveDeltas(p0: int, ps: seq<int>): seq<int>
    decreases |ps|
  {
    if ps == [] then [] else [ps[0] - p0] + MoveDeltas(ps[0], ps[1..])
  }

  function Sum(s: seq<int>): int {
    if s == [] then 0 else s[0] + Sum(s[1..])
  }

  /**
   * Because every move stores its position, whatever buttons are held, the
   * offsets of a drag add up to the distance from the first to the last
   * position: no motion is lost or counted twice.
   */
  lemma {:induction false} MoveDeltasTelescope(p0: int, ps: seq<int>)
    requires ps != []
    ensures Sum(MoveDeltas(p0, ps)) == ps[|ps| - 1] - p0
    decreases |ps|
  {
    if |ps| > 1 {
      MoveDeltasTelescope(ps[0], ps[1..]);
    }
  }

  // ---------------------------------------------------------------------------
  // The sample object
  // ---------------------------------------------------------------------------

  /** The fields of `D3D12HelloWindow` (and of its `DXSample` base) that the modelled code uses. */
  class HelloWindowSample {
    const frameCount: nat
    var frameIndex: nat
    var swapChainBufferCount: nat
    var rtvHeapDescriptorCount: nat
    var rtvHeapStart: nat
    var rtvDescriptorSize: nat
    /** Where a render-target view was created for each back buffer; empty before `LoadPipeline`. */
    var rtvHandles: seq<nat>
    var hasFence: bool
    var fenceValue: nat
    /** The completed value of the GPU fence object `m_fence`. */
    var fenceCompleted: nat
    /** The values signalled on the command queue so far, oldest first. */
    ghost var signalled: seq<nat>
    var hasFenceEvent: bool
    var geometry: Option<MeshGeometry>
    var lastMouseX: int
    var lastMouseY: int

    /**
     * The current back buffer is one of the ring; the render-target views, once
     * created, sit at consecutive descriptors of the heap; once the fence exists,
     * every value signalled so far has completed and the next one to signal is
     * the one after the last.
     */
    ghost predicate Valid()
      reads this
    {
      frameCount > 0 && frameIndex < frameCount &&
      (rtvHandles != [] ==>
        |rtvHandles| == frameCount &&
        forall n :: 0 <= n < frameCount ==> rtvHandles[n] == DescriptorHandle(rtvHeapStart, n, rtvDescriptorSize)) &&
      (hasFence ==> fenceValue >= 1 && fenceCompleted + 1 == fenceValue && signalled == SignalledValues(1, fenceValue - 1))
    }

    /** The object as constructed, with the defaults of DXSample.h. */
    constructor (frameCount: nat)
      requires frameCount > 0
      ensures Valid()
      ensures this.frameCount == frameCount && frameIndex == 0 && rtvDescriptorSize == 0
      ensures fenceValue == 0 && !hasFence && !hasFenceEvent && rtvHandles == [] && geometry == None
    {
      this.frameCount := frameCount;
      frameIndex := 0;
      swapChainBufferCount, rtvHeapDescriptorCount := 0, 0;
      rtvHeapStart, rtvDescriptorSize, rtvHandles := 0, 0, [];
      hasFence, fenceValue, fenceCompleted, signalled := false, 0, 0, [];
      hasFenceEvent := false;
      geometry := None;
      lastMouseX, lastMouseY := 0, 0;
    }

    /**
     * The swap-chain and descriptor part of `LoadPipeline`: as many back buffers
     * as descriptors, the current back buffer as the swap chain reports it, and
     * one render-target view per buffer.
     */
    method LoadPipeline(currentBackBuffer: nat, heapStart: nat, descriptorSize: nat)
      requires Valid() && currentBackBuffer < frameCount
      modifies this`swapChainBufferCount, this`rtvHeapDescriptorCount, this`frameIndex,
               this`rtvHeapStart, this`rtvDescriptorSize, this`rtvHandles
      ensures Valid()
      ensures swapChainBufferCount == frameCount && rtvHeapDescriptorCount == frameCount
      ensures frameIndex == currentBackBuffer
      ensures rtvHeapStart == heapStart && rtvDescriptorSize == descriptorSize
      ensures |rtvHandles| == frameCount
      ensures forall n :: 0 <= n < frameCount ==> rtvHandles[n] == DescriptorHandle(heapStart, n, descriptorSize)
    {
      swapChainBufferCount := frameCount;
      frameIndex := currentBackBuffer;
      rtvHeapDescriptorCount := frameCount;
      rtvHeapStart := heapStart;
      rtvDescriptorSize := descriptorSize;
      rtvHandles := LayoutRenderTargetViews(heapStart, descriptorSize, frameCount);
    }

    /**
     * The synchronisation part of `LoadAssets`: the fence is created with
     * completed value 0 and the first value to signal is 1; a failure to create
     * the event handle throws.
     */
    method LoadAssets(eventCreated: bool) returns (thrown: bool)
      requires Valid()
      modifies this`hasFence, this`fenceValue, this`fenceCompleted, this`signalled, this`hasFenceEvent
      ensures Valid()
      ensures hasFence && fenceCompleted == 0 && fenceValue == 1 && signalled == []
      ensures hasFenceEvent == eventCreated && thrown == !eventCreated
    {
      hasFence, fenceCompleted := true, 0;
      signalled := [];
      fenceValue := 1;
      hasFenceEvent := eventCreated;
      thrown := !eventCreated;
    }

    /**
     * `WaitForPreviousFrame`: signals the current fence value, moves it on by
     * one, and blocks only when the GPU has not yet reached the signalled value.
     * `reported` is what `GetCompletedValue` returns: never behind the last
     * completed value, never ahead of what has been signalled.
     */
    method WaitForPreviousFrame(reported: nat) returns (waited: bool)
      requires Valid() && hasFence
      requires fenceCompleted <= reported <= fenceValue
      modifies this`fenceValue, this`fenceCompleted, this`signalled
      ensures Valid()
      ensures signalled == old(signalled) + [old(fenceValue)]
      ensures fenceValue == old(fenceValue) + 1
      ensures waited <==> reported < old(fenceValue)
      ensures fenceCompleted == old(fenceValue)
    {
      var fence := fenceValue;
      signalled := signalled + [fence];
      fenceValue := fenceValue + 1;
      waited := reported < fence;
      if waited {
        // SetEventOnCompletion(fence, m_fenceEvent) and WaitForSingleObject:
        // the GPU reaches the signalled value, and no value beyond it exists.
        fenceCompleted := fence;
      } else {
        fenceCompleted := reported;
      }
    }

    /** `BuildOwnGeometry`: the box, with its single "box" submesh. */
    method BuildOwnGeometry()
      modifies this`geometry
      ensures geometry == Some(BoxGeometry())
    {
      geometry := Some(BoxGeometry());
    }

    /**
     * The part of `OnRender` the model tracks: the current back buffer is moved
     * to the render-target state, the "box" submesh is drawn once from index 0
     * and vertex 0, and after presenting the next buffer of the ring becomes
     * current.
     */
    method OnRender() returns (commands: seq<Command>)
      requires Valid() && geometry.Some?
      modifies this`frameIndex, this`geometry
      ensures Valid()
      ensures frameIndex == NextFrameIndex(old(frameIndex), frameCount)
      ensures geometry == Some(WithBoxEntry(old(geometry).value))
      ensures commands == [Barrier(old(frameIndex), Present, RenderTarget),
                           DrawIndexed(BoxIndexCount(old(geometry).value), 1, 0, 0, 0)]
    {
      var transition := Barrier(frameIndex, Present, RenderTarget);
      var g := WithBoxEntry(geometry.value);
      geometry := Some(g);
      var draw := DrawIndexed(g.drawArgs["box"].indexCount, 1, 0, 0, 0);
      commands := [transition, draw];
      frameIndex := (frameIndex + 1) % frameCount;
    }

    /**
     * `PopulateCommandList`: the current back buffer goes to the render-target
     * state, is cleared through the view created for it, and goes back to the
     * present state.
     */
    method PopulateCommandList() returns (commands: seq<Command>)
      requires Valid() && rtvHandles != []
      ensures |commands| == 3
      ensures commands[0] == Barrier(frameIndex, Present, RenderTarget)
      ensures commands[1] == ClearRenderTarget(rtvHandles[frameIndex])
      ensures commands[2] == Barrier(frameIndex, RenderTarget, Present)
    {
      var rtvHandle := DescriptorHandle(rtvHeapStart, frameIndex, rtvDescriptorSize);
      commands := [
        Barrier(frameIndex, Present, RenderTarget),
        ClearRenderTarget(rtvHandle),
        Barrier(frameIndex, RenderTarget, Present)
      ];
    }

    /** `OnMouseDown`: the pointer position is stored. */
    method OnMouseDown(btnState: bv64, x: int, y: int)
      modifies this`lastMouseX, this`lastMouseY
      ensures lastMouseX == x && lastMouseY == y
    {
      lastMouseX, lastMouseY := x, y;
    }

    /**
     * `OnMouseMove`: the camera gesture for the offsets from the stored
     * position, which is then replaced by the new one whatever was held.
     */
    method OnMouseMove(btnState: bv64, x: int, y: int) returns (gesture: CameraGesture)
      modifies this`lastMouseX, this`lastMouseY
      ensures gesture == Gesture(btnState, x - old(lastMouseX), y - old(lastMouseY))
      ensures lastMouseX == x && lastMouseY == y
    {
      if btnState & MkLButton != 0 {
        gesture := Orbit(x - lastMouseX, y - lastMouseY);
      } else if btnState & MkRButton != 0 {
        gesture := Zoom(x - lastMouseX, y - lastMouseY);
      } else {
        gesture := NoGesture;
      }
      lastMouseX, lastMouseY := x, y;
    }
  }
}
