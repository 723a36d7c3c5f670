/**
 * Quad batches: the instances one draw call submits, collected on the CPU
 * each frame and copied into a GPU vertex buffer that grows, to the next
 * power of two, when a frame needs more room than it has. The renderer keeps
 * three batches, drawn in order: backgrounds, glyphs, decorations.
 *
 * The GPU buffer is modelled as a value recording its capacity (in
 * instances) and the instances written to its front.
 */
module Batches {
  import opened Pipeline

  /** `INITIAL_BATCH_CAPACITY`, in instances. */
  const InitialBatchCapacity: nat := 65536

  const U32Modulus: nat := 0x1_0000_0000

  predicate IsPowerOfTwo(n: nat)
    decreases n
  {
    n == 1 || (n >= 2 && n % 2 == 0 && IsPowerOfTwo(n / 2))
  }

  /** `usize::next_power_of_two`: the least power of two that is at least `n`. */
  function NextPowerOfTwo(n: nat): (p: nat)
    ensures IsPowerOfTwo(p) && p >= n && p >= 1
    decreases n
  {
    if n <= 1 then 1 else 2 * NextPowerOfTwo((n + 1) / 2)
  }

  /** No power of two at least `n` is below `NextPowerOfTwo(n)`. */
  lemma {:induction false} NextPowerOfTwoLeast(n: nat, k: nat)
    requires IsPowerOfTwo(k) && k >= n
    ensures NextPowerOfTwo(n) <= k
    decreases n
  {
    if n > 1 {
      assert k >= 2 && k % 2 == 0;
      NextPowerOfTwoLeast((n + 1) / 2, k / 2);
    }
  }

  /** A GPU vertex buffer: how many instances it holds, and the instances
      written to its front so far. */
  datatype GpuBuffer = GpuBuffer(capacity: nat, contents: seq<QuadInstance>)

  /** `create_buffer`: a fresh buffer of `capacity` instances
      (`capacity * size_of::<QuadInstance>()` bytes). */
  function CreateBuffer(capacity: nat): (b: GpuBuffer)
    ensures b.capacity == capacity && b.contents == []
  {
    GpuBuffer(capacity, [])
  }

  /** `queue.write_buffer(buffer, 0, data)`: `data` overwrites the front of the
      buffer, which must be large enough to take it. */
  function WriteBuffer(b: GpuBuffer, data: seq<QuadInstance>): (b': GpuBuffer)
    requires |data| <= b.capacity && |b.contents| <= b.capacity
    ensures b'.capacity == b.capacity && |b'.contents| <= b'.capacity
    ensures |b'.contents| >= |data| && |b'.contents| >= |b.contents| && b'.contents[..|data|] == data
    ensures forall i :: |data| <= i < |b.contents| ==> b'.contents[i] == b.contents[i]
  {
    if |data| <= |b.contents| then GpuBuffer(b.capacity, data + b.contents[|data|..])
    else GpuBuffer(b.capacity, data)
  }

  /** The instances pushed onto the three batches of a `RenderBatcher`. */
  datatype Quads = Quads(backgrounds: seq<QuadInstance>, glyphs: seq<QuadInstance>, decorations: seq<QuadInstance>)
  {
    /** These quads followed by `next`, batch by batch. */
    function Then(next: Quads): Quads
    {
      Quads(backgrounds + next.backgrounds, glyphs + next.glyphs, decorations + next.decorations)
    }
  }

  const NoQuads := Quads([], [], [])

  /** Appending in two steps is appending once. */
  lemma ThenAssoc(a: Quads, b: Quads, c: Quads)
    ensures a.Then(b).Then(c) == a.Then(b.Then(c))
  {
    assert a.backgrounds + b.backgrounds + c.backgrounds == a.backgrounds + (b.backgrounds + c.backgrounds);
    assert a.glyphs + b.glyphs + c.glyphs == a.glyphs + (b.glyphs + c.glyphs);
    assert a.decorations + b.decorations + c.decorations == a.decorations + (b.decorations + c.decorations);
  }

  /** Nothing appended changes nothing, on either side. */
  lemma ThenNoQuads(a: Quads)
    ensures a.Then(NoQuads) == a && NoQuads.Then(a) == a
  {
    assert a.backgrounds + [] == a.backgrounds && a.glyphs + [] == a.glyphs && a.decorations + [] == a.decorations;
  }

  class QuadBatch {
    var instances: seq<QuadInstance>
    var buffer: GpuBuffer
    var capacity: nat

    /** The buffer is exactly `capacity` instances large and holds no more than that. */
    ghost predicate Valid()
      reads this
    {
      buffer.capacity == capacity && |buffer.contents| <= capacity
    }

    /** `new`: an empty batch of the initial capacity. */
    constructor ()
      ensures Valid()
      ensures instances == [] && capacity == InitialBatchCapacity && buffer == CreateBuffer(InitialBatchCapacity)
    {
      instances := [];
      capacity := InitialBatchCapacity;
      buffer := CreateBuffer(InitialBatchCapacity);
    }

    /** `with_capacity`: an empty batch whose buffer holds `capacity` instances. */
    constructor WithCapacity(capacity: nat)
      ensures Valid()
      ensures instances == [] && this.capacity == capacity && buffer == CreateBuffer(capacity)
    {
      instances := [];
      this.capacity := capacity;
      buffer := CreateBuffer(capacity);
    }

    /** `clear`: drops the instances but keeps the buffer and its capacity. */
    method Clear()
      modifies this
      ensures instances == []
      ensures buffer == old(buffer) && capacity == old(capacity)
    {
      instances := [];
    }

    /** `is_empty`. */
    function IsEmpty(): (b: bool)
      reads this
      ensures b <==> |instances| == 0
    {
      instances == []
    }

    /** `len`: the number of instances pushed since the last `clear`. */
    function Len(): (n: nat)
      reads this
      ensures n == |instances|
    {
      |instances|
    }

    /** `push_background`: one untextured quad at the end. */
    method PushBackground(x: real, y: real, width: real, height: real, color: Rgba)
      modifies this
      ensures instances == old(instances) + [Background(x, y, width, height, color)]
      ensures |instances| == |old(instances)| + 1
      ensures buffer == old(buffer) && capacity == old(capacity)
    {
      instances := instances + [Background(x, y, width, height, color)];
    }

    /** `push_glyph`: one textured quad at the end. */
    method PushGlyph(x: real, y: real, width: real, height: real,
                     uvX: real, uvY: real, uvW: real, uvH: real, color: Rgba, isColored: bool)
      modifies this
      ensures instances == old(instances) + [Glyph(x, y, width, height, uvX, uvY, uvW, uvH, color, isColored)]
      ensures |instances| == |old(instances)| + 1
      ensures buffer == old(buffer) && capacity == old(capacity)
    {
      instances := instances + [Glyph(x, y, width, height, uvX, uvY, uvW, uvH, color, isColored)];
    }

    /** `upload`: an empty batch does nothing; otherwise a buffer too small
        for the instances is replaced by one of the next power of two, and the
        instances are written to its front. */
    method Upload()
      requires Valid()
      modifies this
      ensures Valid()
      ensures instances == old(instances)
      ensures old(instances) == [] ==> buffer == old(buffer) && capacity == old(capacity)
      ensures |instances| > old(capacity) ==> capacity == NextPowerOfTwo(|instances|)
      ensures |instances| <= old(capacity) ==> capacity == old(capacity)
      ensures capacity >= old(capacity)
      ensures instances != [] ==> capacity >= |instances| && |buffer.contents| >= |instances|
      ensures instances != [] ==> buffer.contents[..|instances|] == instances
    {
      if instances == [] {
        return;
      }
      if |instances| > capacity {
        var newCapacity := NextPowerOfTwo(|instances|);
        buffer := CreateBuffer(newCapacity);
        capacity := newCapacity;
      }
      buffer := WriteBuffer(buffer, instances);
    }

    /** `vertex_count`: six vertices per instance, truncated to 32 bits. */
    function VertexCount(): (n: nat)
      reads this
      ensures n < U32Modulus
      ensures 6 * |instances| < U32Modulus ==> n == 6 * |instances|
    {
      (|instances| * 6) % U32Modulus
    }

    /** `instance_count`: the number of instances, truncated to 32 bits. */
    function InstanceCount(): (n: nat)
      reads this
      ensures n < U32Modulus
      ensures |instances| < U32Modulus ==> n == |instances|
    {
      |instances| % U32Modulus
    }

    /** While no count wraps, each instance is drawn as six vertices. */
    lemma SixVerticesPerInstance()
      requires 6 * |instances| < U32Modulus
      ensures VertexCount() == 6 * InstanceCount()
    {
    }
  }

  class RenderBatcher {
    const backgrounds: QuadBatch
    const glyphs: QuadBatch
    const decorations: QuadBatch

    /** Three separate, well-formed batches. */
    ghost predicate Valid()
      reads this, backgrounds, glyphs, decorations
    {
      && backgrounds != glyphs && glyphs != decorations && backgrounds != decorations
      && backgrounds.Valid() && glyphs.Valid() && decorations.Valid()
    }

    /** What the three batches hold. */
    function Contents(): (q: Quads)
      reads backgrounds, glyphs, decorations
      ensures q.backgrounds == backgrounds.instances && q.glyphs == glyphs.instances
      ensures q.decorations == decorations.instances
    {
      Quads(backgrounds.instances, glyphs.instances, decorations.instances)
    }

    /** `new`: three empty batches of the initial capacity. */
    constructor ()
      ensures Valid() && fresh(backgrounds) && fresh(glyphs) && fresh(decorations)
      ensures Contents() == NoQuads
      ensures backgrounds.capacity == InitialBatchCapacity && glyphs.capacity == InitialBatchCapacity
      ensures decorations.capacity == InitialBatchCapacity
    {
      backgrounds := new QuadBatch();
      glyphs := new QuadBatch();
      decorations := new QuadBatch();
    }

    /** `clear`: empties all three batches; their buffers stay. */
    method Clear()
      requires Valid()
      modifies backgrounds, glyphs, decorations
      ensures Valid()
      ensures Contents() == NoQuads
      ensures backgrounds.capacity == old(backgrounds.capacity) && glyphs.capacity == old(glyphs.capacity)
      ensures decorations.capacity == old(decorations.capacity)
    {
      backgrounds.Clear();
      glyphs.Clear();
      decorations.Clear();
    }

    /** `push_background`: onto the backgrounds batch only. */
    method PushBackground(x: real, y: real, width: real, height: real, color: Rgba)
      requires Valid()
      modifies backgrounds
      ensures Valid()
      ensures Contents() == old(Contents()).Then(Quads([Background(x, y, width, height, color)], [], []))
      ensures backgrounds.capacity == old(backgrounds.capacity)
    {
      backgrounds.PushBackground(x, y, width, height, color);
    }

    /** `push_glyph`: onto the glyphs batch only. */
    method PushGlyph(x: real, y: real, width: real, height: real,
                     uvX: real, uvY: real, uvW: real, uvH: real, color: Rgba, isColored: bool)
      requires Valid()
      modifies glyphs
      ensures Valid()
      ensures Contents() == old(Contents()).Then(Quads([], [Glyph(x, y, width, height, uvX, uvY, uvW, uvH, color, isColored)], []))
      ensures glyphs.capacity == old(glyphs.capacity)
    {
      glyphs.PushGlyph(x, y, width, height, uvX, uvY, uvW, uvH, color, isColored);
    }

    /** `push_decoration`: an untextured quad onto the decorations batch only. */
    method PushDecoration(x: real, y: real, width: real, height: real, color: Rgba)
      requires Valid()
      modifies decorations
      ensures Valid()
      ensures Contents() == old(Contents()).Then(Quads([], [], [Background(x, y, width, height, color)]))
      ensures decorations.capacity == old(decorations.capacity)
    {
      decorations.PushBackground(x, y, width, height, color);
    }

    /** `upload`: each batch uploads its own instances. */
    method Upload()
      requires Valid()
      modifies backgrounds, glyphs, decorations
      ensures Valid()
      ensures Contents() == old(Contents())
      ensures backgrounds.instances != [] ==> backgrounds.capacity >= |backgrounds.instances|
      ensures glyphs.instances != [] ==> glyphs.capacity >= |glyphs.instances|
      ensures decorations.instances != [] ==> decorations.capacity >= |decorations.instances|
      ensures backgrounds.capacity >= old(backgrounds.capacity) && glyphs.capacity >= old(glyphs.capacity)
      ensures decorations.capacity >= old(decorations.capacity)
    {
      backgrounds.Upload();
      glyphs.Upload();
      decorations.Upload();
    }
  }
}
