/**
 * The quad buffers of `src/renderer.rs`: one fixed-size vertex buffer per
 * texture (the UI spritesheet and the glyph cache), each holding up to
 * `MAX_QUADS` quads of 30 floats, with a quad count per texture. A quad is
 * appended while there is room; `render` uploads and draws each non-empty
 * buffer and empties it, remembering the largest upload per texture so that
 * a smaller one can reuse the GL buffer's storage.
 *
 * The static arrays are the fields of one object. The two textures' vertex
 * buffers lie one after the other in one array, as they do in memory. The
 * GL calls of `render` are returned as a list of what was uploaded and
 * drawn; shader, projection matrix and texture binding are not modelled.
 */
module Renderer {
  /** Floats in a quad: six vertices of position (x, y, z) and texture
      coordinates (u, v). */
  const TexQuadFloats: nat := 30
  /** `mem::size_of::<TexQuad>()`, in bytes. */
  const TexQuadBytes: nat := 120
  /** `MAX_QUADS`: as many quads as fit in 16 MB. */
  const MaxQuads: nat := 16000000 / TexQuadBytes
  /** `TEXTURE_COUNT`: the UI spritesheet and the glyph cache. */
  const TextureCount: nat := 2
  /** Floats in one texture's vertex buffer. */
  const BufferFloats: nat := MaxQuads * TexQuadFloats

  /** Which corner vertex `v` of a quad is: (right side?, bottom side?).
      The two triangles are (x0,y0) (x1,y0) (x1,y1) and (x0,y0) (x1,y1) (x0,y1). */
  function Corner(v: nat): (bool, bool)
    requires v < 6
  {
    if v == 0 || v == 3 then (false, false)
    else if v == 1 then (true, false)
    else if v == 2 || v == 4 then (true, true)
    else (false, true)
  }

  /** The `TexQuad` `draw_quad` builds. */
  function QuadVertices(x0: real, y0: real, x1: real, y1: real, z: real,
                        tx0: real, ty0: real, tx1: real, ty1: real): (q: seq<real>)
    ensures |q| == TexQuadFloats
  {
    [x0, y0, z, tx0, ty0, x1, y0, z, tx1, ty0, x1, y1, z, tx1, ty1,
     x0, y0, z, tx0, ty0, x1, y1, z, tx1, ty1, x0, y1, z, tx0, ty1]
  }

  /** Vertex `v` of `q` is its corner's position, `z`, and the matching
      corner of the texture rectangle. */
  predicate VertexAt(q: seq<real>, v: nat, x0: real, y0: real, x1: real, y1: real, z: real,
                     tx0: real, ty0: real, tx1: real, ty1: real)
    requires v < 6 && |q| == TexQuadFloats
  {
    var (right, bottom) := Corner(v);
    q[5 * v] == (if right then x1 else x0) && q[5 * v + 1] == (if bottom then y1 else y0) && q[5 * v + 2] == z &&
    q[5 * v + 3] == (if right then tx1 else tx0) && q[5 * v + 4] == (if bottom then ty1 else ty0)
  }

  /** Each of the six vertices of a quad sits on its corner. */
  lemma QuadCorners(x0: real, y0: real, x1: real, y1: real, z: real, tx0: real, ty0: real, tx1: real, ty1: real)
    ensures var q := QuadVertices(x0, y0, x1, y1, z, tx0, ty0, tx1, ty1);
      forall v :: 0 <= v < 6 ==> VertexAt(q, v, x0, y0, x1, y1, z, tx0, ty0, tx1, ty1)
  {
    var q := QuadVertices(x0, y0, x1, y1, z, tx0, ty0, tx1, ty1);
    TriangleCorners(q, 0, x0, y0, x1, y1, z, tx0, ty0, tx1, ty1);
    TriangleCorners(q, 3, x0, y0, x1, y1, z, tx0, ty0, tx1, ty1);
  }

  /** The vertices of the triangle that starts at vertex `first`. */
  lemma TriangleCorners(q: seq<real>, first: nat, x0: real, y0: real, x1: real, y1: real, z: real,
                        tx0: real, ty0: real, tx1: real, ty1: real)
    requires q == QuadVertices(x0, y0, x1, y1, z, tx0, ty0, tx1, ty1) && (first == 0 || first == 3)
    ensures forall v :: first <= v < first + 3 ==> VertexAt(q, v, x0, y0, x1, y1, z, tx0, ty0, tx1, ty1)
  {
    assert VertexAt(q, first, x0, y0, x1, y1, z, tx0, ty0, tx1, ty1);
    assert VertexAt(q, first + 1, x0, y0, x1, y1, z, tx0, ty0, tx1, ty1);
    assert VertexAt(q, first + 2, x0, y0, x1, y1, z, tx0, ty0, tx1, ty1);
  }

  /** The two triangles cover the four corners of the quad and share the
      diagonal from (x0,y0) to (x1,y1), so they tile it. */
  lemma TrianglesTileQuad()
    ensures {Corner(0), Corner(1), Corner(2), Corner(3), Corner(4), Corner(5)} ==
            {(false, false), (true, false), (true, true), (false, true)}
    ensures {Corner(0), Corner(1), Corner(2)} * {Corner(3), Corner(4), Corner(5)} == {(false, false), (true, true)}
  {
  }

  /** Where slot `slot` of texture `tex` starts in the vertex buffers. */
  function SlotStart(tex: nat, slot: nat): nat
  {
    tex * BufferFloats + slot * TexQuadFloats
  }

  /** The buffers with the 30 floats from `start` on replaced by `quad`. */
  function WriteSlot(buffers: seq<real>, start: nat, quad: seq<real>): (b: seq<real>)
    requires |quad| == TexQuadFloats && start + TexQuadFloats <= |buffers|
    ensures |b| == |buffers|
  {
    buffers[..start] + quad + buffers[start + TexQuadFloats..]
  }

  /** Reading a written slot gives the quad back, and nothing outside the
      slot changes. */
  lemma WriteSlotSpec(buffers: seq<real>, start: nat, quad: seq<real>)
    requires |quad| == TexQuadFloats && start + TexQuadFloats <= |buffers|
    ensures var b := WriteSlot(buffers, start, quad);
      b[start..start + TexQuadFloats] == quad &&
      forall j :: 0 <= j < |b| && !(start <= j < start + TexQuadFloats) ==> b[j] == buffers[j]
  {
    var b := WriteSlot(buffers, start, quad);
    assert b[start..start + TexQuadFloats] == quad;
  }

  /** A slot of a texture lies inside that texture's buffer. */
  lemma SlotInsideTexture(tex: nat, slot: nat)
    requires slot < MaxQuads
    ensures tex * BufferFloats <= SlotStart(tex, slot)
    ensures SlotStart(tex, slot) + TexQuadFloats <= (tex + 1) * BufferFloats
  {
    assert slot * TexQuadFloats + TexQuadFloats == (slot + 1) * TexQuadFloats;
    assert (slot + 1) * TexQuadFloats <= MaxQuads * TexQuadFloats;
  }

  // ---------------------------------------------------------------------
  // render

  /** What `render` does with one texture: the bytes it uploads, whether
      it reallocates the GL buffer (`BufferData`) or reuses its storage
      (`BufferSubData`), and the vertices it draws. */
  datatype Upload = Upload(texIndex: nat, bytes: nat, reallocated: bool, vertices: nat)

  /** One texture in `render`: nothing for an empty buffer; otherwise the
      upload, and the allocated size grows to the upload when it does not
      fit the storage allocated before. */
  function RenderOne(tex: nat, count: nat, allocSize: int): (r: (seq<Upload>, int))
  {
    if count == 0 then ([], allocSize)
    else
      var bytes := TexQuadBytes * count;
      if bytes < allocSize then ([Upload(tex, bytes, false, count * 6)], allocSize)
      else ([Upload(tex, bytes, true, count * 6)], bytes)
  }

  /** A texture's allocated size never shrinks; after an upload it holds the
      upload; the storage is reused only for an upload that fits it; and
      every quad is drawn as six vertices. */
  lemma RenderOneSpec(tex: nat, count: nat, allocSize: int)
    ensures var (ups, allocSize') := RenderOne(tex, count, allocSize);
      allocSize' >= allocSize &&
      (count == 0 <==> ups == []) &&
      (count > 0 ==> |ups| == 1 && ups[0].texIndex == tex && ups[0].bytes == TexQuadBytes * count &&
                     ups[0].vertices == 6 * count && allocSize' >= ups[0].bytes &&
                     (!ups[0].reallocated ==> ups[0].bytes < allocSize))
  {
  }

  /** `render` over the first `n` textures: their uploads in texture
      order. */
  function RenderUpTo(counts: seq<nat>, allocSize: seq<int>, n: nat): seq<Upload>
    requires |counts| == |allocSize| && n <= |counts|
  {
    if n == 0 then [] else RenderUpTo(counts, allocSize, n - 1) + RenderOne(n - 1, counts[n - 1], allocSize[n - 1]).0
  }

  /** The allocated sizes after `render`. */
  function AllocatedAfter(counts: seq<nat>, allocSize: seq<int>): (a: seq<int>)
    requires |counts| == |allocSize|
    ensures |a| == |allocSize|
  {
    seq(|counts|, t requires 0 <= t < |counts| => RenderOne(t, counts[t], allocSize[t]).1)
  }

  /** The uploads of `render` draw every queued quad: as many vertices as
      six times the quads queued on the first `n` textures. */
  lemma {:induction false} RenderDrawsEveryQuad(counts: seq<nat>, allocSize: seq<int>, n: nat)
    requires |counts| == |allocSize| && n <= |counts|
    ensures VerticesOf(RenderUpTo(counts, allocSize, n)) == 6 * SumTo(counts, n)
  {
    if n > 0 {
      RenderOneSpec(n - 1, counts[n - 1], allocSize[n - 1]);
      VerticesAppend(RenderUpTo(counts, allocSize, n - 1), RenderOne(n - 1, counts[n - 1], allocSize[n - 1]).0);
      RenderDrawsEveryQuad(counts, allocSize, n - 1);
    }
  }

  function VerticesOf(ups: seq<Upload>): nat
  {
    if |ups| == 0 then 0 else ups[0].vertices + VerticesOf(ups[1..])
  }

  function SumTo(counts: seq<nat>, n: nat): nat
    requires n <= |counts|
  {
    if n == 0 then 0 else SumTo(counts, n - 1) + counts[n - 1]
  }

  lemma {:induction false} VerticesAppend(a: seq<Upload>, b: seq<Upload>)
    ensures VerticesOf(a + b) == VerticesOf(a) + VerticesOf(b)
  {
    if |a| > 0 {
      assert (a + b)[0] == a[0] && (a + b)[1..] == a[1..] + b;
      VerticesAppend(a[1..], b);
    } else {
      assert a + b == b;
    }
  }

  // ---------------------------------------------------------------------
  // gl_error_to_string

  /** The GL error codes with a name. */
  const ErrorNames: map<nat, string> := map[
    0x0500 := "GL_INVALID_ENUM",
    0x0501 := "GL_INVALID_VALUE",
    0x0502 := "GL_INVALID_OPERATION",
    0x0503 := "GL_STACK_OVERFLOW",
    0x0504 := "GL_STACK_UNDERFLOW",
    0x0505 := "GL_OUT_OF_MEMORY",
    0x0506 := "GL_INVALID_FRAMEBUFFER_OPERATION",
    0x0507 := "GL_CONTEXT_LOST",
    0x0531 := "GL_TABLE_TOO_LARGE"]

  /** `gl_error_to_string`: the name of a listed code, "unknown error" for
      any other. */
  function GlErrorToString(error: nat): (s: string)
    ensures error in ErrorNames ==> s == ErrorNames[error]
    ensures error !in ErrorNames ==> s == "unknown error"
  {
    match error
    case 0x0500 => "GL_INVALID_ENUM"
    case 0x0501 => "GL_INVALID_VALUE"
    case 0x0502 => "GL_INVALID_OPERATION"
    case 0x0503 => "GL_STACK_OVERFLOW"
    case 0x0504 => "GL_STACK_UNDERFLOW"
    case 0x0505 => "GL_OUT_OF_MEMORY"
    case 0x0506 => "GL_INVALID_FRAMEBUFFER_OPERATION"
    case 0x0507 => "GL_CONTEXT_LOST"
    case 0x0531 => "GL_TABLE_TOO_LARGE"
    case _ => "unknown error"
  }

  /** Different listed codes get different names, none of them "unknown error". */
  lemma ErrorNamesDistinct(a: nat, b: nat)
    requires a in ErrorNames && b in ErrorNames && a != b
    ensures GlErrorToString(a) != GlErrorToString(b)
    ensures GlErrorToString(a) != "unknown error"
  {
  }

  // ---------------------------------------------------------------------
  // The copy as written

  /** `ptr::copy(src, dst, count)` with `f32` elements moves `count` floats.
      `draw_quad` passes `mem::size_of::<TexQuad>()`, a size in bytes, as
      the count: 120 floats from the 30-float local quad, the 90 floats
      after it being whatever lies next to it in memory (`beyond`). */
  function CopyAsWritten(buffers: seq<real>, start: nat, quad: seq<real>, beyond: seq<real>): (b: seq<real>)
    requires |quad| == TexQuadFloats && |beyond| == TexQuadBytes - TexQuadFloats
    requires start + TexQuadBytes <= |buffers|
    ensures |b| == |buffers|
  {
    buffers[..start] + quad + beyond + buffers[start + TexQuadBytes..]
  }

  /** As written, the last quad that fits in the UI texture's buffer is
      copied with 90 floats more, which land on the first three quads of
      the glyph cache texture's buffer. */
  lemma AsWrittenOverwritesGlyphQuads(buffers: seq<real>, quad: seq<real>, beyond: seq<real>)
    requires |buffers| == TextureCount * BufferFloats
    requires |quad| == TexQuadFloats && |beyond| == TexQuadBytes - TexQuadFloats
    ensures var start := SlotStart(0, MaxQuads - 1);
      var b := CopyAsWritten(buffers, start, quad, beyond);
      SlotStart(1, 0) == start + TexQuadFloats &&
      b[SlotStart(1, 0)..SlotStart(1, 3)] == beyond
  {
    var start := SlotStart(0, MaxQuads - 1);
    var b := CopyAsWritten(buffers, start, quad, beyond);
    assert b[start + TexQuadFloats..start + TexQuadBytes] == beyond;
  }

  /** As written, the last three quads of the glyph cache texture's buffer
      are copied past the end of the vertex buffers. */
  lemma AsWrittenRunsPastTheEnd(slot: nat)
    requires MaxQuads - 3 <= slot < MaxQuads
    ensures SlotStart(1, slot) + TexQuadBytes > TextureCount * BufferFloats
  {
  }

  // ---------------------------------------------------------------------
  // The buffers

  class QuadBuffers {
    /** `QUAD_COUNTS`. */
    const quadCounts: array<nat>
    /** `VERTEX_BUFFERS`, texture after texture. */
    const vertexBuffers: array<real>
    /** `ALLOCATED_BUFFER_SIZES`, in bytes; -1 before the first upload. */
    const allocatedBufferSizes: array<int>

    ghost predicate Valid()
      reads this, quadCounts
    {
      quadCounts.Length == TextureCount && allocatedBufferSizes.Length == TextureCount &&
      vertexBuffers.Length == TextureCount * BufferFloats &&
      forall t :: 0 <= t < TextureCount ==> quadCounts[t] <= MaxQuads
    }

    /** The statics as initialised: no quads, zeroed buffers, nothing
        allocated. */
    constructor ()
      ensures Valid()
      ensures quadCounts[..] == [0, 0] && allocatedBufferSizes[..] == [-1, -1]
      ensures forall j :: 0 <= j < vertexBuffers.Length ==> vertexBuffers[j] == 0.0
      ensures fresh(quadCounts) && fresh(vertexBuffers) && fresh(allocatedBufferSizes)
    {
      quadCounts := new nat[TextureCount](_ => 0);
      vertexBuffers := new real[TextureCount * BufferFloats](_ => 0.0);
      allocatedBufferSizes := new int[TextureCount](_ => -1);
      new;
      assert quadCounts[..] == [0, 0];
      assert allocatedBufferSizes[..] == [-1, -1];
    }

    /** `draw_quad`, copying the quad's 30 floats into the next free slot
        of its texture's buffer while there is one; at capacity the quad is
        dropped. Only that texture's count and slot change. */
    method DrawQuad(coords: (real, real, real, real), texcoords: (real, real, real, real), z: real, texIndex: nat)
      requires Valid() && texIndex < TextureCount
      requires quadCounts != allocatedBufferSizes as object
      modifies quadCounts, vertexBuffers
      ensures Valid()
      ensures var count := old(quadCounts[texIndex]);
        var quad := QuadVertices(coords.0, coords.1, coords.2, coords.3, z, texcoords.0, texcoords.1, texcoords.2, texcoords.3);
        if count < MaxQuads then
          quadCounts[..] == old(quadCounts[..])[texIndex := count + 1] &&
          vertexBuffers[..] == WriteSlot(old(vertexBuffers[..]), SlotStart(texIndex, count), quad)
        else
          quadCounts[..] == old(quadCounts[..]) && vertexBuffers[..] == old(vertexBuffers[..])
    {
      var count := quadCounts[texIndex];
      if count < MaxQuads {
        var (x0, y0, x1, y1) := coords;
        var (tx0, ty0, tx1, ty1) := texcoords;
        var quad := QuadVertices(x0, y0, x1, y1, z, tx0, ty0, tx1, ty1);
        var start := SlotStart(texIndex, count);
        SlotInsideTexture(texIndex, count);
        CopyQuad(start, quad);
        quadCounts[texIndex] := count + 1;
      }
    }

    /** The copy of `draw_quad`: the 30 floats of `quad` from `start` on. */
    method CopyQuad(start: nat, quad: seq<real>)
      requires |quad| == TexQuadFloats && start + TexQuadFloats <= vertexBuffers.Length
      modifies vertexBuffers
      ensures vertexBuffers[..] == WriteSlot(old(vertexBuffers[..]), start, quad)
    {
      for k := 0 to TexQuadFloats
        invariant forall j :: 0 <= j < vertexBuffers.Length ==>
          vertexBuffers[j] == if start <= j < start + k then quad[j - start] else old(vertexBuffers[j])
      {
        vertexBuffers[start + k] := quad[k];
      }
      assert vertexBuffers[..] == WriteSlot(old(vertexBuffers[..]), start, quad);
    }

    /** `render`: for each texture in order, skipping empty ones, the
        upload and draw, the allocated size bookkeeping, and the count
        reset. */
    method Render() returns (uploads: seq<Upload>)
      requires Valid() && quadCounts != allocatedBufferSizes as object
      modifies quadCounts, allocatedBufferSizes
      ensures Valid()
      ensures uploads == RenderUpTo(old(quadCounts[..]), old(allocatedBufferSizes[..]), TextureCount)
      ensures allocatedBufferSizes[..] == AllocatedAfter(old(quadCounts[..]), old(allocatedBufferSizes[..]))
      ensures quadCounts[..] == [0, 0]
    {
      ghost var counts, allocSize := quadCounts[..], allocatedBufferSizes[..];
      uploads := [];
      for texIndex := 0 to TextureCount
        invariant Valid()
        invariant uploads == RenderUpTo(counts, allocSize, texIndex)
        invariant forall t :: 0 <= t < texIndex ==>
          quadCounts[t] == 0 && allocatedBufferSizes[t] == RenderOne(t, counts[t], allocSize[t]).1
        invariant forall t :: texIndex <= t < TextureCount ==>
          quadCounts[t] == counts[t] && allocatedBufferSizes[t] == allocSize[t]
      {
        var count := quadCounts[texIndex];
        if count == 0 {
          continue;
        }
        var bufferLength := TexQuadBytes * count;
        if bufferLength < allocatedBufferSizes[texIndex] {
          uploads := uploads + [Upload(texIndex, bufferLength, false, count * 6)];
        } else {
          allocatedBufferSizes[texIndex] := bufferLength;
          uploads := uploads + [Upload(texIndex, bufferLength, true, count * 6)];
        }
        quadCounts[texIndex] := 0;
      }
      assert allocatedBufferSizes[..] == AllocatedAfter(counts, allocSize);
    }
  }
}
