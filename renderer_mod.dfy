/**
 * The quad buffers of `src/renderer/mod.rs`: the same per-texture vertex
 * buffers and quad counts as `src/renderer.rs`, the same `draw_quad`, and
 * a `render` that uploads every texture's buffer with a fresh allocation,
 * draws it, and empties it, whether or not it holds any quads.
 *
 * The quad layout, the slots, the error names and the copy as written are
 * those of module `Renderer`; this module adds the buffers of this version
 * and its `render`.
 */
module RendererMod {
  import opened Renderer

  /** What `render` does with one texture: `BufferData` of `bytes` and
      `DrawArrays` of `vertices`. */
  datatype Draw = Draw(texIndex: nat, bytes: nat, vertices: nat)

  /** `render` over the first `n` textures, empty ones included. */
  function DrawsUpTo(counts: seq<nat>, n: nat): (ds: seq<Draw>)
    requires n <= |counts|
    ensures |ds| == n
  {
    if n == 0 then [] else DrawsUpTo(counts, n - 1) + [Draw(n - 1, TexQuadBytes * counts[n - 1], counts[n - 1] * 6)]
  }

  /** Every texture gets a draw, in texture order, uploading its quads and
      drawing six vertices per quad. */
  lemma {:induction false} DrawsEveryTexture(counts: seq<nat>, n: nat)
    requires n <= |counts|
    ensures forall t :: 0 <= t < n ==>
      DrawsUpTo(counts, n)[t] == Draw(t, TexQuadBytes * counts[t], 6 * counts[t])
  {
    if n > 0 {
      DrawsEveryTexture(counts, n - 1);
    }
  }

  class Buffers {
    /** `QUAD_COUNTS`. */
    const quadCounts: array<nat>
    /** `VERTEX_BUFFERS`, texture after texture. */
    const vertexBuffers: array<real>

    ghost predicate Valid()
      reads this, quadCounts
    {
      quadCounts.Length == TextureCount && vertexBuffers.Length == TextureCount * BufferFloats &&
      forall t :: 0 <= t < TextureCount ==> quadCounts[t] <= MaxQuads
    }

    /** The statics as initialised: no quads, zeroed buffers. */
    constructor ()
      ensures Valid()
      ensures quadCounts[..] == [0, 0]
      ensures forall j :: 0 <= j < vertexBuffers.Length ==> vertexBuffers[j] == 0.0
      ensures fresh(quadCounts) && fresh(vertexBuffers)
    {
      quadCounts := new nat[TextureCount](_ => 0);
      vertexBuffers := new real[TextureCount * BufferFloats](_ => 0.0);
      new;
      assert quadCounts[..] == [0, 0];
    }

    /** `draw_quad`, copying the quad's 30 floats into the next free slot
        of its texture's buffer while there is one; at capacity nothing
        changes. */
    method DrawQuad(x0: real, y0: real, x1: real, y1: real, z: real,
                    tx0: real, ty0: real, tx1: real, ty1: real, texIndex: nat)
      requires Valid() && texIndex < TextureCount
      modifies quadCounts, vertexBuffers
      ensures Valid()
      ensures var count := old(quadCounts[texIndex]);
        if count < MaxQuads then
          quadCounts[..] == old(quadCounts[..])[texIndex := count + 1] &&
          vertexBuffers[..] == WriteSlot(old(vertexBuffers[..]), SlotStart(texIndex, count),
                                         QuadVertices(x0, y0, x1, y1, z, tx0, ty0, tx1, ty1))
        else
          quadCounts[..] == old(quadCounts[..]) && vertexBuffers[..] == old(vertexBuffers[..])
    {
      var count := quadCounts[texIndex];
      if count < MaxQuads {
        var quad := QuadVertices(x0, y0, x1, y1, z, tx0, ty0, tx1, ty1);
        var start := SlotStart(texIndex, count);
        SlotInsideTexture(texIndex, count);
        CopyQuad(start, quad);
        quadCounts[texIndex] := count + 1;
      }
    }

    /** The copy of `draw_quad`: the 30 floats of `quad` from `start` on. */
    method CopyQuad(start: nat, quad: seq<real>)
      requires |quad| == TexQuadFloats && start + TexQuadFloats <= vertexBuffers.Length
      modifies vertexBuffers
      ensures vertexBuffers[..] == WriteSlot(old(vertexBuffers[..]), start, quad)
    {
      for k := 0 to TexQuadFloats
        invariant forall j :: 0 <= j < vertexBuffers.Length ==>
          vertexBuffers[j] == if start <= j < start + k then quad[j - start] else old(vertexBuffers[j])
      {
        vertexBuffers[start + k] := quad[k];
      }
      assert vertexBuffers[..] == WriteSlot(old(vertexBuffers[..]), start, quad);
    }

    /** `render`: every texture uploaded and drawn in order, and every
        count reset to zero. */
    method Render() returns (draws: seq<Draw>)
      requires Valid()
      modifies quadCounts
      ensures Valid()
      ensures draws == DrawsUpTo(old(quadCounts[..]), TextureCount)
      ensures quadCounts[..] == [0, 0]
    {
      ghost var counts := quadCounts[..];
      draws := [];
      for texIndex := 0 to TextureCount
        invariant Valid()
        invariant draws == DrawsUpTo(counts, texIndex)
        invariant forall t :: 0 <= t < texIndex ==> quadCounts[t] == 0
        invariant forall t :: texIndex <= t < TextureCount ==> quadCounts[t] == counts[t]
      {
        var count := quadCounts[texIndex];
        draws := draws + [Draw(texIndex, TexQuadBytes * count, count * 6)];
        quadCounts[texIndex] := 0;
      }
      assert quadCounts[..] == [0, 0];
    }
  }
}
