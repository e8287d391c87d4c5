/**
  The records the text renderer works with: shaped glyphs as the shaping
  library hands them over, cached glyph descriptors, the six-vertex quad
  drawn for each glyph, and the facts about the glyph cache and the pen
  that the renderer's loop relies on. Positions and advances are in 1/64
  pixel, the shaping library's fixed-point unit.
*/
module Glyphs {
  import opened Wrappers

  /** One glyph of a shaped run: the value left in the codepoint field (after shaping, the
      glyph index FreeType is asked to render) and its offsets and advances in 1/64 pixel. */
  datatype ShapedGlyph = ShapedGlyph(codepoint: nat, xOffset: int, yOffset: int, xAdvance: int, yAdvance: int)

  /** A cached glyph: its texture name and its bitmap size in pixels. */
  datatype CharGlyph = CharGlyph(texId: nat, height: nat, width: nat)

  /** The value-initialised descriptor returned when rasterization fails. */
  const ZeroGlyph: CharGlyph := CharGlyph(0, 0, 0)

  /** The size of a rendered bitmap, in pixels. */
  datatype Bitmap = Bitmap(width: nat, rows: nat)

  /** Rendering a glyph: its bitmap, or None when the font engine reports an error. */
  type Rasterizer = nat -> Option<Bitmap>

  /** A vertex of the text shader: position in 1/64 pixel and texture coordinates. */
  datatype Vertex = Vertex(x: int, y: int, u: int, v: int)

  /** One draw call: the bound texture and the six vertices in the vertex buffer. */
  datatype DrawCall = DrawCall(texture: nat, vertices: seq<Vertex>)

  /** Fixed-point units per pixel. */
  const Subpixel: nat := 64

  /** The two triangles covering `[xpos, xpos + w] x [ypos, ypos + h]`. */
  function GlyphQuad(xpos: int, ypos: int, w: nat, h: nat): (q: seq<Vertex>)
    ensures |q| == 6
    ensures forall i :: 0 <= i < 6 ==>
      (q[i].u == 0 || q[i].u == 1) && (q[i].v == 0 || q[i].v == 1) &&
      q[i].x == (if q[i].u == 0 then xpos else xpos + w) &&
      q[i].y == (if q[i].v == 0 then ypos + h else ypos)
    ensures q[0] == q[3] && q[2] == q[4]
    ensures q[0].u == 0 && q[0].v == 0 && q[1].u == 0 && q[1].v == 1
    ensures q[2].u == 1 && q[2].v == 1 && q[5].u == 1 && q[5].v == 0
  {
    [ Vertex(xpos, ypos + h, 0, 0),
      Vertex(xpos, ypos, 0, 1),
      Vertex(xpos + w, ypos, 1, 1),
      Vertex(xpos, ypos + h, 0, 0),
      Vertex(xpos + w, ypos, 1, 1),
      Vertex(xpos + w, ypos + h, 1, 0) ]
  }

  /** The draw call for glyph `g` with its bitmap's lower left corner at `(xpos, ypos)`. */
  function GlyphCall(g: CharGlyph, xpos: int, ypos: int): DrawCall
  {
    DrawCall(g.texId, GlyphQuad(xpos, ypos, Subpixel * g.width, Subpixel * g.height))
  }

  /** What the cache `m` yields for `c`: the stored descriptor, or the zero one. */
  function GlyphFor(m: map<nat, CharGlyph>, c: nat): CharGlyph
  {
    if c in m then m[c] else ZeroGlyph
  }

  /** The sum of the horizontal advances of a run. */
  function SumXAdvance(run: seq<ShapedGlyph>): int
  {
    if run == [] then 0 else SumXAdvance(run[..|run| - 1]) + run[|run| - 1].xAdvance
  }

  /** The sum of the vertical advances of a run. */
  function SumYAdvance(run: seq<ShapedGlyph>): int
  {
    if run == [] then 0 else SumYAdvance(run[..|run| - 1]) + run[|run| - 1].yAdvance
  }

  /** The codepoints of a run, in run order. */
  function Codepoints(run: seq<ShapedGlyph>): (cps: seq<nat>)
    ensures |cps| == |run|
    ensures forall i :: 0 <= i < |run| ==> cps[i] == run[i].codepoint
  {
    seq(|run|, i requires 0 <= i < |run| => run[i].codepoint)
  }

  /** The draw call of glyph `j` of a run whose pen starts at `(x0, y0)`: the descriptor the
      cache `m` yields for it, placed at the pen, which is the start moved by the advances
      of the glyphs before it, plus the glyph's own offset. */
  function PenCall(m: map<nat, CharGlyph>, run: seq<ShapedGlyph>, x0: int, y0: int, j: nat): DrawCall
    requires j < |run|
  {
    GlyphCall(GlyphFor(m, run[j].codepoint),
              x0 + SumXAdvance(run[..j]) + run[j].xOffset,
              y0 + SumYAdvance(run[..j]) + run[j].yOffset)
  }

  /** The first `n` draw calls are those of the first `n` glyphs of the run. */
  predicate DrawnUpTo(m: map<nat, CharGlyph>, run: seq<ShapedGlyph>, x0: int, y0: int, calls: seq<DrawCall>, n: nat)
    requires n <= |run|
  {
    |calls| == n && forall j :: 0 <= j < n ==> calls[j] == PenCall(m, run, x0, y0, j)
  }

  /** The draw calls of a whole run. */
  predicate RunDrawn(m: map<nat, CharGlyph>, run: seq<ShapedGlyph>, x0: int, y0: int, calls: seq<DrawCall>)
  {
    DrawnUpTo(m, run, x0, y0, calls, |run|)
  }

  /** Cache `m1` is cache `m0` after requests for `requested`: nothing stored changes, what is
      added is a requested codepoint with its bitmap's size, and every requested codepoint
      that rasterizes is stored. */
  predicate Grows(m0: map<nat, CharGlyph>, m1: map<nat, CharGlyph>, raster: Rasterizer, requested: seq<nat>)
  {
    (forall c :: c in m0 ==> c in m1 && m1[c] == m0[c]) &&
    (forall c :: c in m1 && c !in m0 ==>
       c in requested && raster(c).Some? &&
       m1[c].width == raster(c).value.width && m1[c].height == raster(c).value.rows) &&
    (forall i :: 0 <= i < |requested| && raster(requested[i]).Some? ==> requested[i] in m1)
  }

  /** What a cache yields for a codepoint it held, or that does not rasterize, survives growth. */
  lemma GrowsKeepsGlyph(m0: map<nat, CharGlyph>, m1: map<nat, CharGlyph>, raster: Rasterizer, requested: seq<nat>, c: nat)
    requires Grows(m0, m1, raster, requested)
    requires c in m0 || raster(c).None?
    ensures GlyphFor(m1, c) == GlyphFor(m0, c)
  {
  }

  /** Growth by one batch of requests and then another is growth by both. */
  lemma GrowsTrans(m0: map<nat, CharGlyph>, m1: map<nat, CharGlyph>, m2: map<nat, CharGlyph>,
                   raster: Rasterizer, a: seq<nat>, b: seq<nat>)
    requires Grows(m0, m1, raster, a) && Grows(m1, m2, raster, b)
    ensures Grows(m0, m2, raster, a + b)
  {
    forall i | 0 <= i < |a + b| && raster((a + b)[i]).Some?
      ensures (a + b)[i] in m2
    {
      if i < |a| {
        assert (a + b)[i] == a[i];
      } else {
        assert (a + b)[i] == b[i - |a|];
      }
    }
  }

  /** The draw calls of a run stay those of the run when the cache grows afterwards. */
  lemma RunDrawnGrows(m0: map<nat, CharGlyph>, m1: map<nat, CharGlyph>, m2: map<nat, CharGlyph>,
                      raster: Rasterizer, requested: seq<nat>,
                      run: seq<ShapedGlyph>, x0: int, y0: int, calls: seq<DrawCall>)
    requires Grows(m0, m1, raster, Codepoints(run))
    requires RunDrawn(m1, run, x0, y0, calls)
    requires Grows(m1, m2, raster, requested)
    ensures RunDrawn(m2, run, x0, y0, calls)
  {
    forall j | 0 <= j < |run|
      ensures PenCall(m2, run, x0, y0, j) == PenCall(m1, run, x0, y0, j)
    {
      assert Codepoints(run)[j] == run[j].codepoint;
      GrowsKeepsGlyph(m1, m2, raster, requested, run[j].codepoint);
    }
  }

  /** The pen call of glyph `i` is the glyph's descriptor placed at the pen, once the pen
      `(x, y)` stands at the start moved by the advances of the glyphs before it. */
  lemma PenCallAt(m: map<nat, CharGlyph>, run: seq<ShapedGlyph>, x0: int, y0: int, i: nat, x: int, y: int, g: CharGlyph)
    requires i < |run|
    requires x == x0 + SumXAdvance(run[..i]) && y == y0 + SumYAdvance(run[..i])
    requires g == GlyphFor(m, run[i].codepoint)
    ensures PenCall(m, run, x0, y0, i) == GlyphCall(g, x + run[i].xOffset, y + run[i].yOffset)
  {
  }

  /** One more glyph drawn: after its lookup grew the cache, the calls so far followed by
      its quad are the calls of one more glyph of the run, and the lookup log gains its
      codepoint. */
  lemma DrawnStep(m0: map<nat, CharGlyph>, before: map<nat, CharGlyph>, after: map<nat, CharGlyph>,
                  raster: Rasterizer, run: seq<ShapedGlyph>, x0: int, y0: int, calls: seq<DrawCall>, i: nat,
                  call: DrawCall, log: seq<nat>)
    requires i < |run|
    requires Grows(m0, before, raster, Codepoints(run[..i]))
    requires DrawnUpTo(before, run, x0, y0, calls, i)
    requires Grows(before, after, raster, [run[i].codepoint])
    requires call == PenCall(after, run, x0, y0, i)
    // proof plumbing: the lookup log step, stated here to keep the caller's proof small
    ensures log + Codepoints(run[..i]) + [run[i].codepoint] == log + Codepoints(run[..i + 1])
    ensures Grows(m0, after, raster, Codepoints(run[..i + 1]))
    ensures DrawnUpTo(after, run, x0, y0, calls + [call], i + 1)
  {
    assert Codepoints(run[..i + 1]) == Codepoints(run[..i]) + [run[i].codepoint];
    GrowsTrans(m0, before, after, raster, Codepoints(run[..i]), [run[i].codepoint]);
    forall j | 0 <= j < i
      ensures PenCall(after, run, x0, y0, j) == PenCall(before, run, x0, y0, j)
    {
      assert Codepoints(run[..i])[j] == run[j].codepoint;
      GrowsKeepsGlyph(before, after, raster, [run[i].codepoint], run[j].codepoint);
    }
  }

  /** The draw calls and cache growth of all the glyphs of a run are those of the whole run. */
  lemma DrawnAll(m0: map<nat, CharGlyph>, m: map<nat, CharGlyph>, raster: Rasterizer, run: seq<ShapedGlyph>,
                 x0: int, y0: int, calls: seq<DrawCall>, log: seq<nat>)
    requires Grows(m0, m, raster, Codepoints(run[..|run|]))
    requires DrawnUpTo(m, run, x0, y0, calls, |run|)
    ensures Grows(m0, m, raster, Codepoints(run))
    ensures RunDrawn(m, run, x0, y0, calls)
    // proof plumbing: the lookup log of the whole run, stated here to keep the caller's proof small
    ensures log + Codepoints(run[..|run|]) == log + Codepoints(run)
  {
    assert run[..|run|] == run;
  }

  /** The advance sums grow by one glyph's advance per glyph. */
  lemma SumAdvanceStep(run: seq<ShapedGlyph>, i: nat)
    requires i < |run|
    ensures SumXAdvance(run[..i + 1]) == SumXAdvance(run[..i]) + run[i].xAdvance
    ensures SumYAdvance(run[..i + 1]) == SumYAdvance(run[..i]) + run[i].yAdvance
  {
    assert run[..i + 1][..i] == run[..i];
  }

  /** With no negative horizontal advance, the pen never moves left along a run. */
  lemma {:induction false} PenMonotone(run: seq<ShapedGlyph>, j: nat, k: nat)
    requires forall i :: 0 <= i < |run| ==> run[i].xAdvance >= 0
    requires j <= k <= |run|
    ensures SumXAdvance(run[..j]) <= SumXAdvance(run[..k])
    decreases k
  {
    if j < k {
      PenMonotone(run, j, k - 1);
      SumAdvanceStep(run, k - 1);
    }
  }
}
