/**
  The text renderer's state and its two operations: the glyph cache, a map from
  codepoint to descriptor filled on first request, and the drawing of a text,
  line by line, as one textured quad per shaped glyph. Texture names come from
  a counter (the graphics driver's generator of unused names); rendering a
  bitmap and shaping a line are given as functions.
*/
module Text {
  import opened Wrappers
  import opened Glyphs
  import opened TextLines

  /** How far each further line is drawn below the previous one, in pixels. */
  const LineHeight: int := 50

  /** The codepoints of all the lines' shaped runs, the first line first. */
  function RunsCodepoints(shape: string -> seq<ShapedGlyph>, lines: seq<string>): seq<nat>
  {
    if lines == [] then [] else Codepoints(shape(lines[0])) + RunsCodepoints(shape, lines[1..])
  }

  /** Each line's draw calls are those of its shaped run, line `i` starting at pixel
      `(x, y - LineHeight * i)`. */
  predicate LinesDrawn(m: map<nat, CharGlyph>, shape: string -> seq<ShapedGlyph>, lines: seq<string>,
                       x: int, y: int, out: seq<seq<DrawCall>>)
  {
    |out| == |lines| &&
    forall i :: 0 <= i < |lines| ==> RunDrawn(m, shape(lines[i]), Subpixel * x, Subpixel * (y - LineHeight * i), out[i])
  }

  /** A first line drawn at `y`, after which further lines are drawn from one line lower,
      gives the draw calls of all the lines; the cache grows by the codepoints of all, and
      a lookup log `log` extended by the first line's codepoints and then the others' is
      extended by the codepoints of all. */
  lemma DrawnLines(m0: map<nat, CharGlyph>, m1: map<nat, CharGlyph>, m2: map<nat, CharGlyph>,
                   raster: Rasterizer, shape: string -> seq<ShapedGlyph>, line: string, lines: seq<string>,
                   x: int, y: int, first: seq<DrawCall>, rest: seq<seq<DrawCall>>, log: seq<nat>)
    requires Grows(m0, m1, raster, Codepoints(shape(line)))
    requires RunDrawn(m1, shape(line), Subpixel * x, Subpixel * y, first)
    requires Grows(m1, m2, raster, RunsCodepoints(shape, lines))
    requires LinesDrawn(m2, shape, lines, x, y - LineHeight, rest)
    // proof plumbing: one unfolding of RunsCodepoints, and below, associativity of the lookup
    // log, stated here to keep the caller's proof small
    ensures RunsCodepoints(shape, [line] + lines) == Codepoints(shape(line)) + RunsCodepoints(shape, lines)
    ensures Grows(m0, m2, raster, RunsCodepoints(shape, [line] + lines))
    ensures LinesDrawn(m2, shape, [line] + lines, x, y, [first] + rest)
    ensures log + Codepoints(shape(line)) + RunsCodepoints(shape, lines) == log + RunsCodepoints(shape, [line] + lines)
  {
    assert ([line] + lines)[1..] == lines;
    GrowsTrans(m0, m1, m2, raster, Codepoints(shape(line)), RunsCodepoints(shape, lines));
    RunDrawnGrows(m0, m1, m2, raster, RunsCodepoints(shape, lines), shape(line), Subpixel * x, Subpixel * y, first);
    forall i | 0 <= i < |lines| + 1
      ensures RunDrawn(m2, shape(([line] + lines)[i]), Subpixel * x, Subpixel * (y - LineHeight * i), ([first] + rest)[i])
    {
      if i > 0 {
        assert ([first] + rest)[i] == rest[i - 1];
        assert ([line] + lines)[i] == lines[i - 1];
        assert y - LineHeight - LineHeight * (i - 1) == y - LineHeight * i;
      }
    }
  }

  class CustomText {
    /** The glyph cache. */
    var glyphMap: map<nat, CharGlyph>
    /** The next texture name the driver hands out. */
    var nextTexture: nat
    /** Every codepoint looked up so far, in order. */
    ghost var requests: seq<nat>

    /** Stored textures are names already handed out, and no two codepoints share one. */
    ghost predicate Valid()
      reads this
    {
      0 < nextTexture &&
      (forall c :: c in glyphMap ==> 0 < glyphMap[c].texId < nextTexture) &&
      (forall c, d :: c in glyphMap && d in glyphMap && c != d ==> glyphMap[c].texId != glyphMap[d].texId)
    }

    /** The renderer before any text is drawn: an empty cache. */
    constructor ()
      ensures Valid()
      ensures glyphMap == map[] && requests == []
    {
      glyphMap := map[];
      nextTexture := 1;
      requests := [];
    }

    /** The descriptor of glyph `c`. A stored one is returned as it is; otherwise the glyph
        is rendered, and on success a fresh texture holds it and its size is stored under
        `c`; on failure the zero descriptor is returned and nothing is stored, so the next
        request renders again. */
    method LoadGlyphTexture(c: nat, raster: Rasterizer) returns (glyph: CharGlyph)
      requires Valid()
      modifies this
      ensures Valid()
      ensures requests == old(requests) + [c]
      ensures glyph == GlyphFor(glyphMap, c)
      ensures c in old(glyphMap) ==>
        glyph == old(glyphMap)[c] && glyphMap == old(glyphMap) && nextTexture == old(nextTexture)
      ensures c !in old(glyphMap) && raster(c).None? ==>
        glyph == ZeroGlyph && glyphMap == old(glyphMap) && nextTexture == old(nextTexture)
      ensures c !in old(glyphMap) && raster(c).Some? ==>
        glyph.width == raster(c).value.width && glyph.height == raster(c).value.rows &&
        (forall d :: d in old(glyphMap) ==> old(glyphMap)[d].texId != glyph.texId) &&
        glyphMap == old(glyphMap)[c := glyph] && nextTexture == old(nextTexture) + 1
      ensures Grows(old(glyphMap), glyphMap, raster, [c])
    {
      requests := requests + [c];
      if c in glyphMap {
        return glyphMap[c];
      }
      var bitmap := raster(c);
      if bitmap.None? {
        return ZeroGlyph;
      }
      var texture := nextTexture;
      nextTexture := nextTexture + 1;
      glyph := CharGlyph(texture, bitmap.value.rows, bitmap.value.width);
      glyphMap := glyphMap[c := glyph];
    }

    /** Looking the same glyph up twice gives the same descriptor, logs two lookups, and
        changes the cache at most once: the second lookup changes nothing. */
    method LoadTwice(c: nat, raster: Rasterizer) returns (first: CharGlyph, second: CharGlyph)
      requires Valid()
      modifies this
      ensures Valid()
      ensures first == second
      ensures first == GlyphFor(glyphMap, c)
      ensures raster(c).Some? ==> c in glyphMap && first.texId != 0
      ensures requests == old(requests) + [c, c]
      ensures glyphMap == if c in old(glyphMap) || raster(c).None? then old(glyphMap) else old(glyphMap)[c := first]
    {
      first := LoadGlyphTexture(c, raster);
      ghost var between := glyphMap;
      second := LoadGlyphTexture(c, raster);
      assert glyphMap == between;
    }

    /** Draws one shaped glyph with the pen at `(x, y)`: its descriptor is looked up, and its
        quad is placed at the pen moved by the glyph's offset and sized by the bitmap. */
    method DrawGlyph(g: ShapedGlyph, x: int, y: int, raster: Rasterizer) returns (call: DrawCall)
      requires Valid()
      modifies this
      ensures Valid()
      ensures requests == old(requests) + [g.codepoint]
      ensures Grows(old(glyphMap), glyphMap, raster, [g.codepoint])
      ensures call == GlyphCall(GlyphFor(glyphMap, g.codepoint), x + g.xOffset, y + g.yOffset)
    {
      var glyph := LoadGlyphTexture(g.codepoint, raster);
      var xpos := x + g.xOffset;
      var ypos := y + g.yOffset;
      var h := glyph.height;
      var w := glyph.width;
      call := DrawCall(glyph.texId, GlyphQuad(xpos, ypos, Subpixel * w, Subpixel * h));
    }

    /** Draws one shaped run with the pen starting at `(x0, y0)`: one cache lookup and one
        quad per glyph, in run order, the pen moving by each glyph's advance. */
    method DrawRun(run: seq<ShapedGlyph>, x0: int, y0: int, raster: Rasterizer) returns (calls: seq<DrawCall>)
      requires Valid()
      modifies this
      ensures Valid()
      ensures requests == old(requests) + Codepoints(run)
      ensures Grows(old(glyphMap), glyphMap, raster, Codepoints(run))
      ensures RunDrawn(glyphMap, run, x0, y0, calls)
    {
      var x, y := x0, y0;
      calls := [];
      for i := 0 to |run|
        invariant Valid()
        invariant x == x0 + SumXAdvance(run[..i]) && y == y0 + SumYAdvance(run[..i])
        invariant requests == old(requests) + Codepoints(run[..i])
        invariant Grows(old(glyphMap), glyphMap, raster, Codepoints(run[..i]))
        invariant DrawnUpTo(glyphMap, run, x0, y0, calls, i)
      {
        ghost var before := glyphMap;
        var call := DrawGlyph(run[i], x, y, raster);
        PenCallAt(glyphMap, run, x0, y0, i, x, y, GlyphFor(glyphMap, run[i].codepoint));
        DrawnStep(old(glyphMap), before, glyphMap, raster, run, x0, y0, calls, i, call, old(requests));
        calls := calls + [call];
        x := x + run[i].xAdvance;
        y := y + run[i].yAdvance;
        SumAdvanceStep(run, i);
      }
      DrawnAll(old(glyphMap), glyphMap, raster, run, x0, y0, calls, old(requests));
    }

    /** Draws `text` with its first line at pixel position `(x, y)`: the text up to the first
        line break is shaped and drawn, and a non-empty rest after the break is drawn the
        same way `LineHeight` pixels lower. The result holds each line's draw calls, top
        line first; their concatenation is the order in which they are issued. */
    method DrawText(text: string, x: int, y: int, shape: string -> seq<ShapedGlyph>, raster: Rasterizer)
      returns (lines: seq<seq<DrawCall>>)
      requires Valid()
      modifies this
      ensures Valid()
      ensures LinesDrawn(glyphMap, shape, Lines(text), x, y, lines)
      ensures requests == old(requests) + RunsCodepoints(shape, Lines(text))
      ensures Grows(old(glyphMap), glyphMap, raster, RunsCodepoints(shape, Lines(text)))
      decreases |text|
    {
      var split := SplitFirstLine(text);
      var nextText, remaining := split.0, split.1;
      var first := DrawRun(shape(nextText), Subpixel * x, Subpixel * y, raster);
      ghost var afterFirst := glyphMap;
      ghost var requestsAfterFirst := requests;
      var rest: seq<seq<DrawCall>> := [];
      if |remaining| > 0 {
        rest := DrawText(remaining, x, y - LineHeight, shape, raster);
      } else {
        assert requests == requestsAfterFirst + [];
      }
      lines := [first] + rest;
      ghost var below := if |remaining| > 0 then Lines(remaining) else [];
      assert Lines(text) == [nextText] + below;
      DrawnLines(old(glyphMap), afterFirst, glyphMap, raster, shape, nextText, below, x, y, first, rest, old(requests));
    }
  }
}
