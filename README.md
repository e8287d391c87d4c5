# Dialogue overlay and text layout of the hexapod play mode

This project models two small pieces of logic from a 3D scene built on an OpenGL teaching framework:

- **The branching text-adventure dialogue** that the play mode shows over the scene. The mode builds a fixed table of ten decision nodes. Each node has a message and an ordered list of options, and each option has a caption and a target node. The mode shows a copy of one node's message and options. Each frame it reveals the message one character at a time, like a typewriter, driven by a timer. The keys `w`, `s` and `x` follow the first, second and third option. Drawing hands the revealed part of the message, and then the options, to the text renderer.
- **The core of the custom text renderer.** A glyph cache maps each codepoint to a texture name and a bitmap size. A glyph is rendered and stored the first time it is asked for. A failed rendering is not stored. A text is split at its first line break. The first line is shaped and drawn as one six-vertex textured quad per glyph, with a pen that moves by each glyph's advance. A non-empty rest is drawn the same way, 50 pixels lower.

The modules follow the source files:

| module | file | models |
|---|---|---|
| `Dialogue` | dialogue.dfy | the decision table and the dialogue state as values; `Press` (a key) and `Tick` (a frame) as functions, with their lemmas |
| `Play` | play_mode.dfy | class `PlayMode`: the fields the play mode updates in place, and its constructor, key-down handler, frame update and text selection, each proved against `Press`, `Tick` or its own contract |
| `TextLines` | text_lines.dfy | the split at the first line break and the line-by-line recursion, as functions over strings |
| `Glyphs` | glyphs.dfy | shaped glyphs, glyph descriptors, the quad of one glyph, pen sums, and facts about how the cache grows |
| `Text` | custom_text.dfy | class `CustomText`: the glyph cache, with the cache lookup, the per-glyph loop of one line and the recursion over lines |
| `Wrappers` | wrappers.dfy | `Option` |

Modelling choices:

- **Units.** Time is whole milliseconds. The reveal threshold of 0.01 s is `TypeSpeed = 10`. Layout positions are integers in 1/64 pixel, the shaping library's fixed-point unit. Offsets and advances are added to the pen unchanged, and a bitmap of `w` pixels spans `64 * w` units. The positions the play mode passes to the renderer are whole pixels, as in the source: (100, 600) for the message, and 300, 200, … for the options.
- **Texture names.** They come from a counter that starts at 1, which stands for the driver's generator of unused names. `CustomText.Valid()` states that every stored name was already handed out and that no two codepoints share one.
- **Rendering a bitmap** is a function argument `raster: nat -> Option<Bitmap>`. It gives `None` when the font engine reports an error.
- **Shaping a line** is a function argument `shape: string -> seq<ShapedGlyph>`. The cache key is the value the shaping library leaves in the codepoint field, which is what the source passes to the glyph loader.
- **The draw calls** of a text are returned one sequence per line, top line first. Their concatenation is the order in which the source issues them. Each call is the bound texture and the six vertices written to the vertex buffer.
- **The initial timer.** The constructor starts `typeTimer` at 0. PlayMode.hpp, where the field and its initial value are declared, is not part of this model.

Three points where a reader might expect other behaviour than the code has. The model follows the code, and a lemma states each point:

- One might expect a text with k line breaks to be drawn as k + 1 lines. In the code, a final line break does not start another line, because `draw_text` recurses only on a non-empty rest (CustomText.cpp:199-201, `TextLines.LineCount`).
- The play mode keeps four direction flags (`left`, `right`, `up`, `down`), but only three of its keys pick an option: `w` picks slot 0, `s` slot 1 and `x` slot 2 (PlayMode.cpp:191-217, `Dialogue.Slot`). The key `a` raises a flag and does not touch the dialogue.
- A typewriter might be expected to reveal the whole message once the elapsed time adds up to the message length times the threshold. The code differs in two ways:
  - `update` reveals at most one character per frame, however long the frame (PlayMode.cpp:312-316, `Dialogue.FramesRevealAtMostOnePerFrame`).
  - Each reveal sets the timer back to 0 (PlayMode.cpp:315, `Dialogue.TickTimer`), so the time past the threshold is lost. A total of length times threshold therefore does not in general reveal the message. Five 6 ms frames on a three-character message reveal two characters (`Dialogue.TypewriterDropsOverflow`).

  Frames shorter than the threshold still reveal characters as their time builds up in the timer. When every frame reaches the threshold, n frames reveal n characters, up to the message length (`Dialogue.FramesAtTypingSpeed`).

The glyph cache stores each bitmap's rows as the glyph's height and its width as the width (CustomText.cpp:112-115), and the model does the same.

## Model

| member | source | states |
|---|---|---|
| `Dialogue.StoryTable` | PlayMode.cpp:68-166 | the table has ten nodes, every node offers at least one option, and every option's target is a node index 0..9 |
| `Dialogue.Start` | PlayMode.cpp:169-171 | the start state is node 0's message and options, with reveal index 0 and timer 0 |
| `Dialogue.Slot` | PlayMode.cpp:191-217 | exactly the keys w, s and x select an option slot: w the first (0), s the second (1), x the third (2) |
| `Dialogue.Press` | PlayMode.cpp:191-217 | a key never changes the timer; it either changes nothing, or shows some node of the table with the reveal index reset to 0 |
| `Dialogue.PressCases` | PlayMode.cpp:191-217 | a key with no slot, or a slot at or beyond the number of options, changes nothing; otherwise the state becomes the target node's message and options with index 0 and the old timer |
| `Dialogue.ShownTargetsValid` | PlayMode.cpp:194-196 | on a well-formed table, the shown options are non-empty and all lead to nodes of the table, so following one never indexes outside it |
| `Dialogue.PressKeepsConsistent` | PlayMode.cpp:194-216 | every key keeps the invariant: the shown pair is some node's pair and the index is within the message |
| `Dialogue.Tick` | PlayMode.cpp:312-316 | a frame keeps message and options, raises the index by at most one, changes nothing once the index reaches the message length, and keeps the index within the message |
| `Dialogue.TickKeepsConsistent` | PlayMode.cpp:312-316 | every frame keeps the invariant |
| `Dialogue.TickTimer` | PlayMode.cpp:313-316 | while revealing, a character is revealed exactly when the accumulated time reaches the threshold, and the timer then starts again at 0; otherwise it holds the accumulated time |
| `Dialogue.FramesRevealAtMostOnePerFrame` | PlayMode.cpp:312-316 | over any sequence of frames the message and options stay, and the index grows by at most the number of frames |
| `Dialogue.FramesAfterReveal` | PlayMode.cpp:312 | once the message is fully revealed, no sequence of frames changes index or timer |
| `Dialogue.FramesAtTypingSpeed` | PlayMode.cpp:312-316 | when every frame reaches the threshold, n frames reveal n more characters, up to the message length |
| `Dialogue.TypewriterDropsOverflow` | PlayMode.cpp:312-316 | five 6 ms frames, 30 ms in all, three thresholds' worth, reveal only two characters of a three-character message, because each reveal resets the timer to 0 and drops the time past the threshold |
| `Dialogue.StoryStart` | PlayMode.cpp:69-76 | from node 0, w shows node 1, s shows node 2, and x, which has no option there, changes nothing |
| `Play.PlayMode.constructor` | PlayMode.cpp:68-171 | the mode holds the story table and shows node 0 with nothing revealed, and its invariant holds |
| `Play.PlayMode.HandleKeyDown` | PlayMode.cpp:183-218 | the fields change as `Press` says, the invariant is kept, and the event counts as handled exactly for escape, a, x, w and s |
| `Play.PlayMode.Update` | PlayMode.cpp:312-326 | the fields change as `Tick` says and the invariant is kept |
| `Play.PlayMode.Draw` | PlayMode.cpp:350-358 | the message is drawn at (100, 600) as its prefix of length min(index + 1, length); the options follow, in order, the i-th at (100, 300 - 100 i), exactly when the whole message is revealed |
| `TextLines.Find` | CustomText.cpp:131 | the result is the first index holding the character, and there is none exactly when the character does not occur |
| `TextLines.SplitFirstLine` | CustomText.cpp:128-135 | the first line has no line break; with a break, line + break + rest is the text; without one, the line is the whole text and the rest is empty |
| `TextLines.Lines` | CustomText.cpp:199-201 | the recursion, which happens only on a non-empty rest, ends and draws at least one line |
| `TextLines.LinesHaveNoBreak` | CustomText.cpp:131-135 | no drawn line contains a line break |
| `TextLines.LineCount` | CustomText.cpp:199-201 | the number of drawn lines is the number of line breaks plus one, or just the number of breaks when the text ends with one |
| `TextLines.LinesJoin` | CustomText.cpp:128-135 | joining the drawn lines with breaks gives back the text, up to a final break |
| `Glyphs.GlyphQuad` | CustomText.cpp:170-182 | six vertices, two triangles sharing the diagonal, spanning x in [xpos, xpos+w] and y in [ypos, ypos+h]; texture u is 0 on the left edge and 1 on the right, v is 0 on the top edge (ypos+h) and 1 on the bottom |
| `Glyphs.GrowsKeepsGlyph` | CustomText.cpp:81-117 | a codepoint the cache held, or one that does not render, yields the same descriptor after any later lookups |
| `Glyphs.SumAdvanceStep` | CustomText.cpp:193-194 | each glyph moves the pen by exactly its own advance |
| `Glyphs.PenMonotone` | CustomText.cpp:161-194 | with no negative horizontal advance, the pen never moves left along a run |
| `Glyphs.DrawnStep` | CustomText.cpp:164-194 | drawing one more glyph after its lookup extends the calls of the first glyphs to those of one more glyph, and the lookup log by its codepoint |
| `Text.CustomText.constructor` | CustomText.cpp:15 | the glyph cache starts empty |
| `Text.CustomText.LoadGlyphTexture` | CustomText.cpp:80-120 | a hit returns the stored descriptor and changes nothing; a failed rendering returns the zero descriptor and stores nothing; otherwise a fresh texture name with the bitmap's width and rows is stored under the codepoint alone and returned |
| `Text.CustomText.LoadTwice` | CustomText.cpp:81-120 | two lookups of the same codepoint return the same descriptor, the one the cache now yields, and log two lookups; the cache is unchanged when it held the codepoint or the codepoint does not render, and otherwise gains just that codepoint with a nonzero texture |
| `Text.CustomText.DrawGlyph` | CustomText.cpp:164-182 | one lookup of the glyph's codepoint; the call is the descriptor the cache now yields, its quad at the pen moved by the glyph's offset |
| `Text.CustomText.DrawRun` | CustomText.cpp:161-195 | one lookup per shaped glyph in run order; call j has glyph j's descriptor with its quad at the start plus the advances of glyphs 0..j-1 plus its offset; the cache keeps every entry and gains exactly the looked-up codepoints that render |
| `Text.CustomText.DrawText` | CustomText.cpp:122-202 | one group of calls per line of `Lines(text)`, line i drawn as `DrawRun` draws its shaped run starting 50 i pixels below the first; lookups follow the lines in order |
| `Text.DrawnLines` | CustomText.cpp:199-201 | the first line's calls followed by those of the lines drawn one line lower are the calls of all the lines; the cache grows by, and the lookup log gains, all of their codepoints |

## Left out

- Scene and mesh loading, the leg lookups, leg wobble, camera movement and the mouse-mode handling (PlayMode.cpp:15-66, 181-186, 233-298): engine plumbing with quaternion and floating-point math.
- The button flags and counters (`left`, `right`, `up`, `down`): key-down events raise a flag and count a press, key-up events clear the flag (PlayMode.cpp:220-231), and `update` resets the counters (PlayMode.cpp:308-311). They only feed the camera movement, which is left out. Key-up, mouse and other events are left out for the same reason.
- Sound: the listener update and the random choice among three keystroke samples (PlayMode.cpp:300-305, 317-324). These are audio output driven by `rand()`.
- Lighting, clearing and depth setup in `draw` (PlayMode.cpp:329-349): graphics driver calls.
- Font loading, pixel sizing, shader compilation and vertex buffer setup (CustomText.cpp:21-78), and every graphics call in the draw paths (texture upload and parameters, uniforms, blending, the draw call itself). These are foreign driver calls. The model stands for them with the texture counter and the returned draw calls.
- The error message written to standard output when a glyph fails to render (CustomText.cpp:88): console output. The model keeps the failure itself, which returns the zero descriptor and stores nothing.
- Shaping (CustomText.cpp:142-158): a foreign library, taken as the `shape` argument.
- The `scale` and `color` arguments of `draw_text`. `scale` is unused, and the fragment shader ignores the colour uniform (CustomText.cpp:61).
- Floating point: the timer, the elapsed time, the pen and the vertex positions are single-precision floats in the source and exact integers here. The offset and advance `/ 64.` conversions to pixels (CustomText.cpp:167-168, 193-194) are exact in the model, because positions are kept in 1/64 pixel, and float rounding is not modelled.
- Text is a sequence of characters. The source counts and cuts UTF-8 bytes: `length` and `substr` in the typewriter and in `draw` (PlayMode.cpp:312, 350), and `find` and `substr` in the line split (CustomText.cpp:131-134). The two agree on the story messages, which are all ASCII, and on splitting at a line break. For text that is not ASCII, the source reveals and cuts by bytes and the model by characters.
- The conversion of `std::string` to a C string at each recursive call, which would cut a text at a NUL character. The dialogue texts contain none.
- Play.PlayMode.Draw: returns the texts and positions it hands to the renderer rather than calling `Text.CustomText.DrawText` on each, so it does not by itself state the draw calls of the whole overlay.
