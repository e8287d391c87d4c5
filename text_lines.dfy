/**
  How the text renderer breaks a string into lines: it splits at the first
  line break, draws the first line and, when something is left after the
  break, draws the rest the same way one line lower.
*/
module TextLines {
  import opened Wrappers

  const LineBreak: char := '\n'

  /** The index of the first occurrence of `c` in `s`, or None when there is none. */
  function Find(s: string, c: char): (r: Option<nat>)
    ensures r.Some? ==> r.value < |s| && s[r.value] == c && c !in s[..r.value]
    ensures r.None? <==> c !in s
  {
    if s == [] then None
    else if s[0] == c then Some(0)
    else
      match Find(s[1..], c)
      case Some(i) =>
        assert s[..i + 1] == [s[0]] + s[1..][..i];
        Some(i + 1)
      case None => None
  }

  /** The text before the first line break, and the text after it; when there is no
      break, the whole text and nothing. */
  function SplitFirstLine(text: string): (r: (string, string))
    ensures LineBreak !in r.0
    ensures LineBreak in text ==> r.0 + [LineBreak] + r.1 == text
    ensures LineBreak !in text ==> r.0 == text && r.1 == ""
  {
    match Find(text, LineBreak)
    case Some(i) =>
      assert text == text[..i] + [LineBreak] + text[i + 1..];
      (text[..i], text[i + 1..])
    case None => (text, "")
  }

  /** The lines the renderer draws for `text`, top to bottom. */
  function Lines(text: string): (lines: seq<string>)
    ensures |lines| > 0
    decreases |text|
  {
    var split := SplitFirstLine(text);
    [split.0] + if |split.1| > 0 then Lines(split.1) else []
  }

  /** The number of line breaks in `s`. */
  function CountBreaks(s: string): nat
  {
    if s == [] then 0 else (if s[0] == LineBreak then 1 else 0) + CountBreaks(s[1..])
  }

  predicate EndsWithBreak(s: string)
  {
    |s| > 0 && s[|s| - 1] == LineBreak
  }

  /** The lines put back together with a break between each two. */
  function JoinLines(lines: seq<string>): string
    requires |lines| > 0
  {
    if |lines| == 1 then lines[0] else lines[0] + [LineBreak] + JoinLines(lines[1..])
  }

  lemma {:induction false} CountBreaksAppend(a: string, b: string)
    ensures CountBreaks(a + b) == CountBreaks(a) + CountBreaks(b)
  {
    if a != [] {
      assert (a + b)[1..] == a[1..] + b;
      CountBreaksAppend(a[1..], b);
    } else {
      assert a + b == b;
    }
  }

  lemma {:induction false} CountBreaksNone(s: string)
    requires LineBreak !in s
    ensures CountBreaks(s) == 0
  {
    if s != [] {
      assert s[0] != LineBreak;
      CountBreaksNone(s[1..]);
    }
  }

  /** No drawn line contains a line break. */
  lemma {:induction false} LinesHaveNoBreak(text: string)
    ensures forall i :: 0 <= i < |Lines(text)| ==> LineBreak !in Lines(text)[i]
    decreases |text|
  {
    var split := SplitFirstLine(text);
    if |split.1| > 0 {
      LinesHaveNoBreak(split.1);
    }
  }

  /** A text is drawn as one line per line break plus one, except that a final
      line break does not start a further (empty) line. */
  lemma {:induction false} LineCount(text: string)
    ensures |Lines(text)| == CountBreaks(text) + if EndsWithBreak(text) then 0 else 1
    decreases |text|
  {
    var split := SplitFirstLine(text);
    if LineBreak in text {
      CountBreaksAppend(split.0 + [LineBreak], split.1);
      CountBreaksAppend(split.0, [LineBreak]);
      CountBreaksNone(split.0);
      assert CountBreaks([LineBreak]) == 1;
      if |split.1| > 0 {
        LineCount(split.1);
        assert text[|text| - 1] == split.1[|split.1| - 1];
      } else {
        assert text[|text| - 1] == LineBreak;
      }
    } else {
      CountBreaksNone(text);
      assert !EndsWithBreak(text);
    }
  }

  /** Joining the drawn lines gives back the text, up to a final line break. */
  lemma {:induction false} LinesJoin(text: string)
    ensures JoinLines(Lines(text)) + (if EndsWithBreak(text) then [LineBreak] else []) == text
    decreases |text|
  {
    var split := SplitFirstLine(text);
    if LineBreak in text {
      if |split.1| > 0 {
        LinesJoin(split.1);
        assert Lines(text)[1..] == Lines(split.1);
        assert text[|text| - 1] == split.1[|split.1| - 1];
      } else {
        assert text[|text| - 1] == LineBreak;
      }
    } else {
      assert !EndsWithBreak(text);
    }
  }
}
