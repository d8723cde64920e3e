/** The length-bounded text of a progress message (`app/connectors/discord.py`): stage lines first, then as
    much recent thinking as fits. Sanitizing is done before; its result is the `text` here. */
module ProgressText {
  const CONTENT_LIMIT := 2_000
  const MIN_THINKING := 80
  const HEADER := "\n\n**Thinking**\n"
  const TRUNCATED := "\n[truncated]"
  const ELLIPSIS := '\U{2026}'

  /** Python's `str.isspace`, per character. */
  predicate IsSpace(c: char) {
    || '\t' <= c <= '\r' || '\U{1c}' <= c <= ' ' || c == '\U{85}' || c == '\U{a0}' || c == '\U{1680}'
    || '\U{2000}' <= c <= '\U{200a}' || c == '\U{2028}' || c == '\U{2029}' || c == '\U{202f}' || c == '\U{205f}' || c == '\U{3000}'
  }

  /** Where `splitlines` breaks; carriage returns are gone by then. */
  predicate IsBreak(c: char) {
    '\n' <= c <= '\r' || '\U{1c}' <= c <= '\U{1e}' || c == '\U{85}' || c == '\U{2028}' || c == '\U{2029}'
  }

  /** `_bounded_discord_content`. */
  function Bounded(content: string): (r: string)
    ensures |r| <= CONTENT_LIMIT
    ensures |content| <= CONTENT_LIMIT ==> r == content
    ensures |content| > CONTENT_LIMIT ==> |r| == CONTENT_LIMIT && r[..CONTENT_LIMIT - |TRUNCATED|] <= content
  {
    if |content| <= CONTENT_LIMIT then content else content[..CONTENT_LIMIT - |TRUNCATED|] + TRUNCATED
  }

  /** Content that is too long keeps its first 1988 characters. */
  lemma CutOff(content: string)
    ensures Bounded(content) == if |content| <= 2000 then content else content[..1988] + "\n[truncated]"
  {}

  /** The code points of white space and of line breaks. */
  lemma SpacesAndBreaks(c: char)
    ensures var n := c as int;
            && (IsSpace(c) <==> n in {9, 10, 11, 12, 13, 28, 29, 30, 31, 32, 133, 160, 5760, 8232, 8233, 8239, 8287, 12288} || 8192 <= n <= 8202)
            && (IsBreak(c) <==> n in {10, 11, 12, 13, 28, 29, 30, 133, 8232, 8233})
  {}

  function StageLines(stages: seq<string>): string {
    if stages == [] then ""
    else if |stages| == 1 then "- " + stages[0]
    else "- " + stages[0] + "\n" + StageLines(stages[1..])
  }

  function Content(stages: seq<string>): string {
    if stages == [] then "- Waking Qwen." else StageLines(stages)
  }

  /** The lines of `s` after the first quote mark, each next one marked; a trailing break ends nothing. */
  function Body(s: string): string {
    if s == "" then ""
    else if !IsBreak(s[0]) then [s[0]] + Body(s[1..])
    else if |s| == 1 then ""
    else "\n> " + Body(s[1..])
  }

  /** The inner `render`: block quotes while live, one spoiler once final. */
  function Render(tail: string, final: bool): string {
    if tail == "" then "" else if final then "||" + tail + "||" else "> " + Body(tail)
  }

  function AfterSpace(s: string): string {
    if s == "" then "" else if IsSpace(s[0]) then s[1..] else AfterSpace(s[1..])
  }

  predicate HasSpace(s: string) { exists i :: 0 <= i < |s| && IsSpace(s[i]) }

  function LStrip(s: string): string {
    if s == "" || !IsSpace(s[0]) then s else LStrip(s[1..])
  }

  /** `_thinking_tail`. */
  function ThinkingTail(text: string, keep: int): string {
    if keep <= 1 then ""
    else if keep >= |text| then text
    else
      var tail := text[|text| - (keep - 1)..];
      [ELLIPSIS] + LStrip(if HasSpace(tail) then AfterSpace(tail) else tail)
  }

  predicate IsBlank(s: string) { forall i :: 0 <= i < |s| ==> IsSpace(s[i]) }

  // ----- lengths

  /** Where a tail of the text from `from` on starts: at `from` when no space follows, else behind the first space that
      does and all spaces right behind it. */
  ghost predicate StartsTail(text: string, from: int, k: nat) {
    && 0 <= from <= k <= |text|
    && if NoSpace(text, from, |text|) then k == from
       else exists p :: from <= p < k && NoSpace(text, from, p) && AllSpace(text, p, k) && (k < |text| ==> !IsSpace(text[k]))
  }

  ghost predicate NoSpace(text: string, a: int, b: int) { forall i :: a <= i < b && 0 <= i < |text| ==> !IsSpace(text[i]) }

  ghost predicate AllSpace(text: string, a: int, b: int) { forall i :: a <= i < b && 0 <= i < |text| ==> IsSpace(text[i]) }

  /** A shortened tail is the ellipsis and the text from there on: one character less than asked, back to a word's start. */
  lemma TailIsSuffix(text: string, keep: int) returns (k: nat)
    requires 1 < keep < |text|
    ensures StartsTail(text, |text| - (keep - 1), k) && ThinkingTail(text, keep) == [ELLIPSIS] + text[k..]
  {
    hide IsSpace;
    var from := |text| - (keep - 1);
    var tail := text[from..];
    assert forall i :: 0 <= i < |tail| ==> tail[i] == text[from + i];
    if HasSpace(tail) {
      var p := FirstSpace(tail);
      var rest := tail[p + 1..];
      var n := Stripped(rest);
      k := from + p + 1 + n;
      assert rest[n..] == text[k..];
      assert forall i :: 0 <= i < |rest| ==> rest[i] == text[from + p + 1 + i];
      assert IsSpace(text[from + p]);
      assert NoSpace(text, from, from + p) && AllSpace(text, from + p, k);
    } else {
      k := from;
      NothingStripped(tail);
    }
  }

  lemma {:induction false} FirstSpace(s: string) returns (p: nat)
    requires HasSpace(s)
    ensures p < |s| && IsSpace(s[p]) && (forall i :: 0 <= i < p ==> !IsSpace(s[i])) && AfterSpace(s) == s[p + 1..]
  {
    hide IsSpace;
    if IsSpace(s[0]) {
      p := 0;
    } else {
      var i :| 0 <= i < |s| && IsSpace(s[i]);
      assert s[1..][i - 1] == s[i];
      var q := FirstSpace(s[1..]);
      p := q + 1;
      assert s[1..][q + 1..] == s[p + 1..];
      assert forall j :: 0 < j < p ==> s[j] == s[1..][j - 1];
    }
  }

  lemma {:induction false} Stripped(s: string) returns (n: nat)
    ensures n <= |s| && LStrip(s) == s[n..] && (forall i :: 0 <= i < n ==> IsSpace(s[i])) && (n < |s| ==> !IsSpace(s[n]))
  {
    hide IsSpace;
    if s == "" || !IsSpace(s[0]) {
      n := 0;
    } else {
      var m := Stripped(s[1..]);
      n := m + 1;
      assert s[1..][m..] == s[n..];
      assert forall j :: 0 < j < n ==> s[j] == s[1..][j - 1];
    }
  }

  lemma NothingStripped(s: string)
    requires !HasSpace(s)
    ensures LStrip(s) == s
  {
    hide IsSpace;
  }

  /** What rendering adds to a text. */
  function Cost(text: string, final: bool): int { |Render(text, final)| - |text| }

  lemma {:induction false} BodyCost(s: string, k: nat)
    requires k < |s|
    ensures |Body(s[k..])| - |s[k..]| <= |Body(s)| - |s|
    ensures |Body(s)| >= |s| - 1
    decreases |s|
  {
    if k > 0 {
      BodyCost(s[1..], k - 1);
      assert s[1..][k - 1..] == s[k..];
    } else {
      assert s[0..] == s;
      if |s| > 1 {
        BodyCost(s[1..], 0);
      }
    }
  }

  lemma SuffixCost(text: string, k: nat, final: bool)
    requires k < |text|
    ensures Cost([ELLIPSIS] + text[k..], final) <= Cost(text, final)
  {
    BodyCost(text, k);
    var tail := [ELLIPSIS] + text[k..];
    assert tail[1..] == text[k..];
    assert !IsBreak(ELLIPSIS);
  }

  lemma LoneEllipsis(final: bool)
    ensures 0 < |Render([ELLIPSIS], final)| <= 5
  {
    var tail := [ELLIPSIS];
    assert tail[1..] == "" && !IsBreak(tail[0]);
    assert Body(tail) == [tail[0]] + Body(tail[1..]);
  }

  /** Shrinking once is enough: the tail that gives up the excess fits. */
  lemma OneShrinkFits(text: string, final: bool, budget: int)
    requires text != "" && budget >= MIN_THINKING && |Render(text, final)| > budget
    ensures var keep := budget - Cost(text, final);
            && keep < |text| && |Render(ThinkingTail(text, keep), final)| <= budget
            && (keep <= 1 <==> Render(ThinkingTail(text, keep), final) == "")
  {
    hide Body, IsSpace, IsBreak;
    var keep := budget - Cost(text, final);
    if keep > 1 {
      var k := TailIsSuffix(text, keep);
      hide ThinkingTail;
      var tail := [ELLIPSIS] + text[k..];
      if k < |text| {
        SuffixCost(text, k, final);
      } else {
        LoneEllipsis(final);
        assert tail == [ELLIPSIS];
      }
    }
  }

  lemma RenderedIsNotBlank(tail: string, final: bool)
    ensures IsBlank(Render(tail, final)) <==> tail == ""
  {
    if tail != "" {
      assert Render(tail, final)[0] == if final then '|' else '>';
    }
  }

  /** How texts are quoted: a live one line by line behind quote marks, a final one between spoiler marks. */
  lemma QuotedLines(line: string, end: char, rest: string)
    requires (forall i :: 0 <= i < |line| ==> !IsBreak(line[i])) && IsBreak(end)
    ensures Render("", false) == "" == Render("", true)
    ensures line != "" ==> Render(line, true) == "||" + line + "||" && Render(line, false) == "> " + line
    ensures Render(line + [end], false) == "> " + line
    ensures rest != "" ==> Render(line + [end] + rest, false) == "> " + line + "\n" + Render(rest, false)
  {
    hide IsBreak;
    BodyLine(line, end, rest);
    assert "\n" + ("> " + Body(rest)) == "\n> " + Body(rest);
  }

  lemma {:induction false} BodyLine(line: string, end: char, rest: string)
    requires (forall i :: 0 <= i < |line| ==> !IsBreak(line[i])) && IsBreak(end)
    ensures Body(line) == line && Body(line + [end]) == line
    ensures rest != "" ==> Body(line + [end] + rest) == line + "\n> " + Body(rest)
    decreases |line|
  {
    hide IsBreak, Body;
    if line == "" {
      BodyBreak(end, rest);
      assert line + [end] + rest == [end] + rest && line + [end] == [end];
      assert line + "\n> " + Body(rest) == "\n> " + Body(rest);
    } else {
      var c, more := line[0], line[1..];
      BodyLine(more, end, rest);
      BodyChar(c, more);
      BodyChar(c, more + [end]);
      BodyChar(c, more + [end] + rest);
      assert [c] + more == line && [c] + (more + [end]) == line + [end] && [c] + (more + [end] + rest) == line + [end] + rest;
      assert [c] + (more + "\n> " + Body(rest)) == line + "\n> " + Body(rest);
    }
  }

  lemma BodyChar(c: char, rest: string)
    requires !IsBreak(c)
    ensures Body([c] + rest) == [c] + Body(rest)
  {
    hide IsBreak;
    assert ([c] + rest)[1..] == rest;
  }

  lemma BodyBreak(end: char, rest: string)
    requires IsBreak(end)
    ensures Body("") == "" && Body([end]) == "" && (rest != "" ==> Body([end] + rest) == "\n> " + Body(rest))
  {
    hide IsBreak;
    assert ([end] + rest)[1..] == rest;
  }

  /** The stage lines: one per stage, or a single one before any. */
  lemma {:induction false} StagesListed(stages: seq<string>, last: string)
    ensures Content([]) == "- Waking Qwen."
    ensures Content([last]) == "- " + last
    ensures stages != [] ==> Content(stages + [last]) == Content(stages) + "\n- " + last
    decreases |stages|
  {
    if |stages| > 1 {
      StagesListed(stages[1..], last);
      assert (stages + [last])[1..] == stages[1..] + [last];
    } else if |stages| == 1 {
      assert (stages + [last])[1..] == [last];
    }
  }

  // ----- the renderer

  function Budget(stages: seq<string>): int { CONTENT_LIMIT - |Content(stages)| - |HEADER| }

  /** When any thinking is shown: there is some, eighty characters are left, and it fits whole or one shrink
      leaves at least two characters. */
  predicate Shown(stages: seq<string>, text: string, final: bool) {
    text != "" && Budget(stages) >= MIN_THINKING
    && (|Render(text, final)| <= Budget(stages) || Cost(text, final) + 1 < Budget(stages))
  }

  /** The same in numbers: beside the stage lines and a heading of 15 characters at least 80 of the 2000 must be left. */
  lemma ShownIff(stages: seq<string>, text: string, final: bool)
    ensures var room := 2000 - |Content(stages)| - 15;
            Shown(stages, text, final) <==>
              text != "" && room >= 80 && (|Render(text, final)| <= room || |Render(text, final)| - |text| <= room - 2)
  {
    hide Content, Render;
  }

  /** A live message may lose all its thinking at once: the quote marks of many short lines cost more than the budget. */
  lemma ManyLinesVanish()
    ensures exists text, stages :: text != "" && Budget(stages) >= MIN_THINKING && !Shown(stages, text, false)
  {
    ShortLinesCost(999);
    assert |Content([])| == 14;
    assert !Shown([], ShortLines(999), false);
  }

  /** `n` one-letter lines and a last one. */
  function ShortLines(n: nat): (s: string)
    ensures |s| == 2 * n + 1
  {
    if n == 0 then "a" else "a\n" + ShortLines(n - 1)
  }

  lemma {:induction false} ShortLinesCost(n: nat)
    ensures |Body(ShortLines(n))| == 4 * n + 1
  {
    var s := ShortLines(n);
    assert !IsBreak('a') && IsBreak('\n');
    assert Body(s) == [s[0]] + Body(s[1..]);
    if n > 0 {
      ShortLinesCost(n - 1);
      var rest := s[1..];
      assert rest[0] == '\n' && rest[1..] == ShortLines(n - 1);
      assert Body(rest) == "\n> " + Body(rest[1..]);
    }
  }

  /** `_render_progress_content` after sanitizing. Every message fits; thinking is shown exactly when `Shown`;
      the stage lines then survive whole, before a heading and a complete rendering of the text or of an
      ellipsis and a suffix of it. */
  method RenderProgressContent(stages: seq<string>, text: string, final: bool) returns (r: string)
    ensures |r| <= 2000
    ensures !Shown(stages, text, final) ==> r == Bounded(Content(stages))
    ensures Shown(stages, text, final) && |Render(text, final)| <= Budget(stages) ==>
              r == Content(stages) + "\n\n**Thinking**\n" + Render(text, final)
    ensures Shown(stages, text, final) && |Render(text, final)| > Budget(stages) ==>
              exists k: nat :: StartsTail(text, |text| + 1 - (Budget(stages) - Cost(text, final)), k)
                          && r == Content(stages) + "\n\n**Thinking**\n" + Render(['\U{2026}'] + text[k..], final)
  {
    hide Content, Body, ThinkingTail;
    var content := Content(stages);
    if text == "" { return Bounded(content); }
    var budget := CONTENT_LIMIT - |content| - |HEADER|;
    if budget < MIN_THINKING { return Bounded(content); }
    var rendered, keep := Render(text, final), |text|;
    while |rendered| > budget && keep > 0
      invariant keep <= |text|
      invariant if keep == |text| then rendered == Render(text, final)
                else |Render(text, final)| > budget && keep == budget - Cost(text, final)
                     && rendered == Render(ThinkingTail(text, keep), final) && |rendered| <= budget
      decreases keep
    {
      OneShrinkFits(text, final, budget);
      keep := keep - (|rendered| - budget);
      rendered := Render(ThinkingTail(text, keep), final);
    }
    if keep == |text| {
      RenderedIsNotBlank(text, final);
    } else {
      OneShrinkFits(text, final, budget);
      RenderedIsNotBlank(ThinkingTail(text, keep), final);
      if keep > 1 {
        var k := TailIsSuffix(text, keep);
        assert ThinkingTail(text, keep) == [ELLIPSIS] + text[k..];
      }
    }
    if IsBlank(rendered) { return Bounded(content); }
    r := Bounded(content + HEADER + rendered);
  }
}
