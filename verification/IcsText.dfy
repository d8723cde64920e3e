/** The iCalendar reader of `app/connectors/google_calendar.py`: unfolding, TEXT unescaping,
    property lines and VEVENT brackets, each proved to invert the printed form that RFC 5545
    prescribes. */
module IcsText {
  import opened Prelude

  // ----- strings

  function SplitOn(c: char, s: string): (parts: seq<string>)
    ensures parts != []
  {
    if s == "" then [""]
    else
      var rest := SplitOn(c, s[1..]);
      if s[0] == c then [""] + rest else [[s[0]] + rest[0]] + rest[1..]
  }

  function JoinWith(c: char, parts: seq<string>): string {
    if parts == [] then ""
    else if |parts| == 1 then parts[0]
    else parts[0] + [c] + JoinWith(c, parts[1..])
  }

  lemma {:induction false} SplitPrefix(c: char, p: string, s: string)
    requires c !in p
    ensures SplitOn(c, p + [c] + s) == [p] + SplitOn(c, s)
    ensures SplitOn(c, p) == [p]
    decreases |p|
  {
    var line := p + [c] + s;
    if p == "" {
      assert line[1..] == s;
    } else {
      assert line[1..] == p[1..] + [c] + s;
      SplitPrefix(c, p[1..], s);
      assert [p[0]] + p[1..] == p;
    }
  }

  lemma {:induction false} SplitInvertsJoin(c: char, parts: seq<string>)
    requires parts != [] && forall i :: 0 <= i < |parts| ==> c !in parts[i]
    ensures SplitOn(c, JoinWith(c, parts)) == parts
    decreases |parts|
  {
    if |parts| == 1 {
      SplitPrefix(c, parts[0], "");
    } else {
      SplitPrefix(c, parts[0], JoinWith(c, parts[1..]));
      SplitInvertsJoin(c, parts[1..]);
    }
  }

  /** Splitting loses nothing: the parts hold no separator and join to the text again. */
  lemma {:induction false} JoinInvertsSplit(c: char, s: string)
    ensures JoinWith(c, SplitOn(c, s)) == s
    ensures forall i :: 0 <= i < |SplitOn(c, s)| ==> c !in SplitOn(c, s)[i]
    decreases |s|
  {
    if s != "" {
      var rest := SplitOn(c, s[1..]);
      JoinInvertsSplit(c, s[1..]);
      assert [s[0]] + s[1..] == s;
      hide SplitOn;
      JoinLonger(c, s[0], rest);
    }
  }

  lemma JoinLonger(c: char, first: char, parts: seq<string>)
    requires parts != []
    ensures JoinWith(c, [""] + parts) == [c] + JoinWith(c, parts)
    ensures JoinWith(c, [[first] + parts[0]] + parts[1..]) == [first] + JoinWith(c, parts)
  {
    assert ([""] + parts)[1..] == parts && "" + [c] + JoinWith(c, parts) == [c] + JoinWith(c, parts);
    var longer := [[first] + parts[0]] + parts[1..];
    assert longer[1..] == parts[1..];
    if |parts| > 1 {
      assert [first] + (parts[0] + [c] + JoinWith(c, parts[1..])) == longer[0] + [c] + JoinWith(c, parts[1..]);
    }
  }

  /** `str.upper`, left arbitrary: it maps far more than the letters A to Z. */
  type Casing = string -> string

  // ----- unfolding (section 3.1 of RFC 5545)

  /** `replace("\r\n", "\n")`. */
  function ReplacePairs(s: string): string {
    if s == "" then ""
    else if |s| > 1 && s[0] == '\r' && s[1] == '\n' then "\n" + ReplacePairs(s[2..])
    else [s[0]] + ReplacePairs(s[1..])
  }

  /** `replace("\r", "\n")`. */
  function ReplaceReturns(s: string): string {
    seq(|s|, i requires 0 <= i < |s| => if s[i] == '\r' then '\n' else s[i])
  }

  predicate Continues(line: string) {
    line != "" && (line[0] == ' ' || line[0] == '\t')
  }

  /** One physical line joins the line before it, starts a new one, or is skipped when empty. */
  function UnfoldLine(unfolded: seq<string>, line: string): Option<seq<string>> {
    if Continues(line) then
      if unfolded == [] then None
      else Some(unfolded[..|unfolded| - 1] + [unfolded[|unfolded| - 1] + line[1..]])
    else if line != "" then Some(unfolded + [line])
    else Some(unfolded)
  }

  function UnfoldFrom(unfolded: seq<string>, lines: seq<string>): Option<seq<string>>
    decreases |lines|
  {
    if lines == [] then Some(unfolded)
    else match UnfoldLine(unfolded, lines[0])
      case None => None
      case Some(next) => UnfoldFrom(next, lines[1..])
  }

  function Unfold(text: string): Option<seq<string>> {
    UnfoldFrom([], RawLines(text))
  }

  /** The physical lines of a text. */
  function RawLines(text: string): seq<string> { SplitOn('\n', ReplaceReturns(ReplacePairs(text))) }

  /** Lines end with a return and a feed, a return or a feed alone; nothing else ends them. */
  lemma LineEnds(line: string, rest: string)
    requires '\r' !in line && '\n' !in line
    ensures RawLines(line) == [line]
    ensures RawLines(line + "\r\n" + rest) == [line] + RawLines(rest)
    ensures RawLines(line + "\n" + rest) == [line] + RawLines(rest)
    ensures rest == "" || rest[0] != '\n' ==> RawLines(line + "\r" + rest) == [line] + RawLines(rest)
  {
    hide ReplacePairs, ReplaceReturns, SplitOn;
    NoPairs(line);
    PairReplaced(line, rest);
    FeedKept(line, rest);
    ReturnKept(line, rest);
    var normal := ReplacePairs(rest);
    ReturnsReplaced(line, normal);
    SplitPrefix('\n', line, ReplaceReturns(normal));
  }

  lemma ReturnsReplaced(line: string, rest: string)
    requires '\r' !in line
    ensures ReplaceReturns(line) == line
    ensures ReplaceReturns(line + "\n" + rest) == line + ['\n'] + ReplaceReturns(rest)
    ensures ReplaceReturns(line + "\r" + rest) == line + ['\n'] + ReplaceReturns(rest)
  {}

  lemma {:induction false} NoPairs(line: string)
    requires '\r' !in line
    ensures ReplacePairs(line) == line
    decreases |line|
  {
    if line != "" {
      NoPairs(line[1..]);
      assert [line[0]] + line[1..] == line;
    }
  }

  lemma PairReplaced(line: string, rest: string)
    requires '\r' !in line
    ensures ReplacePairs(line + "\r\n" + rest) == line + "\n" + ReplacePairs(rest)
  {
    PairsSkip(line, "\r\n" + rest);
    var tail := "\r\n" + rest;
    assert tail[2..] == rest && line + "\r\n" + rest == line + tail;
    assert line + ("\n" + ReplacePairs(rest)) == line + "\n" + ReplacePairs(rest);
  }

  lemma FeedKept(line: string, rest: string)
    requires '\r' !in line
    ensures ReplacePairs(line + "\n" + rest) == line + "\n" + ReplacePairs(rest)
  {
    PairsSkip(line, "\n" + rest);
    var tail := "\n" + rest;
    assert tail[1..] == rest && line + "\n" + rest == line + tail;
    assert line + (['\n'] + ReplacePairs(rest)) == line + "\n" + ReplacePairs(rest);
  }

  lemma ReturnKept(line: string, rest: string)
    requires '\r' !in line
    ensures rest == "" || rest[0] != '\n' ==> ReplacePairs(line + "\r" + rest) == line + "\r" + ReplacePairs(rest)
  {
    PairsSkip(line, "\r" + rest);
    var tail := "\r" + rest;
    assert tail[1..] == rest && line + "\r" + rest == line + tail;
    assert line + (['\r'] + ReplacePairs(rest)) == line + "\r" + ReplacePairs(rest);
  }

  lemma {:induction false} PairsSkip(line: string, tail: string)
    requires '\r' !in line
    ensures ReplacePairs(line + tail) == line + ReplacePairs(tail)
    decreases |line|
  {
    if line == "" {
      assert line + tail == tail;
    } else {
      assert (line + tail)[1..] == line[1..] + tail;
      PairsSkip(line[1..], tail);
      assert [line[0]] + (line[1..] + ReplacePairs(tail)) == line + ReplacePairs(tail);
    }
  }

  /** What one more line does, at the end of any lines that unfold: an empty one nothing; one that starts with a blank or a
      tab continues the last line, and is refused when there is none; any other starts a line. A refusal stands. */
  lemma {:induction false} UnfoldRules(lines: seq<string>, line: string)
    ensures var before, after := UnfoldFrom([], lines), UnfoldFrom([], lines + [line]);
            var blank := line != "" && line[0] in " \t";
            && (before.None? ==> after == None)
            && (before.Some? && line == "" ==> after == before)
            && (before.Some? && blank && before.value == [] ==> after == None)
            && (before.Some? && blank && before.value != [] ==>
                  var n := |before.value| - 1; after == Some(before.value[..n] + [before.value[n] + line[1..]]))
            && (before.Some? && line != "" && !blank ==> after == Some(before.value + [line]))
  {
    UnfoldOneMore([], lines, line);
    var blanks := " \t";
    assert blanks[0] == ' ' && blanks[1] == '\t';
  }

  lemma {:induction false} UnfoldOneMore(unfolded: seq<string>, lines: seq<string>, line: string)
    ensures var before := UnfoldFrom(unfolded, lines);
            UnfoldFrom(unfolded, lines + [line]) == if before.None? then None else UnfoldLine(before.value, line)
    decreases |lines|
  {
    hide UnfoldLine;
    if lines == [] {
      assert ([] + [line])[1..] == [];
    } else {
      assert (lines + [line])[1..] == lines[1..] + [line];
      if UnfoldLine(unfolded, lines[0]).Some? {
        UnfoldOneMore(UnfoldLine(unfolded, lines[0]).value, lines[1..], line);
      }
    }
  }

  method UnfoldIcsLines(text: string) returns (r: Option<seq<string>>)
    ensures r == Unfold(text)
  {
    var lines := SplitOn('\n', ReplaceReturns(ReplacePairs(text)));
    var unfolded: seq<string> := [];
    for i := 0 to |lines|
      invariant UnfoldFrom([], lines) == UnfoldFrom(unfolded, lines[i..])
    {
      assert lines[i..][0] == lines[i] && lines[i..][1..] == lines[i + 1..];
      if Continues(lines[i]) {
        if unfolded == [] {
          return None;
        }
        unfolded := unfolded[..|unfolded| - 1] + [unfolded[|unfolded| - 1] + lines[i][1..]];
      } else if lines[i] != "" {
        unfolded := unfolded + [lines[i]];
      }
    }
    return Some(unfolded);
  }

  /** One content line cut into physical lines: the head, then pieces behind a blank each. */
  datatype Piece = Piece(blank: char, text: string)

  datatype FoldedLine = FoldedLine(head: string, pieces: seq<Piece>)

  predicate OneLine(s: string) { '\r' !in s && '\n' !in s }

  ghost predicate WellFolded(line: FoldedLine) {
    && line.head != "" && !Continues(line.head) && OneLine(line.head)
    && forall i :: 0 <= i < |line.pieces| ==>
         (line.pieces[i].blank == ' ' || line.pieces[i].blank == '\t') && OneLine(line.pieces[i].text)
  }

  function PieceLines(pieces: seq<Piece>): seq<string> {
    if pieces == [] then [] else [[pieces[0].blank] + pieces[0].text] + PieceLines(pieces[1..])
  }

  function PieceText(pieces: seq<Piece>): string {
    if pieces == [] then "" else pieces[0].text + PieceText(pieces[1..])
  }

  function Physical(lines: seq<FoldedLine>): seq<string> {
    if lines == [] then [] else [lines[0].head] + PieceLines(lines[0].pieces) + Physical(lines[1..])
  }

  function Logical(lines: seq<FoldedLine>): seq<string> {
    if lines == [] then [] else [Content(lines[0])] + Logical(lines[1..])
  }

  /** Every physical line ends with a carriage return and a line feed. */
  function Terminated(end: string, lines: seq<string>): string {
    if lines == [] then "" else lines[0] + end + Terminated(end, lines[1..])
  }

  function PrintFolded(lines: seq<FoldedLine>): string {
    Terminated("\r\n", Physical(lines))
  }

  lemma {:induction false} PairsInLine(p: string, rest: string)
    requires '\r' !in p
    ensures ReplacePairs(p + "\r\n" + rest) == p + "\n" + ReplacePairs(rest)
    decreases |p|
  {
    var s := p + "\r\n" + rest;
    if p == "" {
      assert s[2..] == rest;
    } else {
      assert s[1..] == p[1..] + "\r\n" + rest;
      PairsInLine(p[1..], rest);
      assert [p[0]] + (p[1..] + "\n" + ReplacePairs(rest)) == p + "\n" + ReplacePairs(rest);
    }
  }

  lemma {:induction false} NormalizedLines(lines: seq<string>)
    requires forall i :: 0 <= i < |lines| ==> OneLine(lines[i])
    ensures ReplaceReturns(ReplacePairs(Terminated("\r\n", lines))) == Terminated("\n", lines)
    decreases |lines|
  {
    if lines != [] {
      PairsInLine(lines[0], Terminated("\r\n", lines[1..]));
      NormalizedLines(lines[1..]);
      var a, b := lines[0] + "\n", ReplacePairs(Terminated("\r\n", lines[1..]));
      assert ReplaceReturns(a + b) == a + ReplaceReturns(b);
    }
  }

  lemma {:induction false} SplitTerminated(lines: seq<string>)
    requires forall i :: 0 <= i < |lines| ==> OneLine(lines[i])
    ensures SplitOn('\n', Terminated("\n", lines)) == lines + [""]
    decreases |lines|
  {
    if lines != [] {
      SplitPrefix('\n', lines[0], Terminated("\n", lines[1..]));
      SplitTerminated(lines[1..]);
    }
  }

  lemma {:induction false} UnfoldConcat(unfolded: seq<string>, a: seq<string>, b: seq<string>)
    requires UnfoldFrom(unfolded, a).Some?
    ensures UnfoldFrom(unfolded, a + b) == UnfoldFrom(UnfoldFrom(unfolded, a).value, b)
    decreases |a|
  {
    if a == [] {
      assert a + b == b;
    } else {
      assert (a + b)[1..] == a[1..] + b;
      UnfoldConcat(UnfoldLine(unfolded, a[0]).value, a[1..], b);
    }
  }

  lemma {:induction false} UnfoldPieces(unfolded: seq<string>, line: string, pieces: seq<Piece>)
    requires forall i :: 0 <= i < |pieces| ==> pieces[i].blank == ' ' || pieces[i].blank == '\t'
    ensures UnfoldFrom(unfolded + [line], PieceLines(pieces)) == Some(unfolded + [line + PieceText(pieces)])
    decreases |pieces|
  {
    if pieces == [] {
      assert line + PieceText(pieces) == line;
    } else {
      var first := [pieces[0].blank] + pieces[0].text;
      assert first[1..] == pieces[0].text;
      assert UnfoldLine(unfolded + [line], first) == Some(unfolded + [line + pieces[0].text]);
      UnfoldPieces(unfolded, line + pieces[0].text, pieces[1..]);
      assert line + pieces[0].text + PieceText(pieces[1..]) == line + PieceText(pieces);
    }
  }

  function Content(line: FoldedLine): string {
    line.head + PieceText(line.pieces)
  }

  lemma UnfoldOne(unfolded: seq<string>, line: FoldedLine)
    requires WellFolded(line)
    ensures UnfoldFrom(unfolded, [line.head] + PieceLines(line.pieces)) == Some(unfolded + [Content(line)])
  {
    var head := [line.head];
    assert head[1..] == [];
    UnfoldPieces(unfolded, line.head, line.pieces);
    UnfoldConcat(unfolded, head, PieceLines(line.pieces));
  }

  lemma {:induction false} UnfoldPhysical(unfolded: seq<string>, lines: seq<FoldedLine>)
    requires forall i :: 0 <= i < |lines| ==> WellFolded(lines[i])
    ensures UnfoldFrom(unfolded, Physical(lines)) == Some(unfolded + Logical(lines))
    decreases |lines|
  {
    hide WellFolded, Content, UnfoldFrom, PieceLines, Physical, Logical;
    FirstFolded(unfolded, lines);
    if lines != [] {
      UnfoldOne(unfolded, lines[0]);
      UnfoldConcat(unfolded, [lines[0].head] + PieceLines(lines[0].pieces), Physical(lines[1..]));
      UnfoldPhysical(unfolded + [Content(lines[0])], lines[1..]);
    }
  }

  lemma FirstFolded(unfolded: seq<string>, lines: seq<FoldedLine>)
    ensures lines == [] ==> UnfoldFrom(unfolded, Physical(lines)) == Some(unfolded + Logical(lines))
    ensures lines != [] ==>
              && Physical(lines) == [lines[0].head] + PieceLines(lines[0].pieces) + Physical(lines[1..])
              && unfolded + Logical(lines) == unfolded + [Content(lines[0])] + Logical(lines[1..])
  {
    if lines == [] {
      assert unfolded + [] == unfolded;
    } else {
      assert unfolded + ([Content(lines[0])] + Logical(lines[1..])) == unfolded + [Content(lines[0])] + Logical(lines[1..]);
    }
  }

  lemma {:induction false} PhysicalOneLine(lines: seq<FoldedLine>)
    requires forall i :: 0 <= i < |lines| ==> WellFolded(lines[i])
    ensures forall i :: 0 <= i < |Physical(lines)| ==> OneLine(Physical(lines)[i])
    decreases |lines|
  {
    if lines != [] {
      PieceOneLine(lines[0].pieces);
      PhysicalOneLine(lines[1..]);
    }
  }

  lemma {:induction false} PieceOneLine(pieces: seq<Piece>)
    requires forall i :: 0 <= i < |pieces| ==>
      (pieces[i].blank == ' ' || pieces[i].blank == '\t') && OneLine(pieces[i].text)
    ensures forall i :: 0 <= i < |PieceLines(pieces)| ==> OneLine(PieceLines(pieces)[i])
    decreases |pieces|
  {
    if pieces != [] {
      PieceOneLine(pieces[1..]);
    }
  }

  /** Unfolding inverts every folding of every list of content lines. */
  lemma UnfoldInvertsFolding(lines: seq<FoldedLine>)
    requires forall i :: 0 <= i < |lines| ==> WellFolded(lines[i])
    ensures Unfold(PrintFolded(lines)) == Some(Logical(lines))
  {
    var physical := Physical(lines);
    PhysicalOneLine(lines);
    NormalizedLines(physical);
    SplitTerminated(physical);
    UnfoldPhysical([], lines);
    UnfoldConcat([], physical, [""]);
    var last := [""];
    assert last[1..] == [];
    assert [] + Logical(lines) == Logical(lines);
  }

  // ----- TEXT values (section 3.3.11 of RFC 5545)

  function Unescaped(c: char): char { if c == 'n' || c == 'N' then '\n' else c }

  function Unescape(s: string): string {
    if s == "" then ""
    else if s[0] != '\\' then [s[0]] + Unescape(s[1..])
    else if |s| == 1 then "\\"
    else [Unescaped(s[1])] + Unescape(s[2..])
  }

  method UnescapeText(value: string) returns (result: string)
    ensures result == Unescape(value)
  {
    hide Unescape, Unescaped;
    result := "";
    var escaped := false;
    for i := 0 to |value|
      invariant escaped ==> i > 0
      invariant Unescape(value) == result + Unescape(if escaped then "\\" + value[i..] else value[i..])
    {
      var c := value[i];
      UnescapeNext(value, i, escaped);
      if escaped {
        result := result + [Unescaped(c)];
        escaped := false;
      } else if c == '\\' {
        escaped := true;
      } else {
        result := result + [c];
      }
    }
    UnescapeEnd();
    assert value[|value|..] == "" && "\\" + "" == "\\";
    if escaped {
      result := result + "\\";
    }
  }

  /** What unescaping the rest of `value` does with its next character. */
  lemma UnescapeNext(value: string, i: nat, escaped: bool)
    requires i < |value|
    ensures Unescape(if escaped then "\\" + value[i..] else value[i..]) ==
            if escaped then [Unescaped(value[i])] + Unescape(value[i + 1..])
            else if value[i] == '\\' then Unescape("\\" + value[i + 1..])
            else [value[i]] + Unescape(value[i + 1..])
  {
    hide Unescaped;
    var rest := value[i..];
    assert rest[0] == value[i] && rest[1..] == value[i + 1..];
    if escaped {
      var tail := "\\" + rest;
      assert tail[1] == value[i] && tail[2..] == value[i + 1..];
    } else if value[i] == '\\' {
      assert "\\" + value[i + 1..] == rest;
    }
  }

  lemma UnescapeEnd()
    ensures Unescape("") == "" && Unescape("\\") == "\\"
  {}

  /** Every text, read character by character: a backslash before n or N gives a line break, before any other character
      that character, at the very end itself; other characters stay. */
  lemma UnescapeRules(c: char, rest: string)
    ensures Unescape("") == "" && Unescape("\\") == "\\"
    ensures c != '\\' ==> Unescape([c] + rest) == [c] + Unescape(rest)
    ensures Unescape(['\\', c] + rest) == (if c == 'n' || c == 'N' then "\n" else [c]) + Unescape(rest)
  {
    var plain, escaped := [c] + rest, ['\\', c] + rest;
    assert plain[1..] == rest && escaped[1] == c && escaped[2..] == rest;
  }

  function EscapeChar(c: char): string {
    if c == '\\' then "\\\\"
    else if c == ';' then "\\;"
    else if c == ',' then "\\,"
    else if c == '\n' then "\\n"
    else [c]
  }

  function Escape(s: string): string {
    if s == "" then "" else EscapeChar(s[0]) + Escape(s[1..])
  }

  /** Unescaping inverts escaping for every text. */
  lemma {:induction false} UnescapeInvertsEscape(s: string)
    ensures Unescape(Escape(s)) == s
    ensures '\r' !in s ==> OneLine(Escape(s))
    decreases |s|
  {
    hide Unescape, EscapeChar, OneLine;
    if '\r' !in s { EscapedIsOneLine(s); }
    if s == "" {
      UnescapeNothing();
    } else {
      UnescapeInvertsEscape(s[1..]);
      UnescapeOne(s[0], Escape(s[1..]));
      assert [s[0]] + s[1..] == s;
    }
  }

  lemma UnescapeNothing()
    ensures Unescape("") == ""
  {}

  lemma {:induction false} EscapedIsOneLine(s: string)
    requires '\r' !in s
    ensures OneLine(Escape(s))
    decreases |s|
  {
    if s != "" {
      EscapedIsOneLine(s[1..]);
    }
  }

  lemma UnescapeOne(c: char, rest: string)
    ensures Unescape(EscapeChar(c) + rest) == [c] + Unescape(rest)
  {
    var e := EscapeChar(c) + rest;
    if |EscapeChar(c)| == 2 {
      assert e[0] == '\\' && e[2..] == rest;
    } else {
      assert e[1..] == rest;
    }
  }

  // ----- property lines (section 3.1 of RFC 5545)

  datatype Property = Property(name: string, params: map<string, seq<string>>, value: string)

  /** `text.split(c, 1)` for a text that contains `c`. */
  function Cut(c: char, s: string): (string, string)
    requires c in s
  {
    if s[0] == c then ("", s[1..]) else var (a, b) := Cut(c, s[1..]); ([s[0]] + a, b)
  }

  lemma {:induction false} CutJoined(c: char, a: string, b: string)
    requires c !in a
    ensures c in a + [c] + b && Cut(c, a + [c] + b) == (a, b)
    decreases |a|
  {
    var s := a + [c] + b;
    assert s[|a|] == c;
    if a == "" {
      assert s[1..] == b;
    } else {
      assert s[1..] == a[1..] + [c] + b;
      CutJoined(c, a[1..], b);
      assert [a[0]] + a[1..] == a;
    }
  }

  /** `item.strip('"')`. */
  function Unquote(s: string): string
    decreases |s|
  {
    if s == "" then ""
    else if s[0] == '"' then Unquote(s[1..])
    else if s[|s| - 1] == '"' then Unquote(s[..|s| - 1])
    else s
  }

  function UnquoteAll(items: seq<string>): seq<string> {
    seq(|items|, i requires 0 <= i < |items| => Unquote(items[i]))
  }

  function ParseParams(up: Casing, parts: seq<string>, params: map<string, seq<string>>): Option<map<string, seq<string>>>
    decreases |parts|
  {
    if parts == [] then Some(params)
    else if '=' !in parts[0] then None
    else
      var (key, raw) := Cut('=', parts[0]);
      ParseParams(up, parts[1..], params[up(key) := UnquoteAll(SplitOn(',', raw))])
  }

  function ParseProperty(up: Casing, line: string): Option<Property> {
    if ':' !in line then None
    else
      var (left, value) := Cut(':', line);
      var parts := SplitOn(';', left);
      if up(parts[0]) == "" then None
      else match ParseParams(up, parts[1..], map[])
        case None => None
        case Some(params) => Some(Property(up(parts[0]), params, value))
  }

  method ReadProperty(up: Casing, line: string) returns (r: Option<Property>)
    ensures r == ParseProperty(up, line)
  {
    if ':' !in line {
      return None;
    }
    var (left, value) := Cut(':', line);
    var parts := SplitOn(';', left);
    var name := up(parts[0]);
    if name == "" {
      return None;
    }
    var params: map<string, seq<string>> := map[];
    for i := 1 to |parts|
      invariant ParseParams(up, parts[1..], map[]) == ParseParams(up, parts[i..], params)
    {
      assert parts[i..][0] == parts[i] && parts[i..][1..] == parts[i + 1..];
      if '=' !in parts[i] {
        return None;
      }
      var (key, raw) := Cut('=', parts[i]);
      params := params[up(key) := UnquoteAll(SplitOn(',', raw))];
    }
    return Some(Property(name, params, value));
  }

  // ----- which lines are properties

  lemma {:induction false} CutIs(c: char, s: string)
    requires c in s
    ensures var (a, b) := Cut(c, s); s == a + [c] + b && c !in a
    decreases |s|
  {
    if s[0] != c {
      CutIs(c, s[1..]);
      var (a, b) := Cut(c, s[1..]);
      assert [s[0]] + (a + [c] + b) == s;
    }
  }

  /** Stripping takes the quotes at both ends, all of them, and nothing else. */
  lemma {:induction false} UnquoteStrips(s: string) returns (before: string, after: string)
    ensures s == before + Unquote(s) + after
    ensures (forall i :: 0 <= i < |before| ==> before[i] == '"') && (forall i :: 0 <= i < |after| ==> after[i] == '"')
    ensures var r := Unquote(s); r != "" ==> r[0] != '"' && r[|r| - 1] != '"'
    decreases |s|
  {
    UnquoteStep(s);
    hide Unquote;
    var r := Unquote(s);
    if s != "" && s[0] == '"' {
      var inner, last := UnquoteStrips(s[1..]);
      before, after := ['"'] + inner, last;
      assert ['"'] + (inner + r + last) == before + r + after && ['"'] + s[1..] == s;
    } else if s != "" && s[|s| - 1] == '"' {
      var first, inner := UnquoteStrips(s[..|s| - 1]);
      before, after := first, inner + ['"'];
      assert (first + r + inner) + ['"'] == before + r + after && s[..|s| - 1] + ['"'] == s;
    } else {
      before, after := "", "";
      assert before + r + after == r;
    }
  }

  lemma UnquoteStep(s: string)
    ensures Unquote(s) ==
            if s != "" && s[0] == '"' then Unquote(s[1..])
            else if s != "" && s[|s| - 1] == '"' then Unquote(s[..|s| - 1]) else s
  {}

  /** A parameter as it stands in the line. */
  datatype RawParam = RawParam(key: string, raw: string)

  function ParamTexts(ps: seq<RawParam>): seq<string> {
    seq(|ps|, i requires 0 <= i < |ps| => ps[i].key + "=" + ps[i].raw)
  }

  /** A line spelled as a name, parameters behind semicolons, a colon and a value. */
  ghost predicate Spelled(line: string, name: string, ps: seq<RawParam>, value: string) {
    && line == JoinWith(';', [name] + ParamTexts(ps)) + ":" + value
    && FreeOf(name, ":;") && forall i :: 0 <= i < |ps| ==> FreeOf(ps[i].key, ":;=") && FreeOf(ps[i].raw, ":;")
  }

  /** The values of the last parameter with this key: separated by commas, each without its quotes. */
  function LastFor(up: Casing, ps: seq<RawParam>, key: string): Option<seq<string>> {
    if ps == [] then None
    else
      var last := ps[|ps| - 1];
      if up(last.key) == key then Some(UnquoteAll(SplitOn(',', last.raw))) else LastFor(up, ps[..|ps| - 1], key)
  }

  ghost predicate Holds(up: Casing, ps: seq<RawParam>, params: map<string, seq<string>>) {
    forall key :: (key in params <==> LastFor(up, ps, key).Some?) && (key in params ==> LastFor(up, ps, key) == Some(params[key]))
  }

  lemma {:induction false} LastForFront(up: Casing, ps: seq<RawParam>, key: string)
    requires ps != []
    ensures LastFor(up, ps, key) ==
            if LastFor(up, ps[1..], key).Some? then LastFor(up, ps[1..], key)
            else if up(ps[0].key) == key then Some(UnquoteAll(SplitOn(',', ps[0].raw))) else None
    decreases |ps|
  {
    hide UnquoteAll, SplitOn;
    var n := |ps| - 1;
    if n > 0 {
      LastForFront(up, ps[..n], key);
      assert ps[..n][1..] == ps[1..][..n - 1] && ps[1..][n - 1] == ps[n];
    }
  }

  lemma {:induction false} ParamsHold(up: Casing, ps: seq<RawParam>, params: map<string, seq<string>>)
    requires forall i :: 0 <= i < |ps| ==> '=' !in ps[i].key
    ensures var r := ParseParams(up, ParamTexts(ps), params);
            && r.Some?
            && forall key :: && (key in r.value <==> LastFor(up, ps, key).Some? || key in params)
                             && (key in r.value ==>
                                   r.value[key] == if LastFor(up, ps, key).Some? then LastFor(up, ps, key).value else params[key])
    decreases |ps|
  {
    hide UnquoteAll, SplitOn, LastFor;
    if ps == [] {
      NothingHeld(up);
    } else {
      var p := ps[0];
      assert ParamTexts(ps)[0] == p.key + ['='] + p.raw && ParamTexts(ps)[1..] == ParamTexts(ps[1..]);
      CutJoined('=', p.key, p.raw);
      var next := params[up(p.key) := UnquoteAll(SplitOn(',', p.raw))];
      ParamsHold(up, ps[1..], next);
      forall key
        ensures LastFor(up, ps, key) ==
                if LastFor(up, ps[1..], key).Some? then LastFor(up, ps[1..], key)
                else if up(p.key) == key then Some(UnquoteAll(SplitOn(',', p.raw))) else None
      {
        LastForFront(up, ps, key);
      }
    }
  }

  lemma NothingHeld(up: Casing)
    ensures forall key :: LastFor(up, [], key).None?
  {}

  /** What a spelled line parses to. */
  lemma SpelledParses(up: Casing, line: string, name: string, ps: seq<RawParam>, value: string)
    requires Spelled(line, name, ps, value)
    ensures up(name) == "" ==> ParseProperty(up, line) == None
    ensures up(name) != "" ==>
              var r := ParseProperty(up, line);
              r.Some? && r.value.name == up(name) && r.value.value == value && Holds(up, ps, r.value.params)
  {
    var parts := [name] + ParamTexts(ps);
    RawPartsPlain(name, ps);
    hide JoinWith, SplitOn, Cut, ParseParams, LastFor, FreeOf;
    JoinFree(';', parts, ':');
    CutJoined(':', JoinWith(';', parts), value);
    SplitInvertsJoin(';', parts);
    assert parts[1..] == ParamTexts(ps);
    ParamsHold(up, ps, map[]);
  }

  lemma RawPartsPlain(name: string, ps: seq<RawParam>)
    requires FreeOf(name, ":;") && forall i :: 0 <= i < |ps| ==> FreeOf(ps[i].key, ":;=") && FreeOf(ps[i].raw, ":;")
    ensures var parts := [name] + ParamTexts(ps);
            forall i :: 0 <= i < |parts| ==> ';' !in parts[i] && ':' !in parts[i]
    ensures forall i :: 0 <= i < |ps| ==> '=' !in ps[i].key
  {
    var parts, marks := [name] + ParamTexts(ps), ":;=";
    assert marks[0] == ':' && marks[1] == ';' && marks[2] == '=';
    assert ":;"[0] == ':' && ":;"[1] == ';';
    forall i | 0 <= i < |parts|
      ensures ';' !in parts[i] && ':' !in parts[i]
    {
      if i > 0 {
        var p := ps[i - 1];
        assert parts[i] == p.key + "=" + p.raw;
        assert ';' !in p.key && ':' !in p.key && ';' !in p.raw && ':' !in p.raw && ';' !in "=" && ':' !in "=";
      }
    }
  }

  /** The spelling of a line that parses. */
  lemma ParsedIsSpelled(up: Casing, line: string) returns (name: string, ps: seq<RawParam>, value: string)
    requires ParseProperty(up, line).Some?
    ensures Spelled(line, name, ps, value) && up(name) != ""
  {
    hide JoinWith, SplitOn, Cut, UnquoteAll;
    CutIs(':', line);
    var (left, v) := Cut(':', line);
    var parts := SplitOn(';', left);
    JoinInvertsSplit(';', left);
    SplitPartsAvoid(';', left, ':');
    ps := ParamsSpelled(up, parts[1..], map[]);
    name, value := parts[0], v;
    assert [name] + ParamTexts(ps) == parts;
  }

  lemma {:induction false} SplitPartsAvoid(c: char, s: string, avoid: char)
    requires avoid !in s
    ensures forall i :: 0 <= i < |SplitOn(c, s)| ==> avoid !in SplitOn(c, s)[i]
    decreases |s|
  {
    if s != "" { SplitPartsAvoid(c, s[1..], avoid); }
  }

  lemma {:induction false} ParamsSpelled(up: Casing, parts: seq<string>, params: map<string, seq<string>>) returns (ps: seq<RawParam>)
    requires ParseParams(up, parts, params).Some?
    requires forall i :: 0 <= i < |parts| ==> ';' !in parts[i] && ':' !in parts[i]
    ensures ParamTexts(ps) == parts
    ensures forall i :: 0 <= i < |ps| ==> FreeOf(ps[i].key, ":;=") && FreeOf(ps[i].raw, ":;")
    decreases |parts|
  {
    hide Cut, SplitOn, UnquoteAll;
    ps := [];
    if parts != [] {
      CutIs('=', parts[0]);
      var (key, raw) := Cut('=', parts[0]);
      var rest := ParamsSpelled(up, parts[1..], params[up(key) := UnquoteAll(SplitOn(',', raw))]);
      PartFree(parts[0], key, raw);
      ps := [RawParam(key, raw)] + rest;
      assert ParamTexts(ps) == [parts[0]] + ParamTexts(rest);
    }
  }

  lemma PartFree(part: string, key: string, raw: string)
    requires part == key + ['='] + raw && '=' !in key && ';' !in part && ':' !in part
    ensures FreeOf(key, ":;=") && FreeOf(raw, ":;") && part == key + "=" + raw
  {
    assert forall i :: 0 <= i < |key| ==> key[i] == part[i];
    assert forall i :: 0 <= i < |raw| ==> raw[i] == part[|key| + 1 + i];
  }

  /** Exactly which lines are properties, and which property each is: a name that stays non-empty in upper case,
      parameters with an equals sign each, a colon and any value. Every other line is refused. */
  lemma PropertyIff(up: Casing, line: string, p: Property)
    ensures ParseProperty(up, line) == Some(p) <==>
            exists name, ps, value :: Spelled(line, name, ps, value) && up(name) != ""
              && p.name == up(name) && p.value == value && Holds(up, ps, p.params)
  {
    hide ParseProperty, Spelled, Holds;
    if ParseProperty(up, line) == Some(p) {
      var name, ps, value := ParsedIsSpelled(up, line);
      SpelledParses(up, line, name, ps, value);
    }
    if name, ps, value :| Spelled(line, name, ps, value) && up(name) != "" && p.name == up(name) && p.value == value && Holds(up, ps, p.params) {
      SpelledParses(up, line, name, ps, value);
      HeldOnce(up, ps, p.params, ParseProperty(up, line).value.params);
    }
  }

  lemma HeldOnce(up: Casing, ps: seq<RawParam>, a: map<string, seq<string>>, b: map<string, seq<string>>)
    requires Holds(up, ps, a) && Holds(up, ps, b)
    ensures a == b
  {
    hide LastFor;
    assert forall key :: key in a <==> key in b;
    assert forall key :: key in a ==> a[key] == b[key];
  }

  datatype Param = Param(key: string, values: seq<string>)

  predicate FreeOf(s: string, separators: string) {
    forall i :: 0 <= i < |s| ==> s[i] !in separators
  }

  predicate PlainParam(p: Param) {
    && FreeOf(p.key, ":;=") && p.values != []
    && forall i :: 0 <= i < |p.values| ==> FreeOf(p.values[i], ":;,\"")
  }

  function PrintParam(p: Param): string {
    p.key + "=" + JoinWith(',', p.values)
  }

  function PrintParams(ps: seq<Param>): seq<string> {
    seq(|ps|, i requires 0 <= i < |ps| => PrintParam(ps[i]))
  }

  function PrintProperty(name: string, ps: seq<Param>, value: string): string {
    JoinWith(';', [name] + PrintParams(ps)) + ":" + value
  }

  /** Later parameters of the same upper-cased key replace earlier ones. */
  function ParamMap(up: Casing, ps: seq<Param>, params: map<string, seq<string>>): map<string, seq<string>>
    decreases |ps|
  {
    if ps == [] then params else ParamMap(up, ps[1..], params[up(ps[0].key) := ps[0].values])
  }

  lemma {:induction false} JoinFree(c: char, parts: seq<string>, avoid: char)
    requires c != avoid && forall i :: 0 <= i < |parts| ==> avoid !in parts[i]
    ensures avoid !in JoinWith(c, parts)
    decreases |parts|
  {
    if |parts| > 1 {
      JoinFree(c, parts[1..], avoid);
    }
  }

  lemma PlainUnquoted(s: string)
    requires '"' !in s
    ensures Unquote(s) == s
  {
  }

  lemma ParamReadsBack(p: Param)
    requires PlainParam(p)
    ensures var part := PrintParam(p);
            && ';' !in part && ':' !in part && '=' in part
            && Cut('=', part) == (p.key, JoinWith(',', p.values))
            && UnquoteAll(SplitOn(',', JoinWith(',', p.values))) == p.values
  {
    forall i | 0 <= i < |p.values|
      ensures ';' !in p.values[i] && ':' !in p.values[i] && ',' !in p.values[i] && Unquote(p.values[i]) == p.values[i]
    {
      PlainUnquoted(p.values[i]);
    }
    var raw := JoinWith(',', p.values);
    JoinFree(',', p.values, ';');
    JoinFree(',', p.values, ':');
    SplitInvertsJoin(',', p.values);
    CutJoined('=', p.key, raw);
    assert PrintParam(p) == p.key + ['='] + raw;
  }

  lemma {:induction false} ParamsReadBack(up: Casing, ps: seq<Param>, params: map<string, seq<string>>)
    requires forall i :: 0 <= i < |ps| ==> PlainParam(ps[i])
    ensures ParseParams(up, PrintParams(ps), params) == Some(ParamMap(up, ps, params))
    decreases |ps|
  {
    if ps != [] {
      ParamReadsBack(ps[0]);
      assert PrintParams(ps)[1..] == PrintParams(ps[1..]);
      ParamsReadBack(up, ps[1..], params[up(ps[0].key) := ps[0].values]);
    }
  }

  lemma PartsPlain(name: string, ps: seq<Param>)
    requires FreeOf(name, ":;") && forall i :: 0 <= i < |ps| ==> PlainParam(ps[i])
    ensures var parts := [name] + PrintParams(ps);
            forall i :: 0 <= i < |parts| ==> ';' !in parts[i] && ':' !in parts[i]
  {
    hide PrintParam, PlainParam;
    var parts := [name] + PrintParams(ps);
    forall i | 0 <= i < |parts|
      ensures ';' !in parts[i] && ':' !in parts[i]
    {
      if i > 0 {
        ParamReadsBack(ps[i - 1]);
      }
    }
  }

  /** Reading a printed property returns its name, parameters and value. */
  lemma PropertyReadsBack(up: Casing, name: string, ps: seq<Param>, value: string)
    requires up(name) != "" && FreeOf(name, ":;") && forall i :: 0 <= i < |ps| ==> PlainParam(ps[i])
    ensures ParseProperty(up, PrintProperty(name, ps, value)) == Some(Property(up(name), ParamMap(up, ps, map[]), value))
  {
    hide JoinWith, SplitOn, Cut, PrintParam, PlainParam, ParseParams, ParamMap;
    var parts := [name] + PrintParams(ps);
    PartsPlain(name, ps);
    JoinFree(';', parts, ':');
    CutJoined(':', JoinWith(';', parts), value);
    assert PrintProperty(name, ps, value) == JoinWith(';', parts) + [':'] + value;
    SplitInvertsJoin(';', parts);
    assert parts[1..] == PrintParams(ps);
    ParamsReadBack(up, ps, map[]);
  }
}
