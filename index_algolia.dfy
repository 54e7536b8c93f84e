/**
 * The text helpers of the documentation indexer: the title, the plain-text
 * summary and the heading outline of an MDX page, and the search record
 * built for each page.
 *
 * `extractTitle` and `extractHierarchy` are modelled line by line: a line
 * is a maximal run of characters without '\n'. `extractContent` is
 * modelled on the whole text, one regular expression at a time, following
 * JavaScript's leftmost-match semantics for each of them.
 */
module SearchIndex {
  import opened Wrappers
  import opened Strings

  // ---------------------------------------------------------------- lines

  function Lines(content: string): (r: seq<string>)
    ensures |r| >= 1
    ensures forall i :: 0 <= i < |r| ==> '\n' !in r[i]
    ensures JoinWith(r, '\n') == content
  {
    SplitOn(content, '\n')
  }

  /** The length of the run of `c` at the start of `s`: `#+` for a heading marker, `\n+` for a line break. */
  function CharRun(s: string, c: char): (n: nat)
    ensures n <= |s|
    ensures forall i :: 0 <= i < n ==> s[i] == c
    ensures n == |s| || s[n] != c
  {
    if s != [] && s[0] == c then 1 + CharRun(s[1..], c) else 0
  }

  /** A run of `c` followed by anything but `c` is counted in full. */
  lemma {:induction false} CharRunOf(run: string, rest: string, c: char)
    requires forall i :: 0 <= i < |run| ==> run[i] == c
    requires rest == [] || rest[0] != c
    ensures CharRun(run + rest, c) == |run|
    decreases |run|
  {
    if run == [] {
      assert run + rest == rest;
    } else {
      assert (run + rest)[1..] == run[1..] + rest;
      CharRunOf(run[1..], rest, c);
    }
  }

  /** The length of the run of white space `\s+` takes at the start of `s`. */
  function SpaceRun(s: string): (n: nat)
    ensures n <= |s|
    ensures forall i :: 0 <= i < n ==> IsSpace(s[i])
    ensures n == |s| || !IsSpace(s[n])
  {
    if s != [] && IsSpace(s[0]) then 1 + SpaceRun(s[1..]) else 0
  }

  // ------------------------------------------------------------- headings

  datatype Heading = Heading(level: nat, text: string)

  /**
   * A line the pattern `^#+\s+.+$` matches: one or more '#', then white
   * space, then at least one more character (`\s+` gives back a character
   * to `.+` when the rest of the line is blank).
   */
  predicate IsHeadingLine(line: string) {
    var k := CharRun(line, '#');
    1 <= k && k + 2 <= |line| && IsSpace(line[k])
  }

  /**
   * The level `h.match(/^#+/)[0].length` and the text of a heading line: what
   * follows the '#' run, trimmed (by `MarkerThenTrim` this is
   * `h.replace(/^#+\s+/, '').trim()`).
   */
  function HeadingOf(line: string): (h: Heading)
    requires IsHeadingLine(line)
    ensures h.level == CharRun(line, '#')
    ensures 1 <= h.level < |line| && IsSpace(line[h.level])
    ensures forall i :: 0 <= i < h.level ==> line[i] == '#'
  {
    var k := CharRun(line, '#');
    Heading(k, Trim(line[k..]))
  }

  /**
   * The text of a heading is `h.replace(/^#+\s+/, '').trim()`: with `k` the
   * length of the '#' run and `w` that of the greedy `\s+` after it, the line
   * from `k + w` on, trimmed.
   */
  lemma HeadingOfText(line: string, k: nat, w: nat)
    requires IsHeadingLine(line) && k == CharRun(line, '#') && w == SpaceRun(line[k..])
    ensures k + w <= |line| && HeadingOf(line).text == Trim(line[k + w..])
  {
    MarkerThenTrim(line, k, w);
  }

  /** Dropping some of the white space after position `k` before trimming changes nothing. */
  lemma MarkerThenTrim(line: string, k: nat, w: nat)
    requires k + w <= |line| && w <= SpaceRun(line[k..])
    ensures Trim(line[k + w..]) == Trim(line[k..])
  {
    TrimDropSpaces(line[k..], w);
    SuffixOfSuffix(line, k, w);
  }

  lemma SuffixOfSuffix(s: string, a: nat, b: nat)
    requires a + b <= |s|
    ensures s[a..][b..] == s[a + b..]
  {
  }

  /** The headings among `lines`, in order. */
  function Headings(lines: seq<string>): seq<Heading> {
    if lines == [] then []
    else (if IsHeadingLine(lines[0]) then [HeadingOf(lines[0])] else []) + Headings(lines[1..])
  }

  /** `extractHierarchy`: no match gives the empty outline. */
  function ExtractHierarchy(content: string): seq<Heading> {
    Headings(Lines(content))
  }

  /** The outline of a concatenation of lines is the concatenation of outlines. */
  lemma {:induction false} HeadingsConcat(a: seq<string>, b: seq<string>)
    ensures Headings(a + b) == Headings(a) + Headings(b)
  {
    if a != [] {
      assert (a + b)[1..] == a[1..] + b;
      HeadingsConcat(a[1..], b);
    } else {
      assert a + b == b;
    }
  }

  /** Every heading line contributes its heading, and nothing else does. */
  lemma {:induction false} HeadingsComplete(lines: seq<string>, i: nat)
    requires i < |lines|
    ensures IsHeadingLine(lines[i]) ==> HeadingOf(lines[i]) in Headings(lines)
    ensures |Headings(lines[..i + 1])| == |Headings(lines[..i])| + (if IsHeadingLine(lines[i]) then 1 else 0)
  {
    assert lines[..i + 1] == lines[..i] + [lines[i]];
    HeadingsConcat(lines[..i], [lines[i]]);
    assert lines == lines[..i + 1] + lines[i + 1..];
    HeadingsConcat(lines[..i + 1], lines[i + 1..]);
  }

  /** Every entry comes from a heading line: its level and text are that line's. */
  lemma {:induction false} HeadingsSound(lines: seq<string>, k: nat)
    requires k < |Headings(lines)|
    ensures exists i :: 0 <= i < |lines| && IsHeadingLine(lines[i]) && Headings(lines)[k] == HeadingOf(lines[i])
    decreases |lines|
  {
    HeadingsIndex(lines, k);
    if IsHeadingLine(lines[0]) && k == 0 {
      FromLine(lines, 0, Headings(lines)[k]);
    } else {
      var k' := if IsHeadingLine(lines[0]) then k - 1 else k;
      HeadingsSound(lines[1..], k');
      FromLaterLine(lines, Headings(lines[1..])[k']);
    }
  }

  /** A heading of some line after the first is a heading of some line. */
  lemma FromLaterLine(lines: seq<string>, h: Heading)
    requires lines != []
    requires exists i :: 0 <= i < |lines[1..]| && IsHeadingLine(lines[1..][i]) && h == HeadingOf(lines[1..][i])
    ensures exists i :: 0 <= i < |lines| && IsHeadingLine(lines[i]) && h == HeadingOf(lines[i])
  {
    var i :| 0 <= i < |lines[1..]| && IsHeadingLine(lines[1..][i]) && h == HeadingOf(lines[1..][i]);
    assert lines[1..][i] == lines[i + 1];
    FromLine(lines, i + 1, h);
  }

  /** Entry `k` of the outline: the first line's heading, or an entry of the later lines' outline. */
  lemma HeadingsIndex(lines: seq<string>, k: nat)
    requires k < |Headings(lines)|
    ensures lines != []
    ensures IsHeadingLine(lines[0]) && k == 0 ==> Headings(lines)[k] == HeadingOf(lines[0])
    ensures IsHeadingLine(lines[0]) && k > 0 ==>
              k - 1 < |Headings(lines[1..])| && Headings(lines)[k] == Headings(lines[1..])[k - 1]
    ensures !IsHeadingLine(lines[0]) ==>
              k < |Headings(lines[1..])| && Headings(lines)[k] == Headings(lines[1..])[k]
  {
    assert lines != [];
    var first := if IsHeadingLine(lines[0]) then [HeadingOf(lines[0])] else [];
    assert Headings(lines) == first + Headings(lines[1..]);
  }

  lemma FromLine(lines: seq<string>, i: nat, h: Heading)
    requires i < |lines| && IsHeadingLine(lines[i]) && h == HeadingOf(lines[i])
    ensures exists j :: 0 <= j < |lines| && IsHeadingLine(lines[j]) && h == HeadingOf(lines[j])
  {
  }

  // ---------------------------------------------------------------- title

  /** A line the pattern `^#\s+(.+)$` matches. */
  predicate IsTitleLine(line: string) {
    3 <= |line| && line[0] == '#' && IsSpace(line[1])
  }

  /** The group `(.+)` captures: after the white space `\s+` keeps. */
  function TitleCapture(line: string): (c: string)
    requires IsTitleLine(line)
    ensures c != [] && Trim(c) == Trim(line[1..])
  {
    var w := SpaceRun(line[1..]);
    var keep := if w <= |line| - 2 then w else |line| - 2;
    MarkerThenTrim(line, 1, keep);
    line[1 + keep..]
  }


  function TitleAmong(lines: seq<string>): string {
    if lines == [] then "Untitled"
    else if IsTitleLine(lines[0]) then Trim(TitleCapture(lines[0]))
    else TitleAmong(lines[1..])
  }

  /** `extractTitle`: the first single-'#' heading, trimmed, or "Untitled". */
  function ExtractTitle(content: string): string {
    TitleAmong(Lines(content))
  }

  /** The title of an outline: the text of its first level-1 heading. */
  function FirstLevelOne(hs: seq<Heading>): string {
    if hs == [] then "Untitled"
    else if hs[0].level == 1 then hs[0].text
    else FirstLevelOne(hs[1..])
  }

  /** The title is the text of the outline's first level-1 heading. */
  lemma {:induction false} TitleIsFirstLevelOne(lines: seq<string>)
    ensures TitleAmong(lines) == FirstLevelOne(Headings(lines))
  {
    if lines != [] {
      var line := lines[0];
      assert IsTitleLine(line) <==> IsHeadingLine(line) && CharRun(line, '#') == 1 by {
        if IsTitleLine(line) {
          assert line[1..] != [] && line[1..][0] == line[1];
          assert CharRun(line[1..], '#') == 0;
        }
      }
      TitleIsFirstLevelOne(lines[1..]);
      if IsHeadingLine(line) {
        var hs := [HeadingOf(line)] + Headings(lines[1..]);
        assert Headings(lines) == hs && hs[0] == HeadingOf(line) && hs[1..] == Headings(lines[1..]);
        if IsTitleLine(line) {
          assert TitleAmong(lines) == Trim(line[1..]);
          assert FirstLevelOne(hs) == Trim(line[1..]);
        } else {
          assert TitleAmong(lines) == TitleAmong(lines[1..]);
          assert FirstLevelOne(hs) == FirstLevelOne(hs[1..]);
        }
      } else {
        assert Headings(lines) == Headings(lines[1..]);
      }
    }
  }

  lemma ExtractTitleFromOutline(content: string)
    ensures ExtractTitle(content) == FirstLevelOne(ExtractHierarchy(content))
  {
    TitleIsFirstLevelOne(Lines(content));
  }

  /** A first line that is a title line gives the title. */
  lemma TitleFromFirstLine(line: string, rest: string)
    requires '\n' !in line && IsTitleLine(line)
    ensures ExtractTitle(line + "\n" + rest) == Trim(line[1..])
  {
    SplitOnConcat(line, '\n', rest);
    SplitOnNoSeparator(line, '\n');
  }

  /** A first line starting with "##" is never the title. */
  lemma TitleSkipsSubheading(line: string, rest: string)
    requires '\n' !in line && |line| >= 2 && line[..2] == "##"
    ensures ExtractTitle(line + "\n" + rest) == ExtractTitle(rest)
  {
    assert line[1] == '#';
    SplitOnConcat(line, '\n', rest);
    SplitOnNoSeparator(line, '\n');
    assert ([line] + Lines(rest))[1..] == Lines(rest);
  }

  // -------------------------------------------------------------- content

  const Fence := "```"

  /** `.replace(/```[\s\S]*?```/g, '')`: each fence up to the next fence. */
  function StripFences(s: string): string
    decreases |s|
  {
    if |s| < 3 then s
    else if s[..3] == Fence && IndexOf(s[3..], Fence).Some? then
      StripFences(s[3 + IndexOf(s[3..], Fence).value + 3..])
    else [s[0]] + StripFences(s[1..])
  }

  /** `.replace(/`[^`]+`/g, '')`: a backtick, at least one other character, a backtick. */
  function StripInline(s: string): string
    decreases |s|
  {
    if s == [] then []
    else if s[0] == '`' && IndexOf(s[1..], "`").Some? && IndexOf(s[1..], "`").value >= 1 then
      StripInline(s[IndexOf(s[1..], "`").value + 2..])
    else [s[0]] + StripInline(s[1..])
  }

  /** The characters after which `^` matches in a multi-line pattern. */
  predicate IsLineTerminator(ch: char) {
    ch == '\n' || ch == '\r' || ch == '\U{2028}' || ch == '\U{2029}'
  }

  /** The length of a match of `^#+\s+` at the start of `s`, or 0 for none. */
  function HeadingMarker(s: string): (n: nat)
    ensures n <= |s|
    ensures n > 0 ==> s[0] == '#' && IsSpace(s[n - 1])
  {
    var k := CharRun(s, '#');
    if 1 <= k < |s| && IsSpace(s[k]) then k + SpaceRun(s[k..]) else 0
  }

  /**
   * `.replace(/^#+\s+/gm, '')`; `start` says whether `s` begins where `^`
   * matches (the start of the text or just after a line terminator).
   */
  function StripHeadings(s: string, start: bool): string
    decreases |s|
  {
    if s == [] then []
    else if start && HeadingMarker(s) > 0 then
      StripHeadings(s[HeadingMarker(s)..], IsLineTerminator(s[HeadingMarker(s) - 1]))
    else [s[0]] + StripHeadings(s[1..], IsLineTerminator(s[0]))
  }

  /**
   * A match of `\[([^\]]+)\]\([^)]+\)` at the start of `s`: the index of
   * the closing bracket and the length of the match.
   */
  function LinkAt(s: string): (r: Option<(nat, nat)>)
    ensures r.Some? ==> 1 < r.value.0 < r.value.1 <= |s|
  {
    if s == [] || s[0] != '[' then None
    else
      var close := IndexOf(s[1..], "]");
      if close.None? || close.value == 0 then None
      else
        var c := 1 + close.value;
        if c + 1 >= |s| || s[c + 1] != '(' then None
        else
          var paren := IndexOf(s[c + 2..], ")");
          if paren.None? || paren.value == 0 then None
          else Some((c, c + 2 + paren.value + 1))
  }

  /** `.replace(/\[([^\]]+)\]\([^)]+\)/g, '$1')`: each link becomes its text. */
  function ReplaceLinks(s: string): string
    decreases |s|
  {
    if s == [] then []
    else if LinkAt(s).Some? then
      s[1..LinkAt(s).value.0] + ReplaceLinks(s[LinkAt(s).value.1..])
    else [s[0]] + ReplaceLinks(s[1..])
  }

  predicate IsFormatting(ch: char) {
    ch == '*' || ch == '_' || ch == '~' || ch == '`'
  }

  /** `.replace(/[*_~`]/g, '')`. */
  function RemoveFormatting(s: string): (r: string)
    ensures forall i :: 0 <= i < |r| ==> !IsFormatting(r[i])
    ensures forall ch :: ch in r <==> ch in s && !IsFormatting(ch)
  {
    if s == [] then []
    else (if IsFormatting(s[0]) then [] else [s[0]]) + RemoveFormatting(s[1..])
  }

  /** `.replace(/\n+/g, ' ')`: each run of newlines becomes one space. */
  function CollapseNewlines(s: string): (r: string)
    ensures forall i :: 0 <= i < |r| ==> r[i] != '\n'
    ensures forall ch :: ch in s && ch != '\n' ==> ch in r
    ensures forall ch :: ch in r ==> ch in s || ch == ' '
    ensures '\n' in s ==> ' ' in r
    decreases |s|
  {
    if s == [] then []
    else if s[0] == '\n' then
      var n := CharRun(s, '\n');
      assert forall ch :: ch in s && ch != '\n' ==> ch in s[n..] by {
        forall ch | ch in s && ch != '\n' ensures ch in s[n..] {
          var i :| 0 <= i < |s| && s[i] == ch;
          assert i >= n;
          assert s[n..][i - n] == ch;
        }
      }
      [' '] + CollapseNewlines(s[n..])
    else [s[0]] + CollapseNewlines(s[1..])
  }

  /** Removing formatting works piece by piece, so the kept characters stay in order. */
  lemma {:induction false} RemoveFormattingConcat(a: string, b: string)
    ensures RemoveFormatting(a + b) == RemoveFormatting(a) + RemoveFormatting(b)
  {
    if a == [] {
      assert a + b == b;
    } else {
      assert (a + b)[1..] == a[1..] + b;
      RemoveFormattingConcat(a[1..], b);
    }
  }

  /** Text split after a character other than a newline collapses piece by piece. */
  lemma {:induction false} CollapseNewlinesConcat(a: string, b: string)
    requires a == [] || a[|a| - 1] != '\n'
    ensures CollapseNewlines(a + b) == CollapseNewlines(a) + CollapseNewlines(b)
    decreases |a|
  {
    if a == [] {
      assert a + b == b;
    } else if a[0] != '\n' {
      assert (a + b)[1..] == a[1..] + b;
      CollapseNewlinesConcat(a[1..], b);
    } else {
      var n := CharRun(a, '\n');
      NewlineRunWithin(a, b);
      CollapseAfterRun(a, b, n);
      CollapseNewlinesConcat(a[n..], b);
    }
  }

  lemma CollapseAfterRun(a: string, b: string, n: nat)
    requires 0 < n < |a| && a[0] == '\n' && n == CharRun(a, '\n') == CharRun(a + b, '\n')
    ensures CollapseNewlines(a + b) == [' '] + CollapseNewlines(a[n..] + b)
    ensures CollapseNewlines(a) == [' '] + CollapseNewlines(a[n..])
    ensures a[n..][|a[n..]| - 1] == a[|a| - 1]
  {
    assert (a + b)[n..] == a[n..] + b;
  }

  /** A run of newlines that ends inside `a` is the same run in `a + b`. */
  lemma {:induction false} NewlineRunWithin(a: string, b: string)
    requires a != [] && a[|a| - 1] != '\n'
    ensures CharRun(a + b, '\n') == CharRun(a, '\n') < |a|
    decreases |a|
  {
    if a[0] == '\n' {
      assert |a| > 1;
      assert (a + b)[1..] == a[1..] + b;
      NewlineRunWithin(a[1..], b);
    }
  }

  /** A run of newlines becomes one space. */
  lemma {:induction false} NewlinesBecomeSpace(newlines: string, rest: string)
    requires newlines != [] && forall i :: 0 <= i < |newlines| ==> newlines[i] == '\n'
    requires rest == [] || rest[0] != '\n'
    ensures CollapseNewlines(newlines + rest) == " " + CollapseNewlines(rest)
  {
    CharRunOf(newlines, rest, '\n');
    assert (newlines + rest)[|newlines|..] == rest;
  }

  /** The cleaned text of `extractContent`, before it is truncated. */
  function CleanText(content: string): (t: string)
    ensures forall i :: 0 <= i < |t| ==> !IsFormatting(t[i]) && t[i] != '\n'
    ensures t == [] || (!IsSpace(t[0]) && !IsSpace(t[|t| - 1]))
  {
    var noCode := StripInline(StripFences(content));
    var plain := RemoveFormatting(ReplaceLinks(StripHeadings(noCode, true)));
    CollapseKeepsUnformatted(plain);
    TrimKeepsClean(CollapseNewlines(plain));
    Trim(CollapseNewlines(plain))
  }

  /** Collapsing newlines introduces only spaces. */
  lemma {:induction false} CollapseKeepsUnformatted(s: string)
    requires forall i :: 0 <= i < |s| ==> !IsFormatting(s[i])
    ensures forall i :: 0 <= i < |CollapseNewlines(s)| ==> !IsFormatting(CollapseNewlines(s)[i])
    decreases |s|
  {
    if s != [] {
      var n := if s[0] == '\n' then CharRun(s, '\n') else 1;
      assert n >= 1;
      CollapseKeepsUnformatted(s[n..]);
    }
  }

  /** Trimming keeps a text free of formatting characters and newlines. */
  lemma TrimKeepsClean(s: string)
    requires forall i :: 0 <= i < |s| ==> !IsFormatting(s[i]) && s[i] != '\n'
    ensures forall i :: 0 <= i < |Trim(s)| ==> !IsFormatting(Trim(s)[i]) && Trim(s)[i] != '\n'
  {
    TrimKeeps(s, ch => !IsFormatting(ch) && ch != '\n');
  }

  const MaxContentLength := 500
  const Ellipsis := "..."

  /** `extractContent`: the cleaned text, cut to 500 characters plus "...". */
  function ExtractContent(content: string): (r: string)
    ensures |r| <= MaxContentLength + |Ellipsis|
    ensures |CleanText(content)| <= MaxContentLength ==> r == CleanText(content)
    ensures |CleanText(content)| > MaxContentLength ==>
      r == CleanText(content)[..MaxContentLength] + Ellipsis
    ensures forall i :: 0 <= i < |r| ==> !IsFormatting(r[i]) && r[i] != '\n'
  {
    var text := CleanText(content);
    var r := if |text| > MaxContentLength then text[..MaxContentLength] + Ellipsis else text;
    TruncationKeepsChars(text, r);
    r
  }

  lemma TruncationKeepsChars(text: string, r: string)
    requires forall i :: 0 <= i < |text| ==> !IsFormatting(text[i]) && text[i] != '\n'
    requires r == if |text| > MaxContentLength then text[..MaxContentLength] + Ellipsis else text
    ensures |r| <= MaxContentLength + |Ellipsis|
    ensures forall i :: 0 <= i < |r| ==> !IsFormatting(r[i]) && r[i] != '\n'
  {
    if |text| > MaxContentLength {
      assert forall i :: MaxContentLength <= i < |r| ==> r[i] == '.';
    }
  }

  // ------------------------------------------------- what the stages remove

  /** A link `[text](url)` becomes its text. */
  lemma LinkBecomesText(text: string, url: string, rest: string)
    requires text != [] && ']' !in text && url != [] && ')' !in url
    ensures ReplaceLinks("[" + text + "](" + url + ")" + rest) == text + ReplaceLinks(rest)
  {
    var s := "[" + text + "](" + url + ")" + rest;
    var c := 1 + |text|;
    LinkFound(text, url, rest);
    assert s[1..c] == text;
    assert s[c + 2 + |url| + 1..] == rest;
  }

  lemma LinkFound(text: string, url: string, rest: string)
    requires text != [] && ']' !in text && url != [] && ')' !in url
    ensures LinkAt("[" + text + "](" + url + ")" + rest) == Some((1 + |text|, 1 + |text| + 2 + |url| + 1))
  {
    LinkClose(text, url, rest);
    LinkTarget(text, url, rest);
  }

  lemma LinkClose(text: string, url: string, rest: string)
    requires ']' !in text
    ensures IndexOf(("[" + text + "](" + url + ")" + rest)[1..], "]") == Some(|text|)
  {
    var tail := "(" + url + ")" + rest;
    assert ("[" + text + "](" + url + ")" + rest)[1..] == text + "]" + tail;
    IndexOfAfter(text, "]", tail);
  }

  lemma LinkTarget(text: string, url: string, rest: string)
    requires ')' !in url
    ensures var s := "[" + text + "](" + url + ")" + rest;
            s[|text| + 2] == '(' && IndexOf(s[|text| + 3..], ")") == Some(|url|)
  {
    var s := "[" + text + "](" + url + ")" + rest;
    assert s[|text| + 3..] == url + ")" + rest;
    IndexOfAfter(url, ")", rest);
  }

  /** Inline code `` `code` `` is removed with its backticks. */
  lemma InlineCodeRemoved(code: string, rest: string)
    requires code != [] && '`' !in code
    ensures StripInline("`" + code + "`" + rest) == StripInline(rest)
  {
    var s := "`" + code + "`" + rest;
    assert s[1..] == code + "`" + rest;
    IndexOfAfter(code, "`", rest);
    assert s[|code| + 2..] == rest;
  }

  /**
   * The lazy `[\s\S]*?` stops at the first fence after the opening one: code that holds
   * no fence and does not end with a backtick is followed by its own closing fence.
   */
  lemma FenceFirstAt(code: string, rest: string)
    requires IndexOf(code, Fence).None?
    requires code == [] || code[|code| - 1] != '`'
    ensures IndexOf(code + Fence + rest, Fence) == Some(|code|)
  {
    var s := code + Fence + rest;
    assert s[|code|..|code| + 3] == Fence;
    forall j: nat | j < |code|
      ensures !OccursAt(s, Fence, j)
    {
      if j + 3 <= |code| {
        assert s[j..j + 3] == code[j..j + 3];
        assert !OccursAt(code, Fence, j);
      } else {
        assert s[j..j + 3][|code| - 1 - j] == s[|code| - 1] == code[|code| - 1];
      }
    }
    IndexOfFirst(s, Fence, |code|);
  }

  /** A fenced block, single backticks included, is removed from its opening fence through its closing one. */
  lemma FenceRemoved(code: string, rest: string)
    requires IndexOf(code, Fence).None?
    requires code == [] || code[|code| - 1] != '`'
    ensures StripFences(Fence + code + Fence + rest) == StripFences(rest)
  {
    var s := Fence + code + Fence + rest;
    assert s[..3] == Fence;
    assert s[3..] == code + Fence + rest;
    FenceFirstAt(code, rest);
    assert s[3 + |code| + 3..] == rest;
  }

  /** A TypeScript block with a template literal, `const s = `hi`;`, is removed like any other. */
  lemma TemplateLiteralBlockRemoved(rest: string)
    ensures StripFences(Fence + "const s = `hi`;\n" + Fence + rest) == StripFences(rest)
  {
    var code := "const s = `hi`;\n";
    NoFenceIn(code);
    FenceRemoved(code, rest);
  }

  /** Text with no three backticks in a row holds no fence. */
  lemma NoFenceIn(code: string)
    requires forall j :: 0 <= j < |code| - 2 ==> code[j] != '`' || code[j + 1] != '`' || code[j + 2] != '`'
    ensures IndexOf(code, Fence).None?
  {
    forall j: nat | j <= |code|
      ensures !OccursAt(code, Fence, j)
    {
      if j + 3 <= |code| {
        var w := code[j..j + 3];
        assert w[0] == code[j] && w[1] == code[j + 1] && w[2] == code[j + 2];
      }
    }
  }

  /** A heading marker at the start of a line is removed with one space after it. */
  lemma HeadingMarkerRemoved(hashes: string, text: string)
    requires hashes != [] && forall i :: 0 <= i < |hashes| ==> hashes[i] == '#'
    requires text == [] || !IsSpace(text[0])
    ensures StripHeadings(hashes + " " + text, true) == StripHeadings(text, false)
  {
    var s := hashes + " " + text;
    CharRunOf(hashes, " " + text, '#');
    var k := |hashes|;
    assert s[k..] == " " + text && s[k..][1..] == text;
    assert s[k] == ' ';
    assert SpaceRun(s[k..]) == 1;
    assert HeadingMarker(s) == k + 1;
    assert s[k + 1..] == text;
  }

  /** Characters no stage of `extractContent` touches, apart from trimming. */
  predicate IsPlain(ch: char) {
    !IsFormatting(ch) && ch != '#' && ch != '[' && ch != '\n'
  }

  lemma {:induction false} FencesPlain(s: string)
    requires '`' !in s
    ensures StripFences(s) == s
    decreases |s|
  {
    if |s| >= 3 {
      assert s[..3][0] == s[0];
      FencesPlain(s[1..]);
    }
  }

  lemma {:induction false} InlinePlain(s: string)
    requires '`' !in s
    ensures StripInline(s) == s
    decreases |s|
  {
    if s != [] {
      InlinePlain(s[1..]);
    }
  }

  lemma {:induction false} HeadingsPlain(s: string, start: bool)
    requires '#' !in s
    ensures StripHeadings(s, start) == s
    decreases |s|
  {
    if s != [] {
      HeadingsPlain(s[1..], IsLineTerminator(s[0]));
    }
  }

  lemma {:induction false} LinksPlain(s: string)
    requires '[' !in s
    ensures ReplaceLinks(s) == s
    decreases |s|
  {
    if s != [] {
      LinksPlain(s[1..]);
    }
  }

  lemma {:induction false} FormattingPlain(s: string)
    requires forall i :: 0 <= i < |s| ==> !IsFormatting(s[i])
    ensures RemoveFormatting(s) == s
  {
    if s != [] {
      FormattingPlain(s[1..]);
    }
  }

  lemma {:induction false} NewlinesPlain(s: string)
    requires '\n' !in s
    ensures CollapseNewlines(s) == s
    decreases |s|
  {
    if s != [] {
      NewlinesPlain(s[1..]);
    }
  }

  /** Text without markup characters is only trimmed. */
  lemma PlainText(s: string)
    requires forall i :: 0 <= i < |s| ==> IsPlain(s[i])
    ensures CleanText(s) == Trim(s)
  {
    FencesPlain(s);
    InlinePlain(s);
    HeadingsPlain(s, true);
    LinksPlain(s);
    FormattingPlain(s);
    NewlinesPlain(s);
  }

  // -------------------------------------------------------------- records

  const MdxExtension := ".mdx"
  const UrlPrefix := "#/docs/"

  /** `relativePath.replace('.mdx', '').toLowerCase()`. */
  function DocPath(relativePath: string): (d: string)
    ensures forall i :: 0 <= i < |d| ==> !('A' <= d[i] <= 'Z')
  {
    Lower(ReplaceFirst(relativePath, MdxExtension, ""))
  }

  /** ".mdx" has no border, so appended to a stem without it, it is found at the end. */
  lemma MdxFoundAtEnd(stem: string)
    requires IndexOf(stem, MdxExtension).None?
    ensures IndexOf(stem + MdxExtension, MdxExtension) == Some(|stem|)
  {
    AtEnd(stem, MdxExtension);
    MdxNotBeforeEnd(stem);
    IndexOfFirst(stem + MdxExtension, MdxExtension, |stem|);
  }

  lemma AtEnd(stem: string, ext: string)
    ensures OccursAt(stem + ext, ext, |stem|)
  {
    assert (stem + ext)[|stem|..|stem| + |ext|] == ext;
  }

  lemma MdxNotBeforeEnd(stem: string)
    requires IndexOf(stem, MdxExtension).None?
    ensures forall j :: 0 <= j < |stem| ==> !OccursAt(stem + MdxExtension, MdxExtension, j)
  {
    forall j | 0 <= j < |stem| ensures !OccursAt(stem + MdxExtension, MdxExtension, j) {
      if j + 4 <= |stem| {
        NotInStem(stem, MdxExtension, j);
      } else {
        MdxNotAcrossEnd(stem, j);
      }
    }
  }

  lemma NotInStem(stem: string, ext: string, j: nat)
    requires j + |ext| <= |stem| && !OccursAt(stem, ext, j)
    ensures !OccursAt(stem + ext, ext, j)
  {
    assert (stem + ext)[j..j + |ext|] == stem[j..j + |ext|];
  }

  lemma MdxNotAcrossEnd(stem: string, j: nat)
    requires j < |stem| < j + 4
    ensures !OccursAt(stem + MdxExtension, MdxExtension, j)
  {
    var s := stem + MdxExtension;
    assert s[j..j + 4][|stem| - j] == s[|stem|] == '.';
  }

  /** The page "<stem>.mdx" gets the document path `stem`, lowered. */
  lemma DocPathOfPage(stem: string)
    requires IndexOf(stem, MdxExtension).None?
    ensures DocPath(stem + MdxExtension) == Lower(stem)
  {
    MdxFoundAtEnd(stem);
    assert (stem + MdxExtension)[..|stem|] == stem;
    assert (stem + MdxExtension)[|stem| + 4..] == [];
    assert stem + [] == stem;
  }

  /** An MDX file: its path relative to the content directory and its text. */
  datatype Page = Page(relativePath: string, content: string)

  datatype Record = Record(
    objectID: string, title: string, content: string,
    path: string, hierarchy: seq<Heading>, url: string)

  /** The record `indexDocumentation` pushes for `page`. */
  predicate Describes(r: Record, page: Page) {
    && r.objectID == DocPath(page.relativePath)
    && r.path == r.objectID
    && r.url == UrlPrefix + r.path
    && r.title == ExtractTitle(page.content)
    && r.content == ExtractContent(page.content)
    && r.hierarchy == ExtractHierarchy(page.content)
  }

  /** The object literal `indexDocumentation` pushes for `page`. */
  function RecordOf(page: Page): (r: Record)
    ensures Describes(r, page)
  {
    var docPath := DocPath(page.relativePath);
    Record(docPath, ExtractTitle(page.content), ExtractContent(page.content),
           docPath, ExtractHierarchy(page.content), UrlPrefix + docPath)
  }

  /** The records of `pages`, in page order. */
  function RecordsOf(pages: seq<Page>): (r: seq<Record>)
    ensures |r| == |pages|
  {
    if pages == [] then [] else RecordsOf(pages[..|pages| - 1]) + [RecordOf(pages[|pages| - 1])]
  }

  /** Record `i` describes page `i`. */
  lemma {:induction false} RecordsDescribe(pages: seq<Page>, i: nat)
    requires i < |pages|
    ensures Describes(RecordsOf(pages)[i], pages[i])
    decreases |pages|
  {
    if i < |pages| - 1 {
      var init := pages[..|pages| - 1];
      RecordsDescribe(init, i);
      assert RecordsOf(pages)[i] == RecordsOf(init)[i];
    }
  }

  /** The loop of `indexDocumentation`: one record per page, in page order. */
  method IndexDocumentation(pages: seq<Page>) returns (records: seq<Record>)
    ensures |records| == |pages|
    ensures forall i :: 0 <= i < |pages| ==> Describes(records[i], pages[i])
  {
    records := [];
    for i := 0 to |pages|
      invariant records == RecordsOf(pages[..i])
    {
      assert pages[..i + 1][..i] == pages[..i];
      records := records + [RecordOf(pages[i])];
    }
    assert pages[..|pages|] == pages;
    forall i | 0 <= i < |pages| ensures Describes(records[i], pages[i]) {
      RecordsDescribe(pages, i);
    }
  }
}
