/**
 The front-matter scan of `registerNotifications` (main.ts): a note has a header only when
 its text starts with the delimiter "---"; the header lines are the lines after the first,
 up to (not including) the first line that is empty or equal to the delimiter, or to the
 end of the text.
 */
module Frontmatter {
  import opened Wrappers
  import opened Text

  const Delimiter: string := "---"

  /** A line that ends the header: the closing delimiter, or an empty (falsy) line. */
  predicate StopsHeader(line: string)
  {
    line == "" || line == Delimiter
  }

  /** Reference definition: the lines before the first stopping line. */
  function HeaderLines(lines: seq<string>): seq<string>
  {
    if |lines| == 0 || StopsHeader(lines[0]) then []
    else [lines[0]] + HeaderLines(lines[1..])
  }

  /** `h` is a prefix of `lines` that holds no stopping line and is followed by one or by the end. */
  predicate IsHeaderOf(h: seq<string>, lines: seq<string>)
  {
    && |h| <= |lines|
    && h == lines[..|h|]
    && (forall j :: 0 <= j < |h| ==> !StopsHeader(h[j]))
    && (|h| == |lines| || StopsHeader(lines[|h|]))
  }

  /** The reference definition yields the longest stop-free prefix. */
  lemma {:induction false} HeaderLinesIsHeader(lines: seq<string>)
    ensures IsHeaderOf(HeaderLines(lines), lines)
    decreases |lines|
  {
    if |lines| > 0 && !StopsHeader(lines[0]) {
      var t := HeaderLines(lines[1..]);
      HeaderLinesIsHeader(lines[1..]);
      var h := HeaderLines(lines);
      assert h == [lines[0]] + t;
      assert lines[..|h|] == [lines[0]] + lines[1..][..|t|];
      assert |h| < |lines| ==> lines[|h|] == lines[1..][|t|];
    }
  }

  /** Only one prefix is the longest stop-free one. */
  lemma {:induction false} HeaderIsHeaderLines(h: seq<string>, lines: seq<string>)
    requires IsHeaderOf(h, lines)
    ensures h == HeaderLines(lines)
    decreases |lines|
  {
    if |lines| > 0 && !StopsHeader(lines[0]) {
      assert |h| > 0;
      var t := h[1..];
      assert t == lines[1..][..|t|];
      assert |t| < |lines[1..]| ==> lines[1..][|t|] == lines[|h|];
      assert forall j :: 0 <= j < |t| ==> t[j] == h[j + 1];
      HeaderIsHeaderLines(t, lines[1..]);
      assert h == [lines[0]] + t;
    }
  }

  /** The header is exactly the longest stop-free prefix: both directions. */
  lemma HeaderLinesCharacterized(h: seq<string>, lines: seq<string>)
    ensures IsHeaderOf(h, lines) <==> h == HeaderLines(lines)
  {
    HeaderLinesIsHeader(lines);
    if IsHeaderOf(h, lines) {
      HeaderIsHeaderLines(h, lines);
    }
  }

  /** The header of a note: None when the text does not start with the delimiter. */
  function FrontmatterOf(content: string): (r: Option<seq<string>>)
    ensures r.Some? <==> StartsWith(content, Delimiter)
  {
    if StartsWith(content, Delimiter) then Some(HeaderLines(Split(content, '\n')[1..])) else None
  }

  /** A note that has a header has as header the longest stop-free run of lines after its first. */
  lemma FrontmatterIsHeader(content: string)
    requires StartsWith(content, Delimiter)
    ensures FrontmatterOf(content).Some?
    ensures IsHeaderOf(FrontmatterOf(content).value, Split(content, '\n')[1..])
  {
    HeaderLinesIsHeader(Split(content, '\n')[1..]);
  }

  /** `lines.shift()`: the first element (undefined when empty) and the remaining lines. */
  function Shift(lines: seq<string>): (Option<string>, seq<string>)
  {
    if |lines| == 0 then (None, []) else (Some(lines[0]), lines[1..])
  }

  /** The scan as main.ts runs it: shift lines off and push them until a falsy line or the delimiter. */
  method ExtractFrontmatter(content: string) returns (frontmatter: Option<seq<string>>)
    ensures frontmatter == FrontmatterOf(content)
  {
    if !StartsWith(content, Delimiter) {
      return None;
    }
    ghost var all := Split(content, '\n')[1..];
    var lines := Split(content, '\n')[1..];
    var header: seq<string> := [];
    var shifted := Shift(lines);
    var line := shifted.0;
    lines := shifted.1;
    ghost var pos := 0;
    while line.Some? && line.value != "" && line.value != Delimiter
      invariant pos == |header| <= |all|
      invariant header == all[..pos]
      invariant forall j :: 0 <= j < pos ==> !StopsHeader(all[j])
      invariant line == if pos < |all| then Some(all[pos]) else None
      invariant lines == if pos < |all| then all[pos + 1..] else []
      decreases |all| - pos
    {
      assert all[..pos + 1] == all[..pos] + [all[pos]];
      header := header + [line.value];
      pos := pos + 1;
      shifted := Shift(lines);
      line, lines := shifted.0, shifted.1;
      assert pos < |all| ==> lines == all[pos + 1..];
    }
    HeaderIsHeaderLines(header, all);
    frontmatter := Some(header);
  }
}
