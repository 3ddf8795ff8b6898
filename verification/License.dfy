/** The licence-header tool: strip an old header block, inject the current one. */
module License {
  import opened Numbers
  import opened Text

  datatype Style = Hash | Line | Block

  // Long texts are written in pieces, which keeps facts about their characters cheap.

  const SENTINEL := "SPDX-License-Identifier: " + "LicenseRef-P3-Plus"

  const SEARCH_WINDOW: nat := 15

  const TAG := "SPDX-FileCopyrightText: "
  const OWNER := "Copyright (C) 2026 rootq "
  const EMAIL := "<contact@rootq.de>"
  const CHANGES := "Modification/Redistribution "
  const PROHIBITED := "prohibited (see LICENSE-PLUS "
  const EXCEPTION := "for security-patch exception)"

  /** The six header texts without comment marks. */
  const TEXTS: seq<string> := [
    SENTINEL,
    TAG + OWNER + EMAIL,
    "=== P3 PLUS \U{2013} PROPRIETARY ===",
    "Licensed under LICENSE-PLUS " + "(see repo root)",
    CHANGES + PROHIBITED + EXCEPTION,
    "Contact: license@p3portal.org" ]

  function Mark(style: Style): string
  {
    match style case Hash => "# " case Line => "// " case Block => "/* "
  }

  function End(style: Style): string
  {
    if style == Block then " */" else ""
  }

  function Comment(style: Style): string -> string
  {
    (text: string) => Mark(style) + text + End(style)
  }

  /** The lines of `_build_header`, which ends each of them with a line break. */
  function HeaderLines(style: Style): seq<string>
  {
    Each(Comment(style), TEXTS)
  }

  // ------------------------------------------------------------------- tests

  /** `_has_header` */
  predicate HasHeader(content: string)
  {
    var lines := SplitLines(content);
    exists i :: 0 <= i < Min(SEARCH_WINDOW, |lines|) && Contains(lines[i], SENTINEL)
  }

  predicate IsShebang(line: string)
  {
    "#!" <= line
  }

  /** `_is_comment_line` */
  predicate IsCommentLine(line: string, style: Style)
  {
    var stripped := Strip(line);
    stripped != "" &&
    match style
    case Hash => "#" <= stripped && !("#!" <= stripped)
    case Line => "//" <= stripped
    case Block => "/*" <= stripped || "*" <= stripped
  }

  function Concat(lines: seq<string>): string
  {
    if lines == [] then "" else lines[0] + Concat(lines[1..])
  }

  // --------------------------------------------------------------- stripping

  /** 1 if the first line is a shebang, which stays where it is. */
  function Start(lines: seq<string>): (r: nat)
    ensures r <= 1 && r <= |lines|
  {
    if lines != [] && IsShebang(lines[0]) then 1 else 0
  }

  /** The first line from `i` on, below `end`, that holds the sentinel, or `end`. */
  function FindSentinel(lines: seq<string>, i: nat, end: nat): (r: nat)
    requires i <= end <= |lines|
    ensures i <= r <= end && (r < end ==> Contains(lines[r], SENTINEL))
    ensures forall j :: i <= j < r ==> !Contains(lines[j], SENTINEL)
    decreases end - i
  {
    if i == end || Contains(lines[i], SENTINEL) then i else FindSentinel(lines, i + 1, end)
  }

  function WalkBack(lines: seq<string>, start: nat, i: nat, style: Style): (r: nat)
    requires start <= i <= |lines|
    ensures start <= r <= i
    decreases i
  {
    if i > start && IsCommentLine(lines[i - 1], style) then WalkBack(lines, start, i - 1, style) else i
  }

  function WalkForward(lines: seq<string>, i: nat, style: Style): (r: nat)
    requires i <= |lines|
    ensures i <= r <= |lines|
    decreases |lines| - i
  {
    if i < |lines| && IsCommentLine(lines[i], style) then WalkForward(lines, i + 1, style) else i
  }

  /** The end of the old block, one blank line after it included. */
  function BlockEnd(lines: seq<string>, i: nat, style: Style): (r: nat)
    requires i <= |lines|
    ensures i <= r <= |lines|
  {
    var end := WalkForward(lines, i, style);
    if end < |lines| && Strip(lines[end]) == "" then end + 1 else end
  }

  /** The end of the lines searched for the sentinel. */
  function Window(lines: seq<string>): (r: nat)
    ensures Start(lines) <= r <= |lines|
  {
    Min(Start(lines) + SEARCH_WINDOW, |lines|)
  }

  /** `_strip_old_header` */
  function StripOld(content: string, style: Style): string
  {
    var lines := SplitKeep(content);
    var start := Start(lines);
    var window := Window(lines);
    var found := FindSentinel(lines, start, window);
    if found == window then content
    else Concat(lines[..start] + lines[BlockEnd(lines, WalkBack(lines, start, found, style), style)..])
  }

  method FindHeaderLine(lines: seq<string>, start: nat, window: nat) returns (i: nat)
    requires start <= window <= |lines|
    ensures i == FindSentinel(lines, start, window)
  {
    i := start;
    while i < window && !Contains(lines[i], SENTINEL)
      invariant start <= i <= window
      invariant FindSentinel(lines, start, window) == FindSentinel(lines, i, window)
    {
      i := i + 1;
    }
  }

  method FindBlock(lines: seq<string>, start: nat, i: nat, style: Style) returns (headerEnd: nat)
    requires start <= i <= |lines|
    ensures headerEnd == BlockEnd(lines, WalkBack(lines, start, i, style), style)
  {
    var j := i;
    while j > start && IsCommentLine(lines[j - 1], style)
      invariant start <= j <= i
      invariant WalkBack(lines, start, i, style) == WalkBack(lines, start, j, style)
    {
      j := j - 1;
    }
    headerEnd := j;
    while headerEnd < |lines| && IsCommentLine(lines[headerEnd], style)
      invariant j <= headerEnd <= |lines|
      invariant WalkForward(lines, j, style) == WalkForward(lines, headerEnd, style)
    {
      headerEnd := headerEnd + 1;
    }
    if headerEnd < |lines| && Strip(lines[headerEnd]) == "" {
      headerEnd := headerEnd + 1;
    }
  }

  method StripOldHeader(content: string, style: Style) returns (r: string)
    ensures r == StripOld(content, style)
  {
    var lines := SplitKeep(content);
    var start := Start(lines);
    var window := Window(lines);
    var i := FindHeaderLine(lines, start, window);
    if i == window {
      return content;
    }
    var headerEnd := FindBlock(lines, start, i, style);
    r := Concat(lines[..start] + lines[headerEnd..]);
  }

  // ------------------------------------------------------ what stripping takes

  /** A line that is neither a comment nor blank. */
  predicate IsCode(line: string, style: Style)
  {
    !IsCommentLine(line, style) && Strip(line) != ""
  }

  /** The lines that stripping removes: from the start of the file, not from the
      start of the comment block. */
  function Gone(content: string, style: Style): seq<string>
  {
    var lines := SplitKeep(content);
    var start := Start(lines);
    var found := FindSentinel(lines, start, Window(lines));
    if found == Window(lines) then [] else lines[start..BlockEnd(lines, WalkBack(lines, start, found, style), style)]
  }

  lemma {:induction false} BackOverComments(lines: seq<string>, start: nat, i: nat, style: Style)
    requires start <= i <= |lines|
    ensures forall k :: WalkBack(lines, start, i, style) <= k < i ==> IsCommentLine(lines[k], style)
    decreases i
  {
    if i > start && IsCommentLine(lines[i - 1], style) { BackOverComments(lines, start, i - 1, style); }
  }

  lemma {:induction false} ForwardOverComments(lines: seq<string>, i: nat, k: nat, style: Style)
    requires i <= k < |lines| && k < WalkForward(lines, i, style)
    ensures IsCommentLine(lines[k], style)
    decreases |lines| - i
  {
    if k > i { ForwardOverComments(lines, i + 1, k, style); }
  }

  lemma {:induction false} ForwardBeyond(lines: seq<string>, i: nat, j: nat, style: Style)
    requires i <= j <= |lines| && forall k :: i <= k < j ==> IsCommentLine(lines[k], style)
    ensures WalkForward(lines, i, style) >= j
    decreases |lines| - i
  {
    if i < j { ForwardBeyond(lines, i + 1, j, style); }
  }

  lemma CodeBefore(lines: seq<string>, start: nat, found: nat, style: Style)
    requires start <= found < |lines|
    ensures var end := BlockEnd(lines, WalkBack(lines, start, found, style), style);
      && found <= end
      && (forall k :: found <= k < end ==> !IsCode(lines[k], style))
      && (forall k :: WalkBack(lines, start, found, style) <= k < found ==> !IsCode(lines[k], style))
  {
    var j := WalkBack(lines, start, found, style);
    BackOverComments(lines, start, found, style);
    ForwardBeyond(lines, j, found, style);
    forall k | found <= k < BlockEnd(lines, j, style) ensures !IsCode(lines[k], style) {
      if k < WalkForward(lines, j, style) { ForwardOverComments(lines, j, k, style); }
    }
  }

  lemma SliceHasCode(lines: seq<string>, start: nat, found: nat, end: nat, style: Style)
    requires start <= found <= end <= |lines| && forall k :: found <= k < end ==> !IsCode(lines[k], style)
    ensures (forall l <- lines[start..end] :: !IsCode(l, style)) <==>
      forall k :: start <= k < found ==> !IsCode(lines[k], style)
  {
    var gone := lines[start..end];
    forall k | start <= k < end ensures lines[k] in gone { assert gone[k - start] == lines[k]; }
  }

  /** No line of code is lost exactly if none stands before the line with the
      sentinel, or there is no such line near the top. */
  lemma CodeKeptIff(content: string, style: Style)
    ensures var lines := SplitKeep(content);
      var found := FindSentinel(lines, Start(lines), Window(lines));
      (forall l <- Gone(content, style) :: !IsCode(l, style)) <==>
      found == Window(lines) || forall k :: Start(lines) <= k < found ==> !IsCode(lines[k], style)
  {
    var lines := SplitKeep(content);
    var start, found := Start(lines), FindSentinel(lines, Start(lines), Window(lines));
    if found < Window(lines) {
      var end := BlockEnd(lines, WalkBack(lines, start, found, style), style);
      CodeBefore(lines, start, found, style);
      assert Gone(content, style) == lines[start..end];
      SliceHasCode(lines, start, found, end, style);
    }
  }

  /** Such a loss: a line of code on top of the header goes with it. */
  lemma CodeLineLost(code: string, header: string, style: Style)
    requires SplitKeep(code + header) == [code, header] && !IsShebang(code)
    requires IsCode(code, style) && IsCommentLine(header, style)
    requires Contains(header, SENTINEL) && !Contains(code, SENTINEL)
    ensures StripOld(code + header, style) == ""
  {
    var lines := [code, header];
    assert FindSentinel(lines, 0, 2) == FindSentinel(lines, 1, 2) == 1;
    assert WalkBack(lines, 0, 1, style) == 1;
    assert WalkForward(lines, 1, style) == WalkForward(lines, 2, style) == 2;
    assert lines[..0] + lines[2..] == [];
  }

  predicate FirstWith(lines: seq<string>, from: nat, i: nat, text: string)
  {
    from <= i < |lines| && Contains(lines[i], text) && forall j :: from <= j < i ==> !Contains(lines[j], text)
  }

  lemma {:induction false} ForwardEnd(lines: seq<string>, i: nat, end: nat, style: Style)
    requires i <= end <= |lines| && forall k :: i <= k < end ==> IsCommentLine(lines[k], style)
    requires end < |lines| ==> !IsCommentLine(lines[end], style)
    ensures WalkForward(lines, i, style) == end
    decreases end - i
  {
    if i < end { ForwardEnd(lines, i + 1, end, style); }
  }

  lemma FoundAt(lines: seq<string>, start: nat, window: nat, i: nat)
    requires start <= window <= |lines| && FirstWith(lines, start, i, SENTINEL)
    ensures FindSentinel(lines, start, window) == if i < window then i else window
  {
    var found := FindSentinel(lines, start, window);
    if found < i { assert !Contains(lines[found], SENTINEL); }
  }

  lemma BlockStrips(lines: seq<string>, start: nat, window: nat, i: nat, end: nat, style: Style)
    requires FirstWith(lines, start, i, SENTINEL) && i < window <= |lines|
    requires i <= end <= |lines| && forall k :: i <= k < end ==> IsCommentLine(lines[k], style)
    requires end < |lines| ==> !IsCommentLine(lines[end], style)
    ensures FindSentinel(lines, start, window) == i
    ensures BlockEnd(lines, WalkBack(lines, start, i, style), style)
         == if end < |lines| && Strip(lines[end]) == "" then end + 1 else end
  {
    FoundAt(lines, start, window, i);
    BackOverComments(lines, start, i, style);
    ForwardEnd(lines, WalkBack(lines, start, i, style), end, style);
  }

  /** A file is cut from behind its shebang line to the end of the comment lines that
      begin with the first sentinel line, and one blank line further. */
  lemma StripsTo(content: string, style: Style, start: nat, i: nat, end: nat)
    requires var lines := SplitKeep(content);
      && start == (if lines != [] && "#!" <= lines[0] then 1 else 0)
      && FirstWith(lines, start, i, SENTINEL) && i < start + 15
      && i <= end <= |lines| && (forall k :: i <= k < end ==> IsCommentLine(lines[k], style))
      && (end < |lines| ==> !IsCommentLine(lines[end], style))
    ensures var lines := SplitKeep(content);
      StripOld(content, style)
        == Concat(lines[..start] + lines[if end < |lines| && Strip(lines[end]) == "" then end + 1 else end..])
  {
    var lines := SplitKeep(content);
    BlockStrips(lines, start, Window(lines), i, end, style);
  }

  // --------------------------------------------------------------- rewriting

  /** `_inject_header` with the lines of a header */
  function Inject(content: string, header: seq<string>): string
  {
    var lines := SplitKeep(content);
    var at := Start(lines);
    Concat(lines[..at]) + (Terminate(header, "") + ("\n" + Concat(lines[at..])))
  }

  /** The file without its old header. */
  function BodyOf(content: string, style: Style): string
  {
    if HasHeader(content) then StripOld(content, style) else content
  }

  /** What one run of the tool leaves in a file. */
  function Rewrite(content: string, style: Style): string
  {
    if Blank(content) then content else Inject(BodyOf(content, style), HeaderLines(style))
  }

  /** The rewriting step of `main`. */
  method RewriteFile(content: string, style: Style) returns (written: string)
    ensures written == Rewrite(content, style)
  {
    if Blank(content) {
      return content;
    }
    var header := HeaderLines(style);
    if HasHeader(content) {
      var stripped := StripOldHeader(content, style);
      written := content;
      if Inject(stripped, header) != content {
        written := Inject(stripped, header);
      }
    } else {
      written := Inject(content, header);
    }
  }

  // ------------------------------------------------------ lines of a joined text

  lemma {:induction false} ConcatSplit(s: string)
    ensures Concat(SplitKeep(s)) == s
    decreases |s|
  {
    if s != "" {
      var n := LineLen(s) + BreakLen(s, LineLen(s));
      ConcatSplit(s[n..]);
      assert s == s[..n] + s[n..];
    }
  }

  /** A line break that stays one when `next` follows. */
  predicate Closed(s: string, next: string)
  {
    s == "" || (IsBreak(s[|s| - 1]) && !(s[|s| - 1] == '\r' && next != "" && next[0] == '\n'))
  }

  lemma FirstLineOf(s: string, rest: string)
    requires s != "" && Closed(s, rest)
    ensures LineLen(s) < |s| && LineLen(s + rest) == LineLen(s)
    ensures BreakLen(s + rest, LineLen(s)) == BreakLen(s, LineLen(s))
  {
    FirstLine(s);
    var n := LineLen(s);
    assert s[..|s|] == s;
    assert s == s[..n] + s[n..];
    LineLenIs(s[..n], s[n..] + rest);
    assert s + rest == s[..n] + (s[n..] + rest);
  }

  lemma DropOf(s: string, rest: string, n: nat)
    requires n <= |s|
    ensures (s + rest)[..n] == s[..n] && (s + rest)[n..] == s[n..] + rest
    ensures n < |s| ==> s[n..][|s[n..]| - 1] == s[|s| - 1]
  {
  }

  lemma {:induction false} SplitKeepAppend(s: string, rest: string)
    requires Closed(s, rest)
    ensures SplitKeep(s + rest) == SplitKeep(s) + SplitKeep(rest)
    decreases |s|
  {
    if s == "" {
      assert s + rest == rest;
    } else {
      FirstLineOf(s, rest);
      var n := LineLen(s) + BreakLen(s, LineLen(s));
      DropOf(s, rest, n);
      SplitKeepAppend(s[n..], rest);
      SplitKeepStep(s + rest, n);
      SplitKeepStep(s, n);
      Regroup(s[..n], SplitKeep(s[n..]), SplitKeep(rest));
    }
  }

  lemma Regroup(x: string, mid: seq<string>, end: seq<string>)
    ensures ([x] + mid) + end == [x] + (mid + end)
  {
  }

  lemma SplitKeepStep(s: string, n: nat)
    requires s != "" && n == LineLen(s) + BreakLen(s, LineLen(s))
    ensures SplitKeep(s) == [s[..n]] + SplitKeep(s[n..])
  {
  }

  lemma SplitKeepLine(line: string)
    requires BreakFree(line)
    ensures SplitKeep(line + "\n") == [line + "\n"]
  {
    LineLenIs(line, "\n");
    var s := line + "\n";
    assert s[..|line| + 1] == s && s[|line| + 1..] == "";
  }

  function WithBreak(line: string): string { line + "\n" }

  lemma {:induction false} SplitKeepTerminated(lines: seq<string>, tail: string)
    requires forall l <- lines :: BreakFree(l)
    ensures SplitKeep(Terminate(lines, tail)) == Each(WithBreak, lines) + SplitKeep(tail)
  {
    if lines == [] {
      assert Each(WithBreak, lines) + SplitKeep(tail) == SplitKeep(tail);
    } else {
      ConsAll(lines);
      SplitKeepTerminated(lines[1..], tail);
      SplitKeepLine(lines[0]);
      var more := Terminate(lines[1..], tail);
      SplitKeepAppend(lines[0] + "\n", more);
      Assoc(lines[0], "\n", more);
    }
  }

  lemma FirstAgrees(s: string, n: nat, m: nat)
    requires s != "" && n == LineLen(s) && m == n + BreakLen(s, n)
    ensures LineLen(s[..m]) == n && s[..m][..n] == s[..n]
  {
    FirstLine(s);
    assert s[..m] == s[..n] + s[n..m];
    LineLenIs(s[..n], s[n..m]);
  }

  predicate SameLines(kept: seq<string>, lines: seq<string>)
  {
    |kept| == |lines| && forall i :: 0 <= i < |lines| ==> lines[i] == kept[i][..LineLen(kept[i])]
  }

  lemma SameLinesCons(k: string, l: string, kept: seq<string>, lines: seq<string>)
    requires SameLines(kept, lines) && l == k[..LineLen(k)]
    ensures SameLines([k] + kept, [l] + lines)
  {
  }

  /** The two ways of splitting agree line by line. */
  lemma {:induction false} SplitsAgree(s: string)
    ensures SameLines(SplitKeep(s), SplitLines(s))
    decreases |s|
  {
    if s != "" {
      var n := LineLen(s);
      var m := n + BreakLen(s, n);
      FirstAgrees(s, n, m);
      SplitsAgree(s[m..]);
      SameLinesCons(s[..m], s[..n], SplitKeep(s[m..]), SplitLines(s[m..]));
    }
  }

  // ------------------------------------------------------------ the header text

  predicate Avoids(s: string, c: char)
  {
    forall i :: 0 <= i < |s| ==> s[i] != c
  }

  lemma {:induction false} NotContained(line: string, sub: string, j: nat)
    requires j < |sub| && Avoids(line, sub[j])
    ensures !Contains(line, sub)
    decreases |line|
  {
    assert j < |line| ==> line[j] != sub[j];
    if line != "" { NotContained(line[1..], sub, j); }
  }

  lemma {:induction false} ContainsPart(a: string, sub: string, b: string)
    ensures Contains(a + (sub + b), sub)
    decreases |a|
  {
    var s := a + (sub + b);
    if a == "" {
      assert s == sub + b;
      assert sub <= s;
    } else {
      ContainsPart(a[1..], sub, b);
      assert s[1..] == a[1..] + (sub + b);
    }
  }

  /** One header text without the sentinel: `c` is a letter of the sentinel it lacks. */
  predicate Plainly(t: string, c: char)
  {
    t != "" && !IsSpace(t[0]) && BreakFree(t) && Avoids(t, c)
  }

  lemma SentinelText()
    ensures SENTINEL != "" && !IsSpace(SENTINEL[0]) && BreakFree(SENTINEL)
    ensures |SENTINEL| > 5 && SENTINEL[3] == 'X' && SENTINEL[5] == 'L'
  {
  }

  lemma PlainlyAppend(a: string, b: string, c: char)
    requires Plainly(a, c) && BreakFree(b) && Avoids(b, c)
    ensures Plainly(a + b, c)
  {
  }

  lemma TagPiece() ensures Plainly(TAG, 'L') { }

  lemma OwnerPiece() ensures BreakFree(OWNER) && Avoids(OWNER, 'L') { }

  lemma EmailPiece() ensures BreakFree(EMAIL) && Avoids(EMAIL, 'L') { }

  lemma Text1()
    ensures Plainly(TEXTS[1], 'L')
  {
    TagPiece();
    OwnerPiece();
    EmailPiece();
    PlainlyAppend(TAG, OWNER, 'L');
    PlainlyAppend(TAG + OWNER, EMAIL, 'L');
  }

  lemma Text2() ensures Plainly(TEXTS[2], 'X') { }

  lemma LicensePiece() ensures Plainly("Licensed under LICENSE-PLUS ", 'X') { }

  lemma RepoPiece() ensures BreakFree("(see repo root)") && Avoids("(see repo root)", 'X') { }

  lemma Text3()
    ensures Plainly(TEXTS[3], 'X')
  {
    LicensePiece();
    RepoPiece();
    PlainlyAppend("Licensed under LICENSE-PLUS ", "(see repo root)", 'X');
  }

  lemma ChangesPiece() ensures Plainly(CHANGES, 'X') { }

  lemma ProhibitedPiece() ensures BreakFree(PROHIBITED) && Avoids(PROHIBITED, 'X') { }

  lemma ExceptionPiece() ensures BreakFree(EXCEPTION) && Avoids(EXCEPTION, 'X') { }

  lemma Text4()
    ensures Plainly(TEXTS[4], 'X')
  {
    ChangesPiece();
    ProhibitedPiece();
    ExceptionPiece();
    PlainlyAppend(CHANGES, PROHIBITED, 'X');
    PlainlyAppend(CHANGES + PROHIBITED, EXCEPTION, 'X');
  }

  lemma Text5() ensures Plainly(TEXTS[5], 'X') { }

  /** A text that is not blank in front and stands on one line. */
  predicate OneLiner(text: string)
  {
    text != "" && !IsSpace(text[0]) && BreakFree(text)
  }

  lemma PlainlyFits(text: string, c: char)
    requires Plainly(text, c) && (c == SENTINEL[3] || c == SENTINEL[5])
    ensures OneLiner(text) && Foreign(text)
  {
  }

  /** Every header text is one line; only the first one holds the sentinel. */
  lemma Texts(i: nat)
    requires i < |TEXTS|
    ensures OneLiner(TEXTS[i]) && (i > 0 ==> Foreign(TEXTS[i]))
  {
    SentinelText();
    match i
    case 0 =>
    case 1 => Text1(); PlainlyFits(TEXTS[1], 'L');
    case 2 => Text2(); PlainlyFits(TEXTS[2], 'X');
    case 3 => Text3(); PlainlyFits(TEXTS[3], 'X');
    case 4 => Text4(); PlainlyFits(TEXTS[4], 'X');
    case 5 => Text5(); PlainlyFits(TEXTS[5], 'X');
  }

  predicate Foreign(line: string)
  {
    Avoids(line, SENTINEL[3]) || Avoids(line, SENTINEL[5])
  }

  lemma ForeignIsNotSentinel(line: string)
    requires Foreign(line)
    ensures !Contains(line, SENTINEL)
  {
    if Avoids(line, SENTINEL[3]) { NotContained(line, SENTINEL, 3); } else { NotContained(line, SENTINEL, 5); }
  }

  /** A string keeps a prefix of non-blank end when it is stripped on the right. */
  lemma RStripKeeps(s: string, i: nat)
    requires i < |s| && !IsSpace(s[i])
    ensures |RStrip(s)| > i
    decreases |s|
  {
    if IsSpace(s[|s| - 1]) { RStripKeeps(s[..|s| - 1], i); }
  }

  /** The first two characters of a header line survive stripping. */
  lemma StripStart(line: string, i: nat)
    requires 1 <= i < |line| && !IsSpace(line[0]) && !IsSpace(line[i])
    ensures |Strip(line)| > i && Strip(line)[0] == line[0] && Strip(line)[1] == line[1]
  {
    RStripKeeps(line, i);
    RStripPart(line);
    var r := RStrip(line);
    assert r == line[..|r|];
    assert LStrip(r) == r;
  }

  lemma HeaderLineIsComment(style: Style, text: string)
    requires OneLiner(text)
    ensures IsCommentLine(WithBreak(Comment(style)(text)), style)
    ensures !IsShebang(WithBreak(Comment(style)(text)))
  {
    var line := Comment(style)(text) + "\n";
    match style
    case Hash =>
      assert line[0] == '#' && line[2] == text[0];
      StripStart(line, 2);
    case Line =>
      assert line[0] == '/' && line[1] == '/';
      StripStart(line, 1);
    case Block =>
      assert line[0] == '/' && line[1] == '*';
      StripStart(line, 1);
  }

  lemma WrapKeepsOneLine(mark: string, text: string, end: string)
    requires BreakFree(mark) && BreakFree(text) && BreakFree(end)
    ensures BreakFree(mark + text + end)
  {
  }

  lemma WrapAvoids(mark: string, text: string, end: string, c: char)
    requires Avoids(mark, c) && Avoids(text, c) && Avoids(end, c) && c != '\n'
    ensures Avoids(mark + text + end + "\n", c)
  {
  }

  lemma MarksArePlain(style: Style, c: char)
    requires c == 'X' || c == 'L'
    ensures BreakFree(Mark(style)) && BreakFree(End(style)) && Avoids(Mark(style), c) && Avoids(End(style), c)
  {
  }

  lemma CommentKeepsOneLine(style: Style, text: string)
    requires BreakFree(text)
    ensures BreakFree(Comment(style)(text))
  {
    MarksArePlain(style, 'X');
    WrapKeepsOneLine(Mark(style), text, End(style));
  }

  lemma CommentStaysForeign(style: Style, text: string)
    requires Foreign(text)
    ensures !Contains(WithBreak(Comment(style)(text)), SENTINEL)
  {
    SentinelText();
    var c := if Avoids(text, SENTINEL[3]) then SENTINEL[3] else SENTINEL[5];
    MarksArePlain(style, c);
    WrapAvoids(Mark(style), text, End(style), c);
    ForeignIsNotSentinel(WithBreak(Comment(style)(text)));
  }

  lemma WrapHolds(mark: string, text: string, end: string)
    ensures Contains(mark + text + end, text) && Contains(mark + text + end + "\n", text)
  {
    ContainsPart(mark, text, end);
    ContainsPart(mark, text, end + "\n");
    Assoc(mark, text, end);
    Assoc4(mark, text, end, "\n");
  }

  /** The header as lines with their breaks. */
  function Kept(header: seq<string>): (lines: seq<string>)
    ensures |lines| == |header|
  {
    Each(WithBreak, header)
  }

  predicate HeaderLine(line: string, style: Style)
  {
    BreakFree(line) && IsCommentLine(WithBreak(line), style) && !IsShebang(WithBreak(line))
  }

  /** What the proofs use of a header: six comments of one line each, of which
      the first alone holds the sentinel. */
  predicate Fits(header: seq<string>, style: Style)
  {
    |header| == 6
    && (forall i :: 0 <= i < 6 ==> HeaderLine(header[i], style))
    && Contains(header[0], SENTINEL)
    && forall i :: 0 <= i < 6 ==> (Contains(WithBreak(header[i]), SENTINEL) <==> i == 0)
  }

  lemma CommentsFit(texts: seq<string>, style: Style)
    requires |texts| == 6 && texts[0] == SENTINEL
    requires forall i :: 0 <= i < 6 ==> OneLiner(texts[i]) && (i > 0 ==> Foreign(texts[i]))
    ensures Fits(Each(Comment(style), texts), style)
  {
    forall i | 0 <= i < 6
      ensures HeaderLine(Comment(style)(texts[i]), style)
      ensures i > 0 ==> !Contains(WithBreak(Comment(style)(texts[i])), SENTINEL)
    {
      CommentKeepsOneLine(style, texts[i]);
      HeaderLineIsComment(style, texts[i]);
      if i > 0 { CommentStaysForeign(style, texts[i]); }
    }
    WrapHolds(Mark(style), texts[0], End(style));
  }

  lemma HeaderFits(style: Style)
    ensures Fits(HeaderLines(style), style)
  {
    forall i | 0 <= i < |TEXTS| ensures OneLiner(TEXTS[i]) && (i > 0 ==> Foreign(TEXTS[i])) { Texts(i); }
    CommentsFit(TEXTS, style);
  }

  const IMPORT := "import os"

  lemma ImportIsCode()
    ensures BreakFree(IMPORT) && !IsShebang(WithBreak(IMPORT))
    ensures IsCode(WithBreak(IMPORT), Hash) && !Contains(WithBreak(IMPORT), SENTINEL)
  {
    var line := IMPORT + "\n";
    SentinelText();
    StripStart(line, 1);
    NotContained(line, SENTINEL, 5);
  }

  lemma CodeOverHeader(code: string, header: string, style: Style)
    requires BreakFree(code) && !IsShebang(WithBreak(code))
    requires IsCode(WithBreak(code), style) && !Contains(WithBreak(code), SENTINEL)
    requires HeaderLine(header, style) && Contains(WithBreak(header), SENTINEL)
    ensures StripOld(WithBreak(code) + WithBreak(header), style) == ""
  {
    SplitKeepLine(code);
    SplitKeepLine(header);
    SplitKeepAppend(WithBreak(code), WithBreak(header));
    CodeLineLost(WithBreak(code), WithBreak(header), style);
  }

  /** A Python file of an import on top of its header line is emptied. */
  lemma ImportLost()
    ensures StripOld(WithBreak(IMPORT) + WithBreak(HeaderLines(Hash)[0]), Hash) == ""
  {
    HeaderFits(Hash);
    ImportIsCode();
    CodeOverHeader(IMPORT, HeaderLines(Hash)[0], Hash);
  }

  // ------------------------------------------------------------------ idempotence

  /** The file is a single shebang line without a line break. */
  predicate UnterminatedShebang(s: string)
  {
    IsShebang(s) && BreakFree(s)
  }

  lemma LineLenBreakFree(s: string)
    ensures LineLen(s) == |s| <==> BreakFree(s)
  {
    FirstLine(s);
    assert LineLen(s) == |s| ==> s[..LineLen(s)] == s;
  }

  lemma OneLine(s: string)
    requires s != "" && BreakFree(s)
    ensures SplitKeep(s) == [s]
  {
    LineLenBreakFree(s);
    assert s[..|s|] == s && s[|s|..] == "";
  }

  /** The first line of a text with a break ends in one. */
  lemma FirstKept(s: string, m: nat)
    requires !BreakFree(s) && m == LineLen(s) + BreakLen(s, LineLen(s))
    ensures m > 0 && IsBreak(s[m - 1]) && SplitKeep(s[..m]) == [s[..m]]
  {
    FirstLine(s);
    LineLenBreakFree(s);
    var n := LineLen(s);
    assert s[..m] == s[..n] + s[n..m];
    LineLenIs(s[..n], s[n..m]);
    AllOneLine(s[..m]);
  }

  lemma AllOneLine(s: string)
    requires s != "" && LineLen(s) + BreakLen(s, LineLen(s)) == |s|
    ensures SplitKeep(s) == [s]
  {
    SplitKeepStep(s, |s|);
    assert s[..|s|] == s && s[|s|..] == "";
  }

  lemma ShebangFirst(s: string)
    requires s != ""
    ensures IsShebang(SplitKeep(s)[0]) <==> IsShebang(s)
  {
    FirstLine(s);
    var n := LineLen(s);
    if IsShebang(s) {
      assert s[0] == '#' && s[1] == '!';
      assert !IsBreak(s[0]) && !IsBreak(s[1]);
      assert n >= 2;
    }
  }

  lemma ConcatOne(s: string)
    ensures Concat([s]) == s
  {
    assert [s][1..] == [];
  }

  lemma HeadOfLines(head: string, tail: seq<string>)
    ensures var lines := [head] + tail; lines[..1] == [head] && lines[1..] == tail && lines[0] == head
  {
  }

  /** The shebang line, if any, and what follows it, split on their own. */
  lemma RestLines(content: string)
    requires !UnterminatedShebang(content)
    ensures var lines := SplitKeep(content); var at := Start(lines);
      var pre, rest := Concat(lines[..at]), Concat(lines[at..]);
      SplitKeep(rest) == lines[at..] && SplitKeep(pre) == lines[..at] && (pre != "" ==> IsBreak(pre[|pre| - 1]))
  {
    var lines := SplitKeep(content);
    if Start(lines) == 0 {
      ConcatSplit(content);
      assert lines[0..] == lines && lines[..0] == [];
    } else {
      ShebangFirst(content);
      var m := LineLen(content) + BreakLen(content, LineLen(content));
      FirstKept(content, m);
      SplitKeepStep(content, m);
      HeadOfLines(content[..m], SplitKeep(content[m..]));
      ConcatOne(content[..m]);
      ConcatSplit(content[m..]);
    }
  }

  lemma BlankAndRest(rest: string)
    ensures SplitKeep("\n" + rest) == ["\n"] + SplitKeep(rest)
  {
    SplitKeepAppend("\n", rest);
    SplitKeepLine("");
    assert "" + "\n" == "\n";
  }

  lemma HeaderAndRest(header: seq<string>, tail: string, style: Style)
    requires Fits(header, style)
    ensures SplitKeep(Terminate(header, "") + tail) == Kept(header) + SplitKeep(tail)
  {
    SplitKeepTerminated(header, tail);
    TerminateTail(header, tail);
  }

  lemma ThreeParts(pre: string, header: seq<string>, rest: string, style: Style)
    requires Fits(header, style) && (pre != "" ==> IsBreak(pre[|pre| - 1]))
    ensures SplitKeep(pre + (Terminate(header, "") + ("\n" + rest)))
         == SplitKeep(pre) + (Kept(header) + (["\n"] + SplitKeep(rest)))
  {
    BlankAndRest(rest);
    HeaderAndRest(header, "\n" + rest, style);
    FirstChar(header, "\n" + rest, style);
    SplitKeepAppend(pre, Terminate(header, "") + ("\n" + rest));
  }

  /** The same for any cut of a file into two parts. */
  lemma LinesAround(pre: string, rest: string, top: seq<string>, below: seq<string>, header: seq<string>, style: Style)
    requires Fits(header, style) && (pre != "" ==> IsBreak(pre[|pre| - 1]))
    requires SplitKeep(pre) == top && SplitKeep(rest) == below
    ensures SplitKeep(pre + (Terminate(header, "") + ("\n" + rest))) == top + (Kept(header) + (["\n"] + below))
  {
    ThreeParts(pre, header, rest, style);
  }

  /** The lines of an injected file: shebang, header, blank line, rest. */
  lemma InjectLines(content: string, header: seq<string>, style: Style)
    requires !UnterminatedShebang(content) && Fits(header, style)
    ensures var lines := SplitKeep(content); var at := Start(lines);
      SplitKeep(Inject(content, header)) == lines[..at] + (Kept(header) + (["\n"] + lines[at..]))
  {
    var lines := SplitKeep(content);
    var at := Start(lines);
    RestLines(content);
    LinesAround(Concat(lines[..at]), Concat(lines[at..]), lines[..at], lines[at..], header, style);
  }

  lemma {:induction false} TerminateTail(lines: seq<string>, tail: string)
    ensures Terminate(lines, "") + tail == Terminate(lines, tail)
  {
    if lines == [] {
      assert "" + tail == tail;
    } else {
      TerminateTail(lines[1..], tail);
      Assoc4(lines[0], "\n", Terminate(lines[1..], ""), tail);
      Assoc(lines[0], "\n", Terminate(lines[1..], ""));
      Assoc("\n", Terminate(lines[1..], ""), tail);
    }
  }

  lemma CommentStarts(line: string, style: Style)
    requires HeaderLine(line, style)
    ensures line != "" && !IsBreak(line[0])
  {
    BlankLine(style);
    assert "" + "\n" == "\n";
  }

  /** A header begins with a character that is no line break. */
  lemma FirstChar(header: seq<string>, tail: string, style: Style)
    requires Fits(header, style)
    ensures var text := Terminate(header, "") + tail; text != "" && !IsBreak(text[0])
  {
    CommentStarts(header[0], style);
    assert Terminate(header, "")[0] == header[0][0];
  }

  lemma BlankLine(style: Style)
    ensures Strip("\n") == "" && !IsCommentLine("\n", style)
  {
    assert RStrip("\n") == "" by { assert "\n"[..0] == ""; }
  }

  /** In an injected file the search finds the injected block and nothing more. */
  lemma FindInjected(all: seq<string>, pre: seq<string>, header: seq<string>, rest: seq<string>, style: Style)
    requires all == pre + (header + (["\n"] + rest)) && |header| == 6
    requires Contains(header[0], SENTINEL) && forall i :: 0 <= i < 6 ==> IsCommentLine(header[i], style)
    ensures FindSentinel(all, |pre|, Min(|pre| + SEARCH_WINDOW, |all|)) == |pre|
    ensures BlockEnd(all, WalkBack(all, |pre|, |pre|, style), style) == |pre| + 7
    ensures all[..|pre|] == pre && all[|pre| + 7..] == rest
  {
    var at := |pre|;
    assert all[at] == header[0];
    BlockEndsThere(all, at, header, style);
  }

  lemma BlockEndsThere(all: seq<string>, at: nat, header: seq<string>, style: Style)
    requires |header| == 6 && at + 6 < |all| && all[at + 6] == "\n"
    requires forall i :: 0 <= i < 6 ==> all[at + i] == header[i] && IsCommentLine(header[i], style)
    ensures BlockEnd(all, at, style) == at + 7
  {
    BlankLine(style);
    forall j | at <= j < at + 6 ensures IsCommentLine(all[j], style) {
      assert all[at + (j - at)] == header[j - at];
    }
    ForwardEnd(all, at, at + 6, style);
  }

  lemma InjectStart(content: string, header: seq<string>, style: Style)
    requires !UnterminatedShebang(content) && Fits(header, style)
    ensures Start(SplitKeep(Inject(content, header))) == Start(SplitKeep(content))
  {
    InjectLines(content, header, style);
    var lines := SplitKeep(content);
    if Start(lines) == 0 {
      assert Kept(header)[0] == WithBreak(header[0]);
      assert SplitKeep(Inject(content, header))[0] == Kept(header)[0];
    } else {
      assert SplitKeep(Inject(content, header))[0] == lines[0];
    }
  }

  lemma StripFound(text: string, pre: seq<string>, header: seq<string>, rest: seq<string>, style: Style)
    requires SplitKeep(text) == pre + (header + (["\n"] + rest)) && |header| == 6 && Start(SplitKeep(text)) == |pre|
    requires Contains(header[0], SENTINEL) && forall i :: 0 <= i < 6 ==> IsCommentLine(header[i], style)
    ensures StripOld(text, style) == Concat(pre + rest)
  {
    FindInjected(SplitKeep(text), pre, header, rest, style);
  }

  lemma StripInjected(content: string, header: seq<string>, style: Style)
    requires !UnterminatedShebang(content) && Fits(header, style)
    ensures StripOld(Inject(content, header), style) == content
  {
    var lines := SplitKeep(content);
    var at := Start(lines);
    InjectLines(content, header, style);
    InjectStart(content, header, style);
    assert Kept(header)[0] == WithBreak(header[0]);
    StripFound(Inject(content, header), lines[..at], Kept(header), lines[at..], style);
    assert lines[..at] + lines[at..] == lines;
    ConcatSplit(content);
  }

  /** Stripping after injecting returns the file exactly. */
  lemma StripAfterInject(content: string, style: Style)
    requires !UnterminatedShebang(content)
    ensures StripOld(Inject(content, HeaderLines(style)), style) == content
  {
    HeaderFits(style);
    StripInjected(content, HeaderLines(style), style);
  }

  /** A line with the sentinel near the top is found among the lines without breaks. */
  lemma HasHeaderAt(text: string, i: nat, line: string)
    requires i < SEARCH_WINDOW && i < |SplitKeep(text)| && SplitKeep(text)[i] == line + "\n"
    requires BreakFree(line) && Contains(line, SENTINEL)
    ensures HasHeader(text)
  {
    SplitsAgree(text);
    LineLenIs(line, "\n");
    assert (line + "\n")[..|line|] == line;
    assert SplitLines(text)[i] == line;
  }

  lemma HeaderThere(pre: seq<string>, header: seq<string>, rest: seq<string>)
    requires header != []
    ensures (pre + (Kept(header) + rest))[|pre|] == header[0] + "\n"
  {
    assert Kept(header)[0] == WithBreak(header[0]);
  }

  lemma InjectedHasHeader(content: string, header: seq<string>, style: Style)
    requires !UnterminatedShebang(content) && Fits(header, style)
    ensures HasHeader(Inject(content, header))
  {
    var lines := SplitKeep(content);
    var at := Start(lines);
    InjectLines(content, header, style);
    HeaderThere(lines[..at], header, ["\n"] + lines[at..]);
    assert HeaderLine(header[0], style);
    HasHeaderAt(Inject(content, header), at, header[0]);
  }

  lemma CommentIsNotBlank(line: string, style: Style)
    requires HeaderLine(line, style)
    ensures !Blank(line)
  {
    if Blank(line) {
      BlankStrips(WithBreak(line));
      assert false;
    }
  }

  lemma {:induction false} BlankStrips(s: string)
    requires Blank(s)
    ensures Strip(s) == ""
  {
    if s != "" { BlankStrips(s[..|s| - 1]); }
  }

  lemma NotBlankAround(pre: string, mid: string, post: string)
    requires !Blank(mid)
    ensures !Blank(pre + (mid + post))
  {
    var i :| 0 <= i < |mid| && !IsSpace(mid[i]);
    assert (pre + (mid + post))[|pre| + i] == mid[i];
  }

  lemma InjectedIsNotBlank(content: string, header: seq<string>, style: Style)
    requires Fits(header, style)
    ensures !Blank(Inject(content, header))
  {
    var lines := SplitKeep(content);
    var pre := Concat(lines[..Start(lines)]);
    CommentIsNotBlank(header[0], style);
    NotBlankAround("", header[0], "\n" + Terminate(header[1..], ""));
    assert "" + Terminate(header, "") == Terminate(header, "");
    NotBlankAround(pre, Terminate(header, ""), "\n" + Concat(lines[Start(lines)..]));
  }

  lemma MergeTerminate(front: string, lines: seq<string>)
    requires lines != []
    ensures Terminate([front + lines[0]] + lines[1..], "\n") == front + Terminate(lines, "\n")
  {
    var merged := [front + lines[0]] + lines[1..];
    assert merged[1..] == lines[1..];
    Assoc(front, lines[0], "\n" + Terminate(lines[1..], "\n"));
  }

  lemma MergeEach(front: string, lines: seq<string>)
    requires lines != []
    ensures Each(WithBreak, [front + lines[0]] + lines[1..])
         == [front + WithBreak(lines[0])] + Each(WithBreak, lines[1..])
  {
    Assoc(front, lines[0], "\n");
  }

  lemma SplitBlank()
    ensures SplitKeep("\n") == ["\n"]
  {
    SplitKeepLine("");
    assert "" + "\n" == "\n";
  }

  lemma MergedBreakFree(front: string, lines: seq<string>)
    requires BreakFree(front) && lines != [] && forall l <- lines :: BreakFree(l)
    ensures forall l <- [front + lines[0]] + lines[1..] :: BreakFree(l)
  {
    ConsAll(lines);
    assert lines[0] in lines && BreakFree(lines[0]);
    assert BreakFree(front + lines[0]);
  }

  /** Text in front of the first line becomes part of that line. */
  lemma MergedFirst(front: string, lines: seq<string>)
    requires BreakFree(front) && lines != [] && forall l <- lines :: BreakFree(l)
    ensures SplitKeep(front + Terminate(lines, "\n"))
         == [front + WithBreak(lines[0])] + (Each(WithBreak, lines[1..]) + ["\n"])
  {
    MergedBreakFree(front, lines);
    SplitKeepTerminated([front + lines[0]] + lines[1..], "\n");
    SplitBlank();
    MergeTerminate(front, lines);
    MergeEach(front, lines);
    Regroup(front + WithBreak(lines[0]), Each(WithBreak, lines[1..]), ["\n"]);
  }

  /** A lone shebang line swallows the first header line. */
  lemma SwallowedHeader(content: string, header: seq<string>, style: Style)
    requires UnterminatedShebang(content) && Fits(header, style)
    ensures SplitKeep(Inject(content, header))
         == [content + WithBreak(header[0])] + (Each(WithBreak, header[1..]) + ["\n"])
  {
    OneLine(content);
    ConcatOne(content);
    assert [content][..1] == [content] && [content][1..] == [];
    assert "\n" + Concat([]) == "\n";
    TerminateTail(header, "\n");
    MergedFirst(content, header);
  }

  lemma NoneFound(lines: seq<string>, i: nat, end: nat)
    requires i <= end <= |lines| && forall j :: i <= j < end ==> !Contains(lines[j], SENTINEL)
    ensures FindSentinel(lines, i, end) == end
  {
  }

  /** After the swallowed line the search finds no sentinel. */
  lemma NothingToStrip(text: string, first: string, header: seq<string>, style: Style)
    requires SplitKeep(text) == [first] + (header + ["\n"]) && IsShebang(first)
    requires forall i :: 0 <= i < |header| ==> !Contains(header[i], SENTINEL)
    ensures StripOld(text, style) == text
  {
    var lines := SplitKeep(text);
    BlankIsNotSentinel();
    forall j | 1 <= j < |lines| ensures !Contains(lines[j], SENTINEL) {
      assert lines[j] == (header + ["\n"])[j - 1];
    }
    NoneFound(lines, 1, Min(1 + SEARCH_WINDOW, |lines|));
  }

  lemma SwallowedStays(content: string, header: seq<string>, style: Style)
    requires UnterminatedShebang(content) && Fits(header, style)
    ensures StripOld(Inject(content, header), style) == Inject(content, header)
  {
    SwallowedHeader(content, header, style);
    var more := Each(WithBreak, header[1..]);
    forall i | 0 <= i < |more| ensures !Contains(more[i], SENTINEL) {
      assert more[i] == WithBreak(header[i + 1]);
    }
    NothingToStrip(Inject(content, header), content + WithBreak(header[0]), more, style);
  }

  /** Such a file gets a second header on the next run. */
  lemma SwallowedTwice(content: string, style: Style)
    requires UnterminatedShebang(content)
    ensures Rewrite(Inject(content, HeaderLines(style)), style) != Inject(content, HeaderLines(style))
  {
    HeaderFits(style);
    var header := HeaderLines(style);
    InjectedIsNotBlank(content, header, style);
    SwallowedStays(content, header, style);
    InjectGrows(Inject(content, header), header);
  }

  lemma BlankIsNotSentinel()
    ensures !Contains("\n", SENTINEL)
  {
    SentinelText();
    ForeignIsNotSentinel("\n");
  }

  /** A new header stands on top of the file, or right below its shebang line. */
  lemma HeaderInPlace(content: string, style: Style)
    requires !Blank(content) && !HasHeader(content)
    ensures var first := if "#!" <= content then SplitKeep(content)[0] else "";
      first <= content && Rewrite(content, style)
        == first + (Terminate(HeaderLines(style), "") + ("\n" + content[|first|..]))
  {
    var lines := SplitKeep(content);
    ConcatSplit(content);
    ShebangFirst(content);
    FirstOff(lines, Start(lines));
  }

  lemma FirstOff(lines: seq<string>, at: nat)
    requires at <= 1 && at <= |lines|
    ensures var first := if at == 1 then lines[0] else "";
      Concat(lines[..at]) == first && first <= Concat(lines) && Concat(lines[at..]) == Concat(lines)[|first|..]
  {
    if at == 1 {
      assert lines[..1] == [lines[0]];
      ConcatOne(lines[0]);
    } else {
      assert lines[..0] == [] && lines[0..] == lines;
    }
  }

  lemma InjectGrows(content: string, header: seq<string>)
    ensures |Inject(content, header)| > |content|
  {
    var lines := SplitKeep(content);
    var at := Start(lines);
    ConcatSplit(content);
    ConcatAppend(lines[..at], lines[at..]);
    assert lines[..at] + lines[at..] == lines;
  }

  lemma {:induction false} ConcatAppend(a: seq<string>, b: seq<string>)
    ensures Concat(a + b) == Concat(a) + Concat(b)
  {
    if a == [] {
      assert a + b == b;
    } else {
      ConcatAppend(a[1..], b);
      assert (a + b)[1..] == a[1..] + b;
      Assoc(a[0], Concat(a[1..]), Concat(b));
    }
  }

  /** Running the tool twice equals running it once exactly when the file is
      blank or what is left of it without its old header is not a lone shebang
      line without a line break. */
  lemma RewriteIdempotentIff(content: string, style: Style)
    ensures Rewrite(Rewrite(content, style), style) == Rewrite(content, style)
       <==> Blank(content) || !UnterminatedShebang(BodyOf(content, style))
  {
    var body := BodyOf(content, style);
    if !Blank(content) {
      var header := HeaderLines(style);
      HeaderFits(style);
      InjectedIsNotBlank(body, header, style);
      if UnterminatedShebang(body) {
        SwallowedTwice(body, style);
      } else {
        InjectedHasHeader(body, header, style);
        StripAfterInject(body, style);
      }
    }
  }
}
