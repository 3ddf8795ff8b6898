/** The parts of Python's `str` the text formats rely on: line splitting,
    trimming and joining. */
module Text {

  // ------------------------------------------------------------- characters

  /** The characters at which `str.splitlines` ends a line. */
  predicate IsBreak(c: char)
  {
    var n := c as int;
    10 <= n <= 13 || 28 <= n <= 30 || n == 0x85 || n == 0x2028 || n == 0x2029
  }

  /** The characters `str.strip` removes; every line break is one of them. */
  predicate IsSpace(c: char)
  {
    var n := c as int;
    9 <= n <= 13 || 28 <= n <= 32 || n == 0x85 || n == 0xA0 || n == 0x1680
    || 0x2000 <= n <= 0x200A || n == 0x2028 || n == 0x2029 || n == 0x202F || n == 0x205F || n == 0x3000
  }

  predicate BreakFree(s: string)
  {
    forall i :: 0 <= i < |s| ==> !IsBreak(s[i])
  }

  predicate Blank(s: string)
  {
    forall i :: 0 <= i < |s| ==> IsSpace(s[i])
  }

  // ---------------------------------------------------------------- trimming

  function RStrip(s: string): (r: string)
    ensures |r| <= |s|
  {
    if s != "" && IsSpace(s[|s| - 1]) then RStrip(s[..|s| - 1]) else s
  }

  function LStrip(s: string): (r: string)
    ensures |r| <= |s|
  {
    if s != "" && IsSpace(s[0]) then LStrip(s[1..]) else s
  }

  function Strip(s: string): string
  {
    LStrip(RStrip(s))
  }

  lemma {:induction false} RStripPart(s: string)
    ensures var r := RStrip(s); r == s[..|r|] && (r != "" ==> !IsSpace(r[|r| - 1]))
  {
    if s != "" && IsSpace(s[|s| - 1]) { RStripPart(s[..|s| - 1]); }
  }

  lemma {:induction false} LStripPart(s: string)
    ensures var r := LStrip(s); r == s[|s| - |r|..] && (r != "" ==> !IsSpace(r[0]))
  {
    if s != "" && IsSpace(s[0]) { LStripPart(s[1..]); }
  }

  predicate Trimmed(s: string)
  {
    s == "" || (!IsSpace(s[0]) && !IsSpace(s[|s| - 1]))
  }

  /** Stripping cuts a piece out of the string. */
  lemma StripPart(s: string)
    ensures |Strip(s)| <= |RStrip(s)| <= |s|
    ensures Strip(s) == s[|RStrip(s)| - |Strip(s)|..|RStrip(s)|]
    ensures Trimmed(Strip(s))
  {
    RStripPart(s);
    LStripPart(RStrip(s));
    var r, l := RStrip(s), Strip(s);
    if l != "" { assert l[|l| - 1] == r[|r| - 1]; }
  }

  lemma TrimmedIff(s: string)
    ensures Trimmed(s) <==> Strip(s) == s
  {
    StripPart(s);
  }

  lemma StripKeepsBreakFree(s: string)
    requires BreakFree(s)
    ensures BreakFree(Strip(s))
  {
    StripPart(s);
  }

  lemma {:induction false} RStripAppend(a: string, t: string)
    requires a != "" && !IsSpace(a[|a| - 1])
    ensures RStrip(a + t) == a + RStrip(t)
  {
    if t == "" {
      assert a + t == a;
    } else if IsSpace(t[|t| - 1]) {
      RStripAppend(a, t[..|t| - 1]);
      assert (a + t)[..|a + t| - 1] == a + t[..|t| - 1];
    }
  }

  lemma StripRStrip(s: string)
    ensures Strip(RStrip(s)) == Strip(s)
  {
    RStripPart(s);
  }

  lemma {:induction false} RStripLeadingSpace(s: string)
    ensures RStrip(" " + s) == if RStrip(s) == "" then "" else " " + RStrip(s)
  {
    var t := " " + s;
    if s == "" {
      assert t == " " && t[..0] == "";
      assert RStrip(t) == RStrip(t[..|t| - 1]);
    } else if IsSpace(s[|s| - 1]) {
      RStripLeadingSpace(s[..|s| - 1]);
      assert t[..|t| - 1] == " " + s[..|s| - 1];
    }
  }

  lemma StripLeadingSpace(s: string)
    ensures Strip(" " + s) == Strip(s)
  {
    RStripLeadingSpace(s);
    var t := " " + RStrip(s);
    assert t[0] == ' ' && t[1..] == RStrip(s);
  }

  // ------------------------------------------------------------------- lines

  /** The length of the first line, its break not included. */
  function LineLen(s: string): (n: nat)
    ensures n <= |s|
  {
    if s == "" || IsBreak(s[0]) then 0 else 1 + LineLen(s[1..])
  }

  lemma {:induction false} FirstLine(s: string)
    ensures BreakFree(s[..LineLen(s)])
    ensures LineLen(s) < |s| ==> IsBreak(s[LineLen(s)])
  {
    if s != "" && !IsBreak(s[0]) {
      FirstLine(s[1..]);
      var n := LineLen(s);
      assert s[..n] == [s[0]] + s[1..][..n - 1];
    }
  }

  /** The length of the break after the first line: `\r\n` is one break. */
  function BreakLen(s: string, n: nat): (k: nat)
    requires n <= |s|
    ensures n + k <= |s|
    ensures n < |s| ==> k > 0
  {
    if n == |s| then 0
    else if s[n] == '\r' && n + 1 < |s| && s[n + 1] == '\n' then 2
    else 1
  }

  /** `s.splitlines()` */
  function SplitLines(s: string): seq<string>
    decreases |s|
  {
    if s == "" then []
    else var n := LineLen(s); [s[..n]] + SplitLines(s[n + BreakLen(s, n)..])
  }

  /** `s.splitlines(keepends=True)` */
  function SplitKeep(s: string): seq<string>
    decreases |s|
  {
    if s == "" then []
    else var n := LineLen(s) + BreakLen(s, LineLen(s)); [s[..n]] + SplitKeep(s[n..])
  }

  lemma {:induction false} LineLenIs(line: string, rest: string)
    requires BreakFree(line) && (rest == "" || IsBreak(rest[0]))
    ensures LineLen(line + rest) == |line|
  {
    if line == "" {
      assert line + rest == rest;
    } else {
      LineLenIs(line[1..], rest);
      assert (line + rest)[1..] == line[1..] + rest;
    }
  }

  lemma {:induction false} SplitLinesBreakFree(s: string)
    ensures forall l <- SplitLines(s) :: BreakFree(l)
    decreases |s|
  {
    if s != "" {
      FirstLine(s);
      SplitLinesBreakFree(s[LineLen(s) + BreakLen(s, LineLen(s))..]);
    }
  }

  // ----------------------------------------------------------------- numbers

  /** `sub in line` */
  predicate Contains(line: string, sub: string)
  {
    sub <= line || (line != "" && Contains(line[1..], sub))
  }

  /** `str.lower` for ASCII letters and the Kelvin sign. */
  function LowerChar(c: char): char
  {
    if 'A' <= c <= 'Z' then (c as int + 32) as char else if c == '\U{212A}' then 'k' else c
  }

  function Lower(s: string): string
  {
    if s == "" then "" else [LowerChar(s[0])] + Lower(s[1..])
  }

  function Digit(d: nat): char
    requires d < 10
  {
    '0' + d as char
  }

  function NatText(n: nat): string
  {
    if n < 10 then [Digit(n)] else NatText(n / 10) + [Digit(n % 10)]
  }

  // ----------------------------------------------------------------- joining

  /** `sep.join(lines)` */
  function Join(sep: string, lines: seq<string>): string
  {
    if lines == [] then ""
    else if |lines| == 1 then lines[0]
    else lines[0] + sep + Join(sep, lines[1..])
  }

  /** `[f(l) for l in lines]` */
  function Each(f: string -> string, lines: seq<string>): (r: seq<string>)
    ensures |r| == |lines| && forall i :: 0 <= i < |r| ==> r[i] == f(lines[i])
  {
    if lines == [] then [] else [f(lines[0])] + Each(f, lines[1..])
  }

  lemma EachSnoc(f: string -> string, lines: seq<string>, l: string)
    ensures Each(f, lines + [l]) == Each(f, lines) + [f(l)]
  {
  }

  /** Every line followed by a line break, then `tail`. */
  function Terminate(lines: seq<string>, tail: string): string
  {
    if lines == [] then tail else lines[0] + ("\n" + Terminate(lines[1..], tail))
  }

  lemma Assoc(a: string, b: string, c: string)
    ensures a + b + c == a + (b + c)
  {
  }

  lemma Assoc4(a: string, b: string, c: string, d: string)
    ensures a + b + c + d == a + (b + (c + d))
  {
    Assoc(a, b, c);
    Assoc(a, b + c, d);
    Assoc(b, c, d);
  }

  lemma Assoc6(a: string, b: string, c: string, d: string, e: string, f: string)
    ensures a + b + c + d + e + f == a + (b + (c + (d + (e + f))))
  {
    Assoc4(a, b, c, d);
    Assoc4(a, b + (c + d), e, f);
    Assoc(b, c + d, e + f);
    Assoc(c, d, e + f);
  }

  lemma {:induction false} JoinTerminate(lines: seq<string>, tail: string)
    requires lines != []
    ensures Join("\n", lines) + ("\n" + tail) == Terminate(lines, tail)
  {
    if |lines| > 1 {
      JoinTerminate(lines[1..], tail);
      Assoc4(lines[0], "\n", Join("\n", lines[1..]), "\n" + tail);
    }
  }

  lemma {:induction false} TerminateAppend(a: seq<string>, b: seq<string>, tail: string)
    ensures Terminate(a + b, tail) == Terminate(a, Terminate(b, tail))
  {
    if a == [] {
      assert a + b == b;
    } else {
      TerminateAppend(a[1..], b, tail);
      assert (a + b)[1..] == a[1..] + b;
    }
  }

  lemma TerminateOne(line: string, tail: string)
    ensures Terminate([line], tail) == line + ("\n" + tail)
  {
    assert [line][1..] == [];
  }

  lemma SnocParts<T>(xs: seq<T>, x: T)
    requires xs != []
    ensures (xs + [x])[0] == xs[0] && (xs + [x])[1..] == xs[1..] + [x]
  {
  }

  lemma AssocSeq<T>(a: seq<T>, b: seq<T>, c: seq<T>)
    ensures a + b + c == a + (b + c)
  {
  }

  /** The members of a non-empty sequence are its head and those of its tail. */
  lemma ConsAll<T>(xs: seq<T>)
    requires xs != []
    ensures xs == [xs[0]] + xs[1..]
    ensures forall x :: x in xs <==> x == xs[0] || x in xs[1..]
  {
    assert xs == [xs[0]] + xs[1..];
  }

  // --------------------------------------------------- splitting what was joined

  lemma SplitOne(line: string, rest: string)
    requires BreakFree(line)
    ensures SplitLines(line + ("\n" + rest)) == [line] + SplitLines(rest)
  {
    var s := line + ("\n" + rest);
    LineLenIs(line, "\n" + rest);
    assert s[|line|] == '\n';
    assert s[..|line|] == line && s[|line| + 1..] == rest;
  }

  lemma {:induction false} SplitTerminated(lines: seq<string>)
    requires forall l <- lines :: BreakFree(l)
    ensures SplitLines(Terminate(lines, "")) == lines
  {
    if lines != [] {
      ConsAll(lines);
      SplitTerminated(lines[1..]);
      SplitOne(lines[0], Terminate(lines[1..], ""));
    }
  }

  /** `splitlines` drops an empty last line. */
  function DropEmptyLast(lines: seq<string>): seq<string>
  {
    if lines != [] && lines[|lines| - 1] == "" then lines[..|lines| - 1] else lines
  }

  lemma {:induction false} SplitJoined(lines: seq<string>)
    requires forall l <- lines :: BreakFree(l)
    ensures SplitLines(Join("\n", lines)) == DropEmptyLast(lines)
  {
    if lines == [] {
    } else if |lines| == 1 {
      var l := lines[0];
      assert lines == [l];
      if l != "" {
        LineLenIs(l, "");
        assert l + "" == l && l[..|l|] == l;
        assert l[LineLen(l) + BreakLen(l, LineLen(l))..] == "";
      }
    } else {
      ConsAll(lines);
      SplitJoined(lines[1..]);
      SplitOne(lines[0], Join("\n", lines[1..]));
      Assoc(lines[0], "\n", Join("\n", lines[1..]));
      assert lines[|lines| - 1] == lines[1..][|lines[1..]| - 1];
      assert DropEmptyLast(lines) == [lines[0]] + DropEmptyLast(lines[1..]);
    }
  }
}
