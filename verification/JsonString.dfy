/** String literals as the Packer serialiser prints them: `json.dumps` with
    ASCII-only output, and the reading of such a literal by two rules: section 7 of
    RFC 8259, and the quoted templates of the HCL native syntax.

    A user string is a sequence of code points, because that is what a Python
    `str` is: lone surrogates are allowed in it. */
module JsonString {

  type CodePoint = n: nat | n < 0x11_0000

  /** A UTF-16 code unit. */
  type Unit = n: nat | n < 0x1_0000

  type Str = seq<CodePoint>

  /** The outcome of reading a value off the front of a text. */
  datatype Read<+T> = Fail | Done(value: T, rest: string)

  /** The result if `ok`, a failure otherwise. */
  function If<T>(ok: bool, value: T, rest: string): Read<T>
  {
    if ok then Done(value, rest) else Fail
  }

  /** By which rules a literal is read. HCL2 has no escapes for backspace and form
      feed, refuses an escaped surrogate, and knows eight-digit escapes. */
  datatype Dialect = Json | Hcl2

  predicate High(c: CodePoint) { 0xD800 <= c <= 0xDBFF }

  predicate Low(c: CodePoint) { 0xDC00 <= c <= 0xDFFF }

  // ---------------------------------------------------------------- printing

  function HexDigit(d: nat): char
    requires d < 16
  {
    "0123456789abcdef"[d]
  }

  function Hex4(n: Unit): string
  {
    [HexDigit(n / 16 / 16 / 16), HexDigit(n / 16 / 16 % 16), HexDigit(n / 16 % 16), HexDigit(n % 16)]
  }

  /** One code unit. */
  function EscapeUnit(c: Unit): string
  {
    if c == 0x22 then "\\\""
    else if c == 0x5C then "\\\\"
    else if c == 0x08 then "\\b"
    else if c == 0x0C then "\\f"
    else if c == 0x0A then "\\n"
    else if c == 0x0D then "\\r"
    else if c == 0x09 then "\\t"
    else if 0x20 <= c <= 0x7E then [c as char]
    else "\\u" + Hex4(c)
  }

  /** A code point above the BMP is written as a surrogate pair. */
  function Units(c: CodePoint): seq<Unit>
  {
    if c < 0x1_0000 then [c]
    else [0xD800 + (c - 0x1_0000) / 1024, 0xDC00 + (c - 0x1_0000) % 1024]
  }

  function EscapeUnits(s: seq<Unit>): string
  {
    if s == [] then "" else EscapeUnit(s[0]) + EscapeUnits(s[1..])
  }

  function AllUnits(s: Str): seq<Unit>
  {
    if s == [] then [] else Units(s[0]) + AllUnits(s[1..])
  }

  /** `json.dumps(s)` */
  function Quote(s: Str): string
  {
    "\"" + EscapeUnits(AllUnits(s)) + "\""
  }

  // ----------------------------------------------------------------- reading

  function HexValue(c: char): (v: int)
    ensures -1 <= v < 16
  {
    if '0' <= c <= '9' then c as int - '0' as int
    else if 'a' <= c <= 'f' then c as int - 'a' as int + 10
    else if 'A' <= c <= 'F' then c as int - 'A' as int + 10
    else -1
  }

  function ReadHex4(s: string): Read<CodePoint>
  {
    if |s| < 4 then Fail
    else
      var a, b, c, d := HexValue(s[0]), HexValue(s[1]), HexValue(s[2]), HexValue(s[3]);
      if a < 0 || b < 0 || c < 0 || d < 0 then Fail
      else Done(a * 4096 + b * 256 + c * 16 + d, s[4..])
  }

  predicate Surrogate(c: CodePoint) { High(c) || Low(c) }

  function ReadHex8(s: string): Read<CodePoint>
  {
    var high := ReadHex4(s);
    if high.Fail? || high.value >= 0x11 then Fail
    else
      var low := ReadHex4(high.rest);
      if low.Fail? then Fail else Done(high.value * 0x1_0000 + low.value, low.rest)
  }

  /** A number escape; HCL2 must be able to encode the character. */
  function Encodable(d: Dialect, r: Read<CodePoint>): Read<CodePoint>
  {
    if d == Hcl2 && r.Done? && Surrogate(r.value) then Fail else r
  }

  /** One character or escape inside a literal; a bare control character is
      refused, in HCL2 only a line break. */
  function ReadUnit(d: Dialect, s: string): (r: Read<CodePoint>)
    requires s != ""
    ensures r.Done? ==> |r.rest| < |s|
  {
    if s[0] == '\n' || (d == Json && s[0] as int < 0x20) then Fail
    else if s[0] != '\\' then Done(s[0] as int, s[1..])
    else if |s| < 2 then Fail
    else match s[1]
      case '"' => Done(0x22, s[2..])
      case '\\' => Done(0x5C, s[2..])
      case '/' => If(d == Json, 0x2F, s[2..])
      case 'b' => If(d == Json, 0x08, s[2..])
      case 'f' => If(d == Json, 0x0C, s[2..])
      case 'n' => Done(0x0A, s[2..])
      case 'r' => Done(0x0D, s[2..])
      case 't' => Done(0x09, s[2..])
      case 'u' => Encodable(d, ReadHex4(s[2..]))
      case 'U' => if d == Hcl2 then Encodable(d, ReadHex8(s[2..])) else Fail
      case _ => Fail
  }

  /** The body of a literal, up to and including the closing quote. */
  function ReadUnits(d: Dialect, s: string): (r: Read<Str>)
    ensures r.Done? ==> |r.rest| < |s|
    decreases |s|
  {
    if s == "" then Fail
    else if s[0] == '"' then Done([], s[1..])
    else
      var u := ReadUnit(d, s);
      if u.Fail? then Fail
      else
        var us := ReadUnits(d, u.rest);
        if us.Fail? then Fail else Done([u.value] + us.value, us.rest)
  }

  /** A high surrogate directly followed by a low one is one code point. */
  function Fuse(s: Str): Str
    decreases |s|
  {
    if s == [] then []
    else if |s| > 1 && High(s[0]) && Low(s[1]) then
      [0x1_0000 + (s[0] - 0xD800) * 1024 + (s[1] - 0xDC00)] + Fuse(s[2..])
    else [s[0]] + Fuse(s[1..])
  }

  /** A string literal, opening quote included. Only JSON fuses surrogates. */
  function ReadString(d: Dialect, s: string): (r: Read<Str>)
    ensures r.Done? ==> |r.rest| < |s|
  {
    if s == "" || s[0] != '"' then Fail
    else
      var us := ReadUnits(d, s[1..]);
      if us.Fail? then Fail else Done(if d == Json then Fuse(us.value) else us.value, us.rest)
  }

  // -------------------------------------------------------------- round trip

  /** No high surrogate stands directly before a low one. */
  predicate PairFree(s: Str)
  {
    forall i :: 0 < i < |s| ==> !(High(s[i - 1]) && Low(s[i]))
  }

  lemma HexDigitRoundTrip(d: nat)
    requires d < 16
    ensures HexValue(HexDigit(d)) == d
  {
    assert d == 0 || d == 1 || d == 2 || d == 3 || d == 4 || d == 5 || d == 6 || d == 7
        || d == 8 || d == 9 || d == 10 || d == 11 || d == 12 || d == 13 || d == 14 || d == 15;
  }

  lemma ReadFour(a: char, b: char, c: char, d: char, rest: string)
    requires HexValue(a) >= 0 && HexValue(b) >= 0 && HexValue(c) >= 0 && HexValue(d) >= 0
    ensures ReadHex4([a, b, c, d] + rest)
         == Done(HexValue(a) * 4096 + HexValue(b) * 256 + HexValue(c) * 16 + HexValue(d), rest)
  {
    var s := [a, b, c, d] + rest;
    assert s[0] == a && s[1] == b && s[2] == c && s[3] == d;
    assert s[4..] == rest;
  }

  lemma Hex4RoundTrip(n: Unit, rest: string)
    ensures ReadHex4(Hex4(n) + rest) == Done(n, rest)
  {
    var a, b, c, d := n / 16 / 16 / 16, n / 16 / 16 % 16, n / 16 % 16, n % 16;
    assert n == n / 16 * 16 + d && n / 16 == n / 16 / 16 * 16 + c && n / 16 / 16 == a * 16 + b;
    HexDigitRoundTrip(a);
    HexDigitRoundTrip(b);
    HexDigitRoundTrip(c);
    HexDigitRoundTrip(d);
    ReadFour(HexDigit(a), HexDigit(b), HexDigit(c), HexDigit(d), rest);
  }

  /** A code unit whose escape the dialect can read. */
  predicate SafeUnit(d: Dialect, c: CodePoint)
  {
    d == Json || (c != 0x08 && c != 0x0C && !Surrogate(c))
  }

  predicate SafeUnits(d: Dialect, us: Str)
  {
    forall c <- us :: SafeUnit(d, c)
  }

  lemma ReadHexEscape(d: Dialect, digits: string, rest: string)
    ensures ReadUnit(d, "\\u" + digits + rest) == Encodable(d, ReadHex4(digits + rest))
  {
    var text := "\\u" + digits + rest;
    assert text[0] == '\\' && text[1] == 'u' && text[2..] == digits + rest;
  }

  lemma HexUnitRoundTrip(d: Dialect, c: Unit, rest: string)
    ensures ReadUnit(d, "\\u" + Hex4(c) + rest) == If(d == Json || !Surrogate(c), c, rest)
  {
    Hex4RoundTrip(c, rest);
    ReadHexEscape(d, Hex4(c), rest);
  }

  predicate Printed(c: Unit)
  {
    0x20 <= c <= 0x7E && c != 0x22 && c != 0x5C
  }

  lemma PrintedRoundTrip(d: Dialect, c: Unit, rest: string)
    requires Printed(c)
    ensures ReadUnit(d, [c as char] + rest) == Done(c, rest)
  {
    assert ([c as char] + rest)[1..] == rest;
  }

  /** The escapes of a single letter. */
  predicate Lettered(c: Unit)
  {
    c == 0x22 || c == 0x5C || c == 0x08 || c == 0x0C || c == 0x0A || c == 0x0D || c == 0x09
  }

  lemma LetteredRoundTrip(d: Dialect, c: Unit, rest: string)
    requires Lettered(c)
    ensures EscapeUnit(c)[0] == '\\' && ReadUnit(d, EscapeUnit(c) + rest) == If(SafeUnit(d, c), c, rest)
  {
    var text := EscapeUnit(c) + rest;
    assert text[2..] == rest;
  }

  lemma UnitRoundTrip(d: Dialect, c: Unit, rest: string)
    ensures EscapeUnit(c) != "" && EscapeUnit(c)[0] != '"'
    ensures ReadUnit(d, EscapeUnit(c) + rest) == If(SafeUnit(d, c), c, rest)
  {
    if Lettered(c) {
      LetteredRoundTrip(d, c, rest);
    } else if Printed(c) {
      PrintedRoundTrip(d, c, rest);
    } else {
      HexUnitRoundTrip(d, c, rest);
    }
  }

  lemma ReadUnitsStep(d: Dialect, e: string, tail: string, ok: bool, c: CodePoint, more: bool, us: Str, rest: string)
    requires e != "" && e[0] != '"'
    requires ReadUnit(d, e + tail) == If(ok, c, tail) && ReadUnits(d, tail) == If(more, us, rest)
    ensures ReadUnits(d, e + tail) == If(ok && more, [c] + us, rest)
  {
  }

  lemma EscapeUnitsCons(us: seq<Unit>, more: string)
    requires us != []
    ensures EscapeUnits(us) + more == EscapeUnit(us[0]) + (EscapeUnits(us[1..]) + more)
  {
    var e, f := EscapeUnit(us[0]), EscapeUnits(us[1..]);
    assert EscapeUnits(us) == e + f;
    assert (e + f) + more == e + (f + more);
  }

  lemma {:induction false} UnitsRoundTrip(d: Dialect, us: seq<Unit>, close: string)
    requires close != "" && close[0] == '"'
    ensures ReadUnits(d, EscapeUnits(us) + close) == If(SafeUnits(d, us), us, close[1..])
  {
    if us == [] {
      assert EscapeUnits(us) + close == close;
    } else {
      var tail := EscapeUnits(us[1..]) + close;
      UnitsRoundTrip(d, us[1..], close);
      UnitRoundTrip(d, us[0], tail);
      ReadUnitsStep(d, EscapeUnit(us[0]), tail, SafeUnit(d, us[0]), us[0], SafeUnits(d, us[1..]), us[1..], close[1..]);
      EscapeUnitsCons(us, close);
      SafeUnitsCons(d, us);
    }
  }

  lemma SafeUnitsCons(d: Dialect, us: Str)
    requires us != []
    ensures SafeUnits(d, us) <==> SafeUnit(d, us[0]) && SafeUnits(d, us[1..])
    ensures us == [us[0]] + us[1..]
  {
    assert forall c <- us[1..] :: c in us;
    forall c | c in us ensures c == us[0] || c in us[1..] {
      var i :| 0 <= i < |us| && us[i] == c;
      if i > 0 { assert us[1..][i - 1] == c; }
    }
  }

  /** Splitting into surrogates and fusing again is fusing. */
  lemma {:induction false} FuseUnits(s: Str)
    ensures Fuse(AllUnits(s)) == Fuse(s)
    decreases |s|
  {
    if s == [] {
    } else if s[0] >= 0x1_0000 {
      FuseUnits(s[1..]);
      var u := AllUnits(s);
      assert u[2..] == AllUnits(s[1..]);
    } else if |s| > 1 && High(s[0]) && Low(s[1]) {
      FuseUnits(s[2..]);
      assert AllUnits(s) == [s[0]] + ([s[1]] + AllUnits(s[1..][1..]));
      assert s[1..][1..] == s[2..];
      assert AllUnits(s)[2..] == AllUnits(s[2..]);
    } else {
      FuseUnits(s[1..]);
      var u := AllUnits(s);
      assert u[1..] == AllUnits(s[1..]);
      if |s| > 1 { assert AllUnits(s[1..]) == Units(s[1]) + AllUnits(s[1..][1..]); }
    }
  }

  lemma ReadStringStep(d: Dialect, text: string, body: string, ok: bool, us: Str, rest: string)
    requires text == "\"" + body && ReadUnits(d, body) == If(ok, us, rest)
    ensures ReadString(d, text) == If(ok, if d == Json then Fuse(us) else us, rest)
  {
    assert text[1..] == body;
  }

  /** A string whose literal the dialect can read. Nothing above the BMP is one in
      HCL2, because it is printed as two surrogates. */
  predicate SafeString(d: Dialect, s: Str)
  {
    d == Json || forall c <- s :: SafeChar(c)
  }

  predicate SafeChar(c: CodePoint)
  {
    c != 0x08 && c != 0x0C && c < 0x1_0000 && !Surrogate(c)
  }

  lemma UnitsOfAstral(c: CodePoint)
    requires c >= 0x1_0000
    ensures High(Units(c)[0]) && !SafeUnits(Hcl2, Units(c))
  {
    var k := (c - 0x1_0000) / 1024;
    assert 0 <= k < 1024;
    assert Units(c)[0] in Units(c);
  }

  lemma SafeAppend(a: Str, b: Str)
    ensures SafeUnits(Hcl2, a + b) <==> SafeUnits(Hcl2, a) && SafeUnits(Hcl2, b)
  {
  }

  lemma UnitsOfOne(c: CodePoint)
    ensures SafeUnits(Hcl2, Units(c)) <==> SafeChar(c)
    ensures c < 0x1_0000 ==> Units(c) == [c]
  {
    if c >= 0x1_0000 { UnitsOfAstral(c); } else { assert Units(c)[0] in Units(c); }
  }

  lemma SafeStringCons(s: Str)
    requires s != []
    ensures SafeString(Hcl2, s) <==> SafeChar(s[0]) && SafeString(Hcl2, s[1..])
  {
    assert forall c <- s[1..] :: c in s;
    forall c | c in s ensures c == s[0] || c in s[1..] {
      var i :| 0 <= i < |s| && s[i] == c;
      if i > 0 { assert s[1..][i - 1] == c; }
    }
  }

  lemma {:induction false} SafeStringUnits(s: Str)
    ensures SafeUnits(Hcl2, AllUnits(s)) <==> SafeString(Hcl2, s)
    ensures SafeString(Hcl2, s) ==> AllUnits(s) == s
  {
    if s != [] {
      SafeStringUnits(s[1..]);
      SafeStringCons(s);
      SafeAppend(Units(s[0]), AllUnits(s[1..]));
      UnitsOfOne(s[0]);
      assert s == [s[0]] + s[1..];
    }
  }

  lemma SafeIsPairFree(s: Str)
    requires SafeString(Hcl2, s)
    ensures PairFree(s) && Fuse(s) == s
  {
    forall i | 0 < i < |s| ensures !(High(s[i - 1]) && Low(s[i])) { assert s[i] in s; }
    FuseOfPairFree(s);
  }

  /** What reading a printed literal yields, for every string and by either rules. */
  lemma StringRoundTrip(d: Dialect, s: Str, rest: string)
    ensures ReadString(d, Quote(s) + rest) == If(SafeString(d, s), Fuse(s), rest)
  {
    var us, close := AllUnits(s), "\"" + rest;
    assert close[1..] == rest;
    UnitsRoundTrip(d, us, close);
    ReadStringStep(d, "\"" + (EscapeUnits(us) + close), EscapeUnits(us) + close, SafeUnits(d, us), us, rest);
    QuotedText(EscapeUnits(us), rest);
    if d == Json {
      FuseUnits(s);
    } else {
      SafeStringUnits(s);
      if SafeString(Hcl2, s) { SafeIsPairFree(s); }
    }
  }

  lemma QuotedText(body: string, rest: string)
    ensures ("\"" + body + "\"") + rest == "\"" + (body + ("\"" + rest))
  {
  }

  lemma {:induction false} FuseShrinks(s: Str)
    ensures |Fuse(s)| <= |s|
    ensures |Fuse(s)| == |s| <==> PairFree(s)
    decreases |s|
  {
    if s == [] {
    } else if |s| > 1 && High(s[0]) && Low(s[1]) {
      FuseShrinks(s[2..]);
      assert High(s[1 - 1]) && Low(s[1]);
    } else {
      FuseShrinks(s[1..]);
      if PairFree(s) {
        forall i | 0 < i < |s[1..]| ensures !(High(s[1..][i - 1]) && Low(s[1..][i])) {
          assert !(High(s[i]) && Low(s[i + 1]));
        }
      } else {
        var i :| 0 < i < |s| && High(s[i - 1]) && Low(s[i]);
        assert i > 1;
        assert High(s[1..][i - 2]) && Low(s[1..][i - 1]);
      }
    }
  }

  lemma {:induction false} FuseOfPairFree(s: Str)
    requires PairFree(s)
    ensures Fuse(s) == s
    decreases |s|
  {
    if s != [] {
      assert |s| > 1 ==> !(High(s[1 - 1]) && Low(s[1]));
      forall i | 0 < i < |s[1..]| ensures !(High(s[1..][i - 1]) && Low(s[1..][i])) {
        assert !(High(s[i]) && Low(s[i + 1]));
      }
      FuseOfPairFree(s[1..]);
    }
  }

  /** Read as in RFC 8259, a string comes back as itself exactly when it holds no
      adjacent high/low surrogate pair; no proper Unicode text does. */
  lemma StringSurvivesIff(s: Str, rest: string)
    ensures ReadString(Json, Quote(s) + rest) == Done(s, rest) <==> PairFree(s)
  {
    StringRoundTrip(Json, s, rest);
    FuseShrinks(s);
    if PairFree(s) { FuseOfPairFree(s); }
  }

  /** Read by HCL2, it does exactly when it holds no backspace, no form feed, no
      surrogate and no character above the BMP; otherwise the literal is refused. */
  lemma StringSurvivesHcl2Iff(s: Str, rest: string)
    ensures ReadString(Hcl2, Quote(s) + rest) == Done(s, rest) <==> SafeString(Hcl2, s)
    ensures ReadString(Hcl2, Quote(s) + rest) == Fail <==> !SafeString(Hcl2, s)
  {
    StringRoundTrip(Hcl2, s, rest);
    SafeStringUnits(s);
    if SafeString(Hcl2, s) { SafeIsPairFree(s); }
  }

  /** Printable ASCII other than the quote and the backslash is printed as it is. */
  predicate Plain(t: string)
  {
    forall i :: 0 <= i < |t| ==> 0x20 <= t[i] as int <= 0x7E && t[i] != '"' && t[i] != '\\'
  }

  function CodePoints(t: string): Str
  {
    seq(|t|, i requires 0 <= i < |t| => t[i] as int)
  }

  lemma PlainUnit(c: char)
    requires 0x20 <= c as int <= 0x7E && c != '"' && c != '\\'
    ensures EscapeUnit(c as int) == [c]
  {
  }

  lemma {:induction false} PlainEscapes(t: string)
    requires Plain(t)
    ensures EscapeUnits(CodePoints(t)) == t
  {
    if t != "" {
      var u: seq<Unit> := CodePoints(t);
      PlainEscapes(t[1..]);
      assert u[1..] == CodePoints(t[1..]);
      PlainUnit(t[0]);
      assert t == [t[0]] + t[1..];
    }
  }

  lemma PlainIsSafe(d: Dialect, t: string)
    requires Plain(t)
    ensures SafeString(d, CodePoints(t))
  {
    forall c | c in CodePoints(t) ensures 0x20 <= c <= 0x7E {
      var i :| 0 <= i < |t| && CodePoints(t)[i] == c;
      assert t[i] as int == c;
    }
  }

  /** Printable ASCII needs no escapes. */
  lemma PlainIsVerbatim(t: string)
    requires Plain(t)
    ensures Quote(CodePoints(t)) == "\"" + t + "\""
  {
    PlainIsSafe(Hcl2, t);
    SafeStringUnits(CodePoints(t));
    PlainEscapes(t);
  }

  lemma AllUnitsOfOne(u: Unit)
    ensures AllUnits([u]) == [u]
  {
    var s: Str := [u];
    assert s[1..] == [];
  }

  lemma PairPrintsFused(h: CodePoint, l: CodePoint)
    requires High(h) && Low(l)
    ensures Quote([h, l]) == Quote([0x1_0000 + (h - 0xD800) * 1024 + (l - 0xDC00)])
  {
    var c: CodePoint := 0x1_0000 + (h - 0xD800) * 1024 + (l - 0xDC00);
    var s, t: Str := [h, l], [c];
    assert s[1..] == [l] && t[1..] == [];
    assert AllUnits(t) == Units(c) + [] == [h, l];
    AllUnitsOfOne(l);
    assert AllUnits(s) == Units(h) + AllUnits(s[1..]) == [h, l];
  }
}
