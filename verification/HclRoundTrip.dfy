/** Reading back a printed tree: the text determines the tree. */
module HclRoundTrip {
  import opened JsonString
  import opened Hcl
  import opened Text

  predicate Spaces(t: string)
  {
    forall i :: 0 <= i < |t| ==> t[i] == ' '
  }

  lemma {:induction false} SkipIndent(indent: string, s: string)
    requires Spaces(indent) && (s == "" || s[0] != ' ')
    ensures SkipSpaces(indent + s) == s
  {
    if indent == "" {
      assert indent + s == s;
    } else {
      SkipIndent(indent[1..], s);
      assert (indent + s)[1..] == indent[1..] + s;
    }
  }

  // ----------------------------------------------------------------- scalars

  /** A value is always followed by the end, a comma or a line break. */
  predicate Ended(rest: string)
  {
    rest == "" || rest[0] == ',' || rest[0] == '\n'
  }

  predicate NoStop(t: string)
  {
    forall i :: 0 <= i < |t| ==> t[i] != ',' && t[i] != '\n'
  }

  lemma {:induction false} TokenIs(t: string, rest: string)
    requires NoStop(t)
    requires Ended(rest)
    ensures TokenLen(t + rest) == |t|
  {
    if t == "" {
      assert t + rest == rest;
    } else {
      TokenIs(t[1..], rest);
      assert (t + rest)[1..] == t[1..] + rest;
    }
  }

  /** A text that starts no string, list or map is read as one scalar token. */
  lemma ReadScalar(d: Dialect, t: string, rest: string)
    requires t != "" && t[0] != '"' && t[0] != '[' && t[0] != '{'
    requires NoStop(t)
    requires Ended(rest)
    ensures ReadValue(d, t + rest) == Done(Scalar(t), rest)
  {
    TokenIs(t, rest);
    var s := t + rest;
    assert s[..|t|] == t && s[|t|..] == rest;
  }

  lemma {:induction false} NatTextIsNumber(n: nat)
    ensures NatText(n) != "" && AllDigits(NatText(n)) && NatValue(NatText(n)) == n
  {
    if n < 10 {
      assert NatText(n)[..0] == "";
    } else {
      NatTextIsNumber(n / 10);
      assert NatText(n)[..|NatText(n)| - 1] == NatText(n / 10);
    }
  }

  lemma DigitsAreScalar(t: string)
    requires t != "" && AllDigits(t)
    ensures NoStop(t) && NoStop("-" + t) && IsDigit(t[0])
    ensures Scalar(t) == Int(NatValue(t))
  {
    assert t[0] != 't' && t[0] != 'f';
  }

  lemma MinusIsScalar(t: string)
    requires t != "" && AllDigits(t)
    ensures Scalar("-" + t) == Int(0 - NatValue(t))
  {
    var s := "-" + t;
    assert s[0] == '-' && s[1..] == t;
    assert !IsDigit(s[0]);
  }

  lemma IntTextIsScalar(n: int)
    ensures var t := IntText(n); t != "" && (IsDigit(t[0]) || t[0] == '-') && Scalar(t) == Int(n) && NoStop(t)
  {
    var k: nat := if n < 0 then -n else n;
    NatTextIsNumber(k);
    DigitsAreScalar(NatText(k));
    MinusIsScalar(NatText(k));
  }

  lemma PlainExprIsScalar(t: string)
    requires PlainExpr(t)
    ensures Scalar(t) == Raw(t)
  {
    assert !IsDigit(t[0]);
  }

  /** A template expression is the literal of its own text. */
  lemma TemplateIsLiteral(d: Dialect, t: string, rest: string)
    requires TemplateExpr(t)
    ensures ReadString(d, t + rest) == Done(CodePoints(t[1..|t| - 1]), rest)
  {
    var body := t[1..|t| - 1];
    PlainIsVerbatim(body);
    assert t == "\"" + body + "\"";
    StringRoundTrip(d, CodePoints(body), rest);
    PlainIsSafe(d, body);
    PlainIsSafe(Hcl2, body);
    SafeIsPairFree(CodePoints(body));
  }

  /** Normal values without children are what the reader makes of a leaf. */
  lemma ReadLeaf(d: Dialect, v: Value, indent: string, rest: string)
    requires WfValue(v) && !v.List? && !v.Map? && Ended(rest)
    ensures ReadValue(d, ValueText(v, indent) + rest) == If(SafeValue(d, v), NormalValue(v), rest)
  {
    match v
    case Raw(expr) =>
      if TemplateExpr(expr) {
        TemplateIsLiteral(d, expr, rest);
        assert (expr + rest)[0] == '"';
      } else {
        PlainExprIsScalar(expr);
        ReadScalar(d, expr, rest);
      }
    case Bool(b) => ReadScalar(d, if b then "true" else "false", rest);
    case Int(n) =>
      IntTextIsScalar(n);
      ReadScalar(d, IntText(n), rest);
    case Lit(s) =>
      StringRoundTrip(d, s, rest);
      assert (Quote(s) + rest)[0] == '"';
  }

  /** No value starts with a space, a line break or a closing bracket. */
  lemma ValueStart(v: Value, indent: string)
    requires WfValue(v)
    ensures ValueText(v, indent) != "" && ValueText(v, indent)[0] != ' '
  {
    if v.Int? { IntTextIsScalar(v.n); }
  }

  // --------------------------------------------------------- lists and maps

  lemma ReadElemsLast(d: Dialect, text: string, ok: bool, v: Value, inner: string, after: string, close: string)
    requires Spaces(inner) && text != "" && text[0] != ' '
    requires ReadValue(d, text) == If(ok, v, "\n" + after)
    requires SkipSpaces(after) == close && close != "" && close[0] == ']'
    ensures ReadElems(d, inner + text) == If(ok, [v], close[1..])
  {
    SkipIndent(inner, text);
    assert ("\n" + after)[1..] == after;
  }

  lemma ReadElemsMore(d: Dialect, text: string, ok: bool, v: Value, inner: string, more: string, oks: bool,
                      vs: seq<Value>, rest: string)
    requires Spaces(inner) && text != "" && text[0] != ' '
    requires ReadValue(d, text) == If(ok, v, ",\n" + more)
    requires ReadElems(d, more) == If(oks, vs, rest)
    ensures ReadElems(d, inner + text) == If(ok && oks, [v] + vs, rest)
  {
    SkipIndent(inner, text);
    assert (",\n" + more)[2..] == more;
  }

  lemma ElemsStep(elems: seq<Value>, indent: string, tail: string)
    requires elems != []
    ensures var first := indent + "  " + ValueText(elems[0], indent + "  ");
      Join(",\n", ElemLines(elems, indent)) + tail
      == if |elems| == 1 then first + tail
         else first + (",\n" + (Join(",\n", ElemLines(elems[1..], indent)) + tail))
  {
    var lines := ElemLines(elems, indent);
    assert lines[1..] == ElemLines(elems[1..], indent);
    if |elems| > 1 {
      Assoc4(lines[0], ",\n", Join(",\n", lines[1..]), tail);
    }
  }

  lemma {:induction false} ReadElemsText(d: Dialect, elems: seq<Value>, indent: string, close: string)
    requires elems != [] && Spaces(indent) && (forall e <- elems :: WfValue(e))
    requires close != "" && close[0] == ']'
    ensures ReadElems(d, Join(",\n", ElemLines(elems, indent)) + ("\n" + (indent + close)))
         == If(SafeElems(d, elems), NormalElems(elems), close[1..])
    decreases elems, 0
  {
    var v, inner, after := elems[0], indent + "  ", indent + close;
    assert v in elems;
    ValueStart(v, inner);
    SkipIndent(indent, close);
    ElemsStep(elems, indent, "\n" + after);
    var first, ok := ValueText(v, inner), SafeValue(d, v);
    if |elems| == 1 {
      ReadValueText(d, v, inner, "\n" + after);
      ReadElemsLast(d, first + ("\n" + after), ok, NormalValue(v), inner, after, close);
      Assoc(inner, first, "\n" + after);
      assert elems[1..] == [] && NormalElems(elems) == [NormalValue(v)];
    } else {
      var more := Join(",\n", ElemLines(elems[1..], indent)) + ("\n" + after);
      forall e | e in elems[1..] ensures WfValue(e) { assert e in elems; }
      ReadElemsText(d, elems[1..], indent, close);
      ReadValueText(d, v, inner, ",\n" + more);
      ReadElemsMore(d, first + (",\n" + more), ok, NormalValue(v), inner, more, SafeElems(d, elems[1..]),
                    NormalElems(elems[1..]), close[1..]);
      Assoc(inner, first, ",\n" + more);
    }
  }

  lemma ReadEntryStep(d: Dialect, text: string, okKey: bool, k: Str, ok: bool, v: Value, value: string, rest: string)
    requires ReadString(d, text) == If(okKey, k, " = " + value)
    requires ReadValue(d, value) == If(ok, v, rest)
    ensures ReadEntry(d, text) == If(okKey && ok, Entry(k, v), rest)
  {
    assert (" = " + value)[3..] == value;
  }

  lemma ReadEntriesMore(d: Dialect, ok: bool, e: Entry, text: string, inner: string, more: string, oks: bool,
                        es: seq<Entry>, rest: string)
    requires Spaces(inner) && text != "" && text[0] == '"'
    requires ReadEntry(d, text) == If(ok, e, "\n" + more)
    requires ReadEntries(d, more) == If(oks, es, rest)
    ensures ReadEntries(d, inner + text) == If(ok && oks, [e] + es, rest)
  {
    SkipIndent(inner, text);
    assert ("\n" + more)[1..] == more;
  }

  /** One map line followed by `tail`. */
  lemma ReadEntryLine(d: Dialect, e: Entry, indent: string, more: string, oks: bool, es: seq<Entry>, rest: string)
    requires Spaces(indent)
    requires ReadValue(d, ValueText(e.value, indent + "  ") + ("\n" + more))
          == If(SafeValue(d, e.value), NormalValue(e.value), "\n" + more)
    requires ReadEntries(d, more) == If(oks, es, rest)
    ensures ReadEntries(d, EntryLine(e, indent) + ("\n" + more))
         == If(SafeString(d, e.key) && SafeValue(d, e.value) && oks,
               [Entry(Fuse(e.key), NormalValue(e.value))] + es, rest)
  {
    var inner, value := indent + "  ", ValueText(e.value, indent + "  ");
    var tail := "\n" + more;
    var q := Quote(e.key);
    var text := q + (" = " + (value + tail));
    var okKey, ok := SafeString(d, e.key), SafeValue(d, e.value);
    assert text[0] == '"';
    StringRoundTrip(d, e.key, " = " + (value + tail));
    ReadEntryStep(d, text, okKey, Fuse(e.key), ok, NormalValue(e.value), value + tail, tail);
    ReadEntriesMore(d, okKey && ok, Entry(Fuse(e.key), NormalValue(e.value)), text, inner, more, oks, es, rest);
    Assoc4(inner, q, " = ", value);
    Assoc(inner, q + (" = " + value), tail);
    Assoc4(q, " = ", value, tail);
    Assoc(q, " = ", value);
  }

  lemma ReadEntriesEnd(d: Dialect, indent: string, close: string)
    requires Spaces(indent) && close != "" && close[0] == '}'
    ensures ReadEntries(d, indent + close) == Done([], close[1..])
    ensures ReadEntries(d, "\n" + (indent + close)) == Done([], close[1..])
  {
    SkipIndent(indent, close);
    var blank := "\n" + (indent + close);
    assert SkipSpaces(blank) == blank && blank[1..] == indent + close;
  }

  lemma EntriesStep(entries: seq<Entry>, indent: string, tail: string)
    requires entries != []
    ensures Join("\n", EntryLines(entries, indent)) + tail
      == if |entries| == 1 then EntryLine(entries[0], indent) + tail
         else EntryLine(entries[0], indent) + ("\n" + (Join("\n", EntryLines(entries[1..], indent)) + tail))
  {
    var lines := EntryLines(entries, indent);
    assert lines[1..] == EntryLines(entries[1..], indent);
    if |entries| > 1 {
      Assoc4(lines[0], "\n", Join("\n", lines[1..]), tail);
    }
  }

  lemma OneEntry(d: Dialect, entries: seq<Entry>)
    requires |entries| == 1
    ensures SafeEntries(d, entries) <==> SafeString(d, entries[0].key) && SafeValue(d, entries[0].value)
    ensures NormalEntries(entries) == [Entry(Fuse(entries[0].key), NormalValue(entries[0].value))] + []
  {
    assert entries[1..] == [];
  }

  lemma ReadEntriesCons(d: Dialect, entries: seq<Entry>, indent: string, more: string, tail: string, rest: string)
    requires Spaces(indent) && |entries| > 1 && more == Join("\n", EntryLines(entries[1..], indent)) + tail
    requires ReadEntries(d, more) == If(SafeEntries(d, entries[1..]), NormalEntries(entries[1..]), rest)
    requires ReadValue(d, ValueText(entries[0].value, indent + "  ") + ("\n" + more))
          == If(SafeValue(d, entries[0].value), NormalValue(entries[0].value), "\n" + more)
    ensures ReadEntries(d, Join("\n", EntryLines(entries, indent)) + tail)
         == If(SafeEntries(d, entries), NormalEntries(entries), rest)
  {
    EntriesStep(entries, indent, tail);
    ReadEntryLine(d, entries[0], indent, more, SafeEntries(d, entries[1..]), NormalEntries(entries[1..]), rest);
  }

  lemma ReadEntriesOne(d: Dialect, entries: seq<Entry>, indent: string, close: string)
    requires Spaces(indent) && |entries| == 1 && close != "" && close[0] == '}'
    requires ReadValue(d, ValueText(entries[0].value, indent + "  ") + ("\n" + (indent + close)))
          == If(SafeValue(d, entries[0].value), NormalValue(entries[0].value), "\n" + (indent + close))
    ensures ReadEntries(d, Join("\n", EntryLines(entries, indent)) + ("\n" + (indent + close)))
         == If(SafeEntries(d, entries), NormalEntries(entries), close[1..])
  {
    EntriesStep(entries, indent, "\n" + (indent + close));
    ReadEntriesEnd(d, indent, close);
    ReadEntryLine(d, entries[0], indent, indent + close, true, [], close[1..]);
    OneEntry(d, entries);
  }

  lemma {:induction false} ReadEntriesText(d: Dialect, entries: seq<Entry>, indent: string, close: string)
    requires Spaces(indent) && (forall e <- entries :: WfValue(e.value))
    requires close != "" && close[0] == '}'
    ensures ReadEntries(d, Join("\n", EntryLines(entries, indent)) + ("\n" + (indent + close)))
         == If(SafeEntries(d, entries), NormalEntries(entries), close[1..])
    decreases entries, 0
  {
    var tail := "\n" + (indent + close);
    if entries == [] {
      ReadEntriesEnd(d, indent, close);
      assert "" + tail == tail;
    } else {
      var e, inner := entries[0], indent + "  ";
      assert e in entries;
      if |entries| == 1 {
        ReadValueText(d, e.value, inner, tail);
        ReadEntriesOne(d, entries, indent, close);
      } else {
        var more := Join("\n", EntryLines(entries[1..], indent)) + tail;
        forall f | f in entries[1..] ensures WfValue(f.value) { assert f in entries; }
        ReadEntriesText(d, entries[1..], indent, close);
        ReadValueText(d, e.value, inner, "\n" + more);
        ReadEntriesCons(d, entries, indent, more, tail, close[1..]);
      }
    }
  }

  lemma ReadListStep(d: Dialect, ok: bool, elems: seq<Value>, body: string, rest: string)
    requires ReadElems(d, body) == If(ok, elems, rest)
    ensures ReadValue(d, "[\n" + body) == If(ok, List(elems), rest)
  {
    assert ("[\n" + body)[2..] == body;
  }

  lemma ReadMapStep(d: Dialect, ok: bool, entries: seq<Entry>, body: string, rest: string)
    requires ReadEntries(d, body) == If(ok, entries, rest)
    ensures ReadValue(d, "{\n" + body) == If(ok, Map(entries), rest)
  {
    assert ("{\n" + body)[2..] == body;
  }

  /** Every printed value is read back, up to surrogate fusion and literal templates,
      or refused if it holds a string that the dialect cannot read. */
  lemma {:induction false} ReadValueText(d: Dialect, v: Value, indent: string, rest: string)
    requires WfValue(v) && Spaces(indent) && Ended(rest)
    ensures ReadValue(d, ValueText(v, indent) + rest) == If(SafeValue(d, v), NormalValue(v), rest)
    decreases v, 1
  {
    match v
    case List(elems) =>
      if elems == [] {
        assert ("[]" + rest)[2..] == rest;
      } else {
        var lines, close := Join(",\n", ElemLines(elems, indent)), "]" + rest;
        assert close[1..] == rest;
        ReadElemsText(d, elems, indent, close);
        ReadListStep(d, SafeElems(d, elems), NormalElems(elems), lines + ("\n" + (indent + close)), rest);
        Assoc6("[\n", lines, "\n", indent, "]", rest);
      }
    case Map(entries) =>
      var lines, close := Join("\n", EntryLines(entries, indent)), "}" + rest;
      assert close[1..] == rest;
      ReadEntriesText(d, entries, indent, close);
      ReadMapStep(d, SafeEntries(d, entries), NormalEntries(entries), lines + ("\n" + (indent + close)), rest);
      Assoc6("{\n", lines, "\n", indent, "}", rest);
    case _ => ReadLeaf(d, v, indent, rest);
  }

  // ------------------------------------------------------------------- items

  lemma {:induction false} IdentIs(t: string, rest: string)
    requires forall i :: 0 <= i < |t| ==> IsIdentChar(t[i])
    requires rest == "" || !IsIdentChar(rest[0])
    ensures IdentLen(t + rest) == |t|
  {
    if t == "" {
      assert t + rest == rest;
    } else {
      IdentIs(t[1..], rest);
      assert (t + rest)[1..] == t[1..] + rest;
    }
  }

  lemma AroundKey(key: string, value: string)
    ensures var text := key + (" = " + value);
      text[..|key|] == key && text[|key|..] == " = " + value && text[|key| + 3..] == value
  {
  }

  /** An attribute is read by reading its value. */
  lemma ReadAttr(d: Dialect, key: string, value: string)
    requires IsIdent(key)
    ensures var v := ReadValue(d, value);
      ReadItem(d, key + (" = " + value))
      == if v.Done? && v.rest != "" && v.rest[0] == '\n' then Done(Attr(key, v.value), v.rest[1..]) else Fail
  {
    IdentIs(key, " = " + value);
    AroundKey(key, value);
  }

  lemma ReadAttrStep(d: Dialect, key: string, ok: bool, v: Value, value: string, more: string)
    requires IsIdent(key) && ReadValue(d, value) == If(ok, v, "\n" + more)
    ensures ReadItem(d, key + (" = " + value)) == If(ok, Attr(key, v), more)
  {
    ReadAttr(d, key, value);
    assert ("\n" + more)[1..] == more;
  }

  lemma ReadBlockStep(d: Dialect, kind: string, head: string, okLabels: bool, labels: seq<Str>, inner: string,
                      ok: bool, body: seq<Item>, more: string)
    requires IsIdent(kind) && |head| > 1 && head[0] == ' ' && head[1] != '='
    requires ReadLabels(d, head) == If(okLabels, labels, " {\n" + inner)
    requires ReadItems(d, inner) == If(ok, body, "}\n" + more)
    ensures ReadItem(d, kind + head) == If(okLabels && ok, Block(kind, labels, body), more)
  {
    IdentIs(kind, head);
    var text := kind + head;
    assert text[..|kind|] == kind && text[|kind|..] == head;
    assert (" = ")[1] == '=';
    assert (" {\n" + inner)[3..] == inner;
    assert ("}\n" + more)[2..] == more;
  }

  lemma ReadLabelStep(d: Dialect, l: Str, more: string, ok: bool, ls: seq<Str>, rest: string)
    requires ReadLabels(d, more) == If(ok, ls, rest)
    ensures ReadLabels(d, " " + (Quote(l) + more)) == If(SafeString(d, l) && ok, [Fuse(l)] + ls, rest)
  {
    StringRoundTrip(d, l, more);
    var text := " " + (Quote(l) + more);
    assert text[1..] == Quote(l) + more;
  }

  lemma LabelHead(labels: seq<Str>, inner: string)
    ensures var head := LabelText(labels) + (" {\n" + inner); |head| > 1 && head[0] == ' ' && head[1] != '='
  {
    if labels == [] {
      assert "" + (" {\n" + inner) == " {\n" + inner;
    } else {
      assert LabelText(labels)[1] == Quote(labels[0])[0];
    }
  }

  lemma {:induction false} ReadLabelText(d: Dialect, labels: seq<Str>, inner: string)
    ensures ReadLabels(d, LabelText(labels) + (" {\n" + inner))
         == If(SafeLabels(d, labels), NormalLabels(labels), " {\n" + inner)
    ensures var head := LabelText(labels) + (" {\n" + inner); |head| > 1 && head[0] == ' ' && head[1] != '='
  {
    var tail := " {\n" + inner;
    LabelHead(labels, inner);
    if labels == [] {
      assert "" + tail == tail;
    } else {
      var more := LabelText(labels[1..]) + tail;
      ReadLabelText(d, labels[1..], inner);
      ReadLabelStep(d, labels[0], more, SafeLabels(d, labels[1..]), NormalLabels(labels[1..]), tail);
      Assoc4(" ", Quote(labels[0]), LabelText(labels[1..]), tail);
    }
  }

  lemma ReadItemsStep(d: Dialect, indent: string, text: string, ok: bool, it: Item, more: string, oks: bool,
                      its: seq<Item>, rest: string)
    requires Spaces(indent) && text != "" && IsLetter(text[0])
    requires ReadItem(d, text) == If(ok, it, more) && ReadItems(d, more) == If(oks, its, rest)
    ensures ReadItems(d, indent + text) == If(ok && oks, [it] + its, rest)
  {
    SkipIndent(indent, text);
  }

  lemma ReadItemsEnd(d: Dialect, indent: string, close: string)
    requires Spaces(indent) && close != "" && close[0] == '}'
    ensures ReadItems(d, indent + close) == Done([], close)
  {
    SkipIndent(indent, close);
  }

  /** The text of a block after its indentation. */
  function BlockTail(kind: string, labels: seq<Str>, inner: string): string
  {
    kind + (LabelText(labels) + (" {\n" + inner))
  }

  lemma BlockHead(kind: string, labels: seq<Str>, indent: string, inner: string)
    ensures (indent + kind + LabelText(labels) + " {") + ("\n" + inner) == indent + BlockTail(kind, labels, inner)
  {
    var l := LabelText(labels);
    Assoc6(indent, kind, l, " {", "\n", inner);
    Assoc(indent + kind + l + " {", "\n", inner);
    Assoc(" {", "\n", inner);
  }

  lemma BlockInner(body: seq<Item>, indent: string, after: string)
    ensures Terminate(if body == [] then [] else [Join("\n", BodyLines(body, indent))], after)
         == Terminate(BodyLines(body, indent), after)
  {
    if body != [] {
      var lines := BodyLines(body, indent);
      assert ItemLines(body[0], indent) != [];
      JoinTerminate(lines, after);
      assert [Join("\n", lines)][1..] == [];
    }
  }

  lemma BlockLines(kind: string, labels: seq<Str>, body: seq<Item>, indent: string, more: string)
    ensures Terminate(ItemLines(Block(kind, labels, body), indent), more)
         == indent + BlockTail(kind, labels, Terminate(BodyLines(body, indent + "  "), indent + ("}\n" + more)))
  {
    var head, end := indent + kind + LabelText(labels) + " {", indent + "}";
    var after := indent + ("}\n" + more);
    var mid := if body == [] then [] else [Join("\n", BodyLines(body, indent + "  "))];
    assert Terminate([end], more) == after by {
      TerminateOne(end, more);
      Assoc(indent, "}", "\n" + more);
      Assoc("}", "\n", more);
    }
    TerminateAppend([head] + mid, [end], more);
    TerminateAppend([head], mid, after);
    BlockInner(body, indent + "  ", after);
    TerminateOne(head, Terminate(mid, after));
    BlockHead(kind, labels, indent, Terminate(mid, after));
  }

  lemma AttrLines(key: string, value: Value, indent: string, more: string)
    ensures Terminate(ItemLines(Attr(key, value), indent), more)
         == indent + (key + (" = " + (ValueText(value, indent) + ("\n" + more))))
  {
    var line := indent + key + " = " + ValueText(value, indent);
    assert [line][1..] == [];
    assert Terminate([line], more) == line + ("\n" + more);
    Assoc4(indent, key, " = ", ValueText(value, indent));
    Assoc(indent, key + (" = " + ValueText(value, indent)), "\n" + more);
    Assoc4(key, " = ", ValueText(value, indent), "\n" + more);
    Assoc(key, " = ", ValueText(value, indent));
  }

  lemma LetterFirst(t: string, rest: string)
    requires IsIdent(t)
    ensures t + rest != "" && IsLetter((t + rest)[0])
  {
  }

  /** Every printed body is read back, up to what `NormalBody` says, or refused. */
  lemma {:induction false} ReadItemsText(d: Dialect, items: seq<Item>, indent: string, tail: string, close: string)
    requires WfBody(items) && Spaces(indent) && ReadItems(d, tail) == Done([], close)
    ensures ReadItems(d, Terminate(BodyLines(items, indent), tail)) == If(SafeBody(d, items), NormalBody(items), close)
    decreases items, 0
  {
    if items != [] {
      var it, its := items[0], items[1..];
      assert it in items;
      forall j | j in its ensures WfItem(j) { assert j in items; }
      var more := Terminate(BodyLines(its, indent), tail);
      TerminateAppend(ItemLines(it, indent), BodyLines(its, indent), tail);
      ReadItemsText(d, its, indent, tail, close);
      var text := ReadItemText(d, it, indent, more);
      ReadItemsStep(d, indent, text, SafeItem(d, it), NormalItem(it), more, SafeBody(d, its), NormalBody(its), close);
    }
  }

  lemma {:induction false} ReadItemText(d: Dialect, it: Item, indent: string, more: string) returns (text: string)
    requires WfItem(it) && Spaces(indent)
    ensures Terminate(ItemLines(it, indent), more) == indent + text
    ensures text != "" && IsLetter(text[0]) && ReadItem(d, text) == If(SafeItem(d, it), NormalItem(it), more)
    decreases it, 1
  {
    match it {
      case Attr(key, value) =>
        var body := ValueText(value, indent) + ("\n" + more);
        text := key + (" = " + body);
        AttrLines(key, value, indent, more);
        ReadValueText(d, value, indent, "\n" + more);
        ReadAttrStep(d, key, SafeValue(d, value), NormalValue(value), body, more);
        LetterFirst(key, " = " + body);
      case Block(kind, labels, body) =>
        var close := "}\n" + more;
        var inner := Terminate(BodyLines(body, indent + "  "), indent + close);
        text := BlockTail(kind, labels, inner);
        BlockLines(kind, labels, body, indent, more);
        ReadItemsEnd(d, indent, close);
        ReadItemsText(d, body, indent + "  ", indent + close, close);
        ReadLabelText(d, labels, inner);
        ReadBlockStep(d, kind, LabelText(labels) + (" {\n" + inner), SafeLabels(d, labels), NormalLabels(labels), inner,
                      SafeBody(d, body), NormalBody(body), more);
        LetterFirst(kind, LabelText(labels) + (" {\n" + inner));
    }
  }

  // --------------------------------------------------------------- documents

  /** The fixed first line of every generated file, in two pieces, which keeps facts
      about its characters cheap. */
  const BANNER := "# Generated by P3 Packer " + "Visual Editor \U{2014} p3portal.org"

  function Document(items: seq<Item>): string
  {
    BANNER + "\n" + BodyText(items, "") + "\n"
  }

  lemma {:induction false} DropLineIs(line: string, rest: string)
    requires forall i :: 0 <= i < |line| ==> line[i] != '\n'
    ensures DropLine(line + ("\n" + rest)) == rest
  {
    if line == "" {
      assert ("\n" + rest)[1..] == rest;
      assert line + ("\n" + rest) == "\n" + rest;
    } else {
      DropLineIs(line[1..], rest);
      assert (line + ("\n" + rest))[1..] == line[1..] + ("\n" + rest);
    }
  }

  lemma BannerSkipped(d: Dialect, rest: string)
    ensures ReadItems(d, BANNER + ("\n" + rest)) == ReadItems(d, rest)
  {
    DropLineIs(BANNER, rest);
    assert BANNER[0] == '#';
  }

  /** The generated text determines the tree: reading it gives the tree back, with
      each literal template as the string it denotes and each adjacent surrogate
      pair as the one character it denotes, or fails if the tree holds a string that
      the dialect cannot read. */
  lemma DocumentReadsBack(d: Dialect, items: seq<Item>)
    requires WfBody(items)
    ensures ReadDocument(d, Document(items)) == If(SafeBody(d, items), NormalBody(items), "")
  {
    var lines, text := BodyLines(items, ""), BodyText(items, "");
    Assoc4(BANNER, "\n", text, "\n");
    BannerSkipped(d, text + "\n");
    if items == [] {
      assert text + "\n" == "\n" && "\n"[1..] == "";
    } else {
      assert ItemLines(items[0], "") != [];
      JoinTerminate(lines, "");
      assert "\n" + "" == "\n";
      ReadItemsText(d, items, "", "", "");
    }
  }

  // ---------------------------------------------------- what the dialects can read

  lemma {:induction false} JsonValue(v: Value)
    ensures SafeValue(Json, v)
    decreases v, 1
  {
    match v
    case List(elems) => JsonElems(elems);
    case Map(entries) => JsonEntries(entries);
    case _ =>
  }

  lemma {:induction false} JsonElems(elems: seq<Value>)
    ensures SafeElems(Json, elems)
    decreases elems, 0
  {
    if elems != [] {
      JsonValue(elems[0]);
      JsonElems(elems[1..]);
    }
  }

  lemma {:induction false} JsonEntries(entries: seq<Entry>)
    ensures SafeEntries(Json, entries)
    decreases entries, 0
  {
    if entries != [] {
      JsonValue(entries[0].value);
      JsonEntries(entries[1..]);
    }
  }

  lemma {:induction false} JsonLabels(labels: seq<Str>)
    ensures SafeLabels(Json, labels)
  {
    if labels != [] { JsonLabels(labels[1..]); }
  }

  lemma {:induction false} JsonItem(it: Item)
    ensures SafeItem(Json, it)
    decreases it, 1
  {
    match it
    case Attr(key, value) => JsonValue(value);
    case Block(kind, labels, body) =>
      JsonLabels(labels);
      JsonBody(body);
  }

  /** By the rules of RFC 8259 there is no tree that cannot be read back. */
  lemma {:induction false} JsonBody(items: seq<Item>)
    ensures SafeBody(Json, items)
    decreases items, 0
  {
    if items != [] {
      JsonItem(items[0]);
      JsonBody(items[1..]);
    }
  }

  // ------------------------------------------------ exactly which trees survive

  predicate FaithfulValue(v: Value)
    decreases v
  {
    match v
    case Raw(expr) => !TemplateExpr(expr)
    case Lit(s) => PairFree(s)
    case List(elems) => forall e <- elems :: FaithfulValue(e)
    case Map(entries) => forall e <- entries :: PairFree(e.key) && FaithfulValue(e.value)
    case _ => true
  }

  predicate FaithfulItem(it: Item)
    decreases it
  {
    match it
    case Attr(key, value) => FaithfulValue(value)
    case Block(kind, labels, body) =>
      (forall l <- labels :: PairFree(l)) && forall b <- body :: FaithfulItem(b)
  }

  predicate FaithfulBody(items: seq<Item>)
  {
    forall it <- items :: FaithfulItem(it)
  }

  lemma FuseFixed(s: Str)
    ensures Fuse(s) == s <==> PairFree(s)
  {
    FuseShrinks(s);
    if PairFree(s) { FuseOfPairFree(s); }
  }

  lemma {:induction false} NormalValueFixed(v: Value)
    ensures NormalValue(v) == v <==> FaithfulValue(v)
    decreases v, 1
  {
    match v
    case Lit(s) => FuseFixed(s);
    case List(elems) => NormalElemsFixed(elems);
    case Map(entries) => NormalEntriesFixed(entries);
    case _ =>
  }

  lemma {:induction false} NormalElemsFixed(elems: seq<Value>)
    ensures NormalElems(elems) == elems <==> forall e <- elems :: FaithfulValue(e)
    decreases elems, 0
  {
    if elems != [] {
      ConsAll(elems);
      NormalValueFixed(elems[0]);
      NormalElemsFixed(elems[1..]);
      assert NormalElems(elems)[0] == NormalValue(elems[0]) && NormalElems(elems)[1..] == NormalElems(elems[1..]);
    }
  }

  lemma {:induction false} NormalEntriesFixed(entries: seq<Entry>)
    ensures NormalEntries(entries) == entries
       <==> forall e <- entries :: PairFree(e.key) && FaithfulValue(e.value)
    decreases entries, 0
  {
    if entries != [] {
      ConsAll(entries);
      var e := entries[0];
      FuseFixed(e.key);
      NormalValueFixed(e.value);
      NormalEntriesFixed(entries[1..]);
      var n := NormalEntries(entries);
      assert n[0] == Entry(Fuse(e.key), NormalValue(e.value)) && n[1..] == NormalEntries(entries[1..]);
    }
  }

  lemma {:induction false} NormalLabelsFixed(labels: seq<Str>)
    ensures NormalLabels(labels) == labels <==> forall l <- labels :: PairFree(l)
  {
    if labels != [] {
      ConsAll(labels);
      FuseFixed(labels[0]);
      NormalLabelsFixed(labels[1..]);
      assert NormalLabels(labels)[0] == Fuse(labels[0]) && NormalLabels(labels)[1..] == NormalLabels(labels[1..]);
    }
  }

  lemma {:induction false} NormalItemFixed(it: Item)
    ensures NormalItem(it) == it <==> FaithfulItem(it)
    decreases it, 1
  {
    match it
    case Attr(key, value) => NormalValueFixed(value);
    case Block(kind, labels, body) =>
      NormalLabelsFixed(labels);
      NormalBodyFixed(body);
  }

  lemma {:induction false} NormalBodyFixed(items: seq<Item>)
    ensures NormalBody(items) == items <==> FaithfulBody(items)
    decreases items, 0
  {
    if items != [] {
      ConsAll(items);
      NormalItemFixed(items[0]);
      NormalBodyFixed(items[1..]);
      assert NormalBody(items)[0] == NormalItem(items[0]) && NormalBody(items)[1..] == NormalBody(items[1..]);
    }
  }

  /** A tree is read back unchanged exactly when its strings are ones the dialect can
      read, no user string in it holds an adjacent surrogate pair and no template
      literal was passed as `Raw`. */
  lemma TreeSurvivesIff(d: Dialect, items: seq<Item>)
    requires WfBody(items)
    ensures ReadDocument(d, Document(items)) == Done(items, "") <==> SafeBody(d, items) && FaithfulBody(items)
  {
    DocumentReadsBack(d, items);
    NormalBodyFixed(items);
  }

  /** Two trees that print alike differ at most in how a literal was passed. */
  lemma EqualTextEqualTree(a: seq<Item>, b: seq<Item>)
    requires WfBody(a) && WfBody(b) && Document(a) == Document(b)
    ensures NormalBody(a) == NormalBody(b)
    ensures FaithfulBody(a) && FaithfulBody(b) ==> a == b
  {
    DocumentReadsBack(Json, a);
    DocumentReadsBack(Json, b);
    JsonBody(a);
    JsonBody(b);
    NormalBodyFixed(a);
    NormalBodyFixed(b);
  }

  /** The two exceptions are real: a template printed verbatim and the user
      string of the same text, and a surrogate pair and the character it codes. */
  lemma TreesThatPrintAlike(t: string, h: CodePoint, l: CodePoint)
    requires Plain(t) && High(h) && Low(l)
    ensures ValueText(Raw("\"" + t + "\""), "") == ValueText(Lit(CodePoints(t)), "")
    ensures ValueText(Lit([h, l]), "") == ValueText(Lit([0x1_0000 + (h - 0xD800) * 1024 + (l - 0xDC00)]), "")
  {
    PlainIsVerbatim(t);
    PairPrintsFused(h, l);
  }
}
