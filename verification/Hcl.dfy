/** The HCL2 item tree of the Packer editor, its printer and a reader for the
    printed subset. The reader does not look at indentation, only at line
    breaks, as HCL does. */
module Hcl {
  import opened JsonString
  import opened Text

  /** `Raw` is a code-generated expression; every user string is a `Lit`. */
  datatype Value =
    | Raw(expr: string)
    | Bool(b: bool)
    | Int(n: int)
    | Lit(s: Str)
    | List(elems: seq<Value>)
    | Map(entries: seq<Entry>)

  datatype Entry = Entry(key: Str, value: Value)

  datatype Item =
    | Attr(key: string, value: Value)
    | Block(kind: string, labels: seq<Str>, body: seq<Item>)

  // ---------------------------------------------------------------- printing

  function IntText(n: int): string
  {
    if n < 0 then "-" + NatText(-n) else NatText(n)
  }

  function ValueText(v: Value, indent: string): string
    decreases v
  {
    match v
    case Raw(expr) => expr
    case Bool(b) => if b then "true" else "false"
    case Int(n) => IntText(n)
    case Lit(s) => Quote(s)
    case List(elems) =>
      if elems == [] then "[]"
      else "[\n" + Join(",\n", ElemLines(elems, indent)) + "\n" + indent + "]"
    case Map(entries) => "{\n" + Join("\n", EntryLines(entries, indent)) + "\n" + indent + "}"
  }

  function ElemLines(elems: seq<Value>, indent: string): (lines: seq<string>)
    ensures |lines| == |elems|
    decreases elems
  {
    if elems == [] then []
    else [indent + "  " + ValueText(elems[0], indent + "  ")] + ElemLines(elems[1..], indent)
  }

  function EntryLine(e: Entry, indent: string): string
    decreases e
  {
    indent + "  " + Quote(e.key) + " = " + ValueText(e.value, indent + "  ")
  }

  function EntryLines(entries: seq<Entry>, indent: string): (lines: seq<string>)
    ensures |lines| == |entries|
    decreases entries
  {
    if entries == [] then [] else [EntryLine(entries[0], indent)] + EntryLines(entries[1..], indent)
  }

  function LabelText(labels: seq<Str>): string
  {
    if labels == [] then "" else " " + Quote(labels[0]) + LabelText(labels[1..])
  }

  /** What one item appends to the printer's output list. */
  function ItemLines(it: Item, indent: string): seq<string>
    decreases it
  {
    match it
    case Attr(key, value) => [indent + key + " = " + ValueText(value, indent)]
    case Block(kind, labels, body) =>
      [indent + kind + LabelText(labels) + " {"]
      + (if body == [] then [] else [Join("\n", BodyLines(body, indent + "  "))])
      + [indent + "}"]
  }

  function BodyLines(items: seq<Item>, indent: string): seq<string>
    decreases items
  {
    if items == [] then [] else ItemLines(items[0], indent) + BodyLines(items[1..], indent)
  }

  function BodyText(items: seq<Item>, indent: string): string
  {
    Join("\n", BodyLines(items, indent))
  }

  lemma {:induction false} BodyLinesSnoc(items: seq<Item>, it: Item, indent: string)
    ensures BodyLines(items + [it], indent) == BodyLines(items, indent) + ItemLines(it, indent)
  {
    if items == [] {
      assert items + [it] == [it] && [it][1..] == [];
    } else {
      BodyLinesSnoc(items[1..], it, indent);
      SnocParts(items, it);
      AssocSeq(ItemLines(items[0], indent), BodyLines(items[1..], indent), ItemLines(it, indent));
    }
  }

  /** `_render_body`: the output list is filled item by item and joined at the end. */
  method RenderBody(items: seq<Item>, indent: string) returns (text: string)
    ensures text == BodyText(items, indent)
    decreases items
  {
    var out: seq<string> := [];
    for i := 0 to |items|
      invariant out == BodyLines(items[..i], indent)
    {
      match items[i] {
        case Attr(key, value) =>
          out := out + [indent + key + " = " + ValueText(value, indent)];
        case Block(kind, labels, body) =>
          var labelStr := RenderLabels(labels);
          out := out + [indent + kind + labelStr + " {"];
          if body != [] {
            var inner := RenderBody(body, indent + "  ");
            out := out + [inner];
          }
          out := out + [indent + "}"];
      }
      assert items[..i + 1] == items[..i] + [items[i]];
      BodyLinesSnoc(items[..i], items[i], indent);
    }
    assert items[..|items|] == items;
    text := Join("\n", out);
  }

  lemma {:induction false} LabelTextSnoc(labels: seq<Str>, l: Str)
    ensures LabelText(labels + [l]) == LabelText(labels) + (" " + Quote(l))
  {
    var q := " " + Quote(l);
    if labels == [] {
      assert labels + [l] == [l] && [l][1..] == [];
      assert "" + q == q == q + "";
    } else {
      LabelTextSnoc(labels[1..], l);
      SnocParts(labels, l);
      Assoc(" " + Quote(labels[0]), LabelText(labels[1..]), q);
    }
  }

  method RenderLabels(labels: seq<Str>) returns (text: string)
    ensures text == LabelText(labels)
  {
    text := "";
    for i := 0 to |labels|
      invariant text == LabelText(labels[..i])
    {
      text := text + (" " + Quote(labels[i]));
      LabelTextSnoc(labels[..i], labels[i]);
      assert labels[..i + 1] == labels[..i] + [labels[i]];
    }
    assert labels[..|labels|] == labels;
  }

  // ----------------------------------------------------------------- reading

  function SkipSpaces(s: string): (r: string)
    ensures |r| <= |s|
  {
    if s != "" && s[0] == ' ' then SkipSpaces(s[1..]) else s
  }

  /** The length of a scalar token: it ends at a comma, a line break or the end. */
  function TokenLen(s: string): (n: nat)
    ensures n <= |s|
  {
    if s == "" || s[0] == ',' || s[0] == '\n' then 0 else 1 + TokenLen(s[1..])
  }

  predicate IsDigit(c: char) { '0' <= c <= '9' }

  predicate AllDigits(t: string)
  {
    forall i :: 0 <= i < |t| ==> IsDigit(t[i])
  }

  function NatValue(t: string): nat
    requires AllDigits(t)
  {
    if t == "" then 0 else NatValue(t[..|t| - 1]) * 10 + (t[|t| - 1] as int - '0' as int)
  }

  function Scalar(t: string): Value
  {
    if t == "true" then Bool(true)
    else if t == "false" then Bool(false)
    else if t != "" && AllDigits(t) then Int(NatValue(t))
    else if |t| > 1 && t[0] == '-' && AllDigits(t[1..]) then Int(0 - NatValue(t[1..]))
    else Raw(t)
  }

  function ReadValue(d: Dialect, s: string): (r: Read<Value>)
    ensures r.Done? ==> |r.rest| < |s|
    decreases |s|, 0
  {
    if s == "" then Fail
    else if s[0] == '"' then
      var str := ReadString(d, s);
      if str.Fail? then Fail else Done(Lit(str.value), str.rest)
    else if s[0] == '[' then
      if |s| < 2 then Fail
      else if s[1] == ']' then Done(List([]), s[2..])
      else if s[1] == '\n' then
        var elems := ReadElems(d, s[2..]);
        if elems.Fail? then Fail else Done(List(elems.value), elems.rest)
      else Fail
    else if s[0] == '{' then
      if |s| < 2 || s[1] != '\n' then Fail
      else
        var entries := ReadEntries(d, s[2..]);
        if entries.Fail? then Fail else Done(Map(entries.value), entries.rest)
    else
      var n := TokenLen(s);
      if n == 0 then Fail else Done(Scalar(s[..n]), s[n..])
  }

  function ReadElems(d: Dialect, s: string): (r: Read<seq<Value>>)
    ensures r.Done? ==> |r.rest| < |s|
    decreases |s|, 1
  {
    var v := ReadValue(d, SkipSpaces(s));
    if v.Fail? then Fail
    else if |v.rest| > 1 && v.rest[0] == ',' && v.rest[1] == '\n' then
      var vs := ReadElems(d, v.rest[2..]);
      if vs.Fail? then Fail else Done([v.value] + vs.value, vs.rest)
    else if v.rest != "" && v.rest[0] == '\n' then
      var t := SkipSpaces(v.rest[1..]);
      if t != "" && t[0] == ']' then Done([v.value], t[1..]) else Fail
    else Fail
  }

  function ReadEntries(d: Dialect, s: string): (r: Read<seq<Entry>>)
    ensures r.Done? ==> |r.rest| < |s|
    decreases |s|, 1
  {
    var t := SkipSpaces(s);
    if t == "" then Fail
    else if t[0] == '}' then Done([], t[1..])
    else if t[0] == '\n' then ReadEntries(d, t[1..])
    else
      var e := ReadEntry(d, t);
      if e.Fail? || e.rest == "" || e.rest[0] != '\n' then Fail
      else
        var es := ReadEntries(d, e.rest[1..]);
        if es.Fail? then Fail else Done([e.value] + es.value, es.rest)
  }

  function ReadEntry(d: Dialect, s: string): (r: Read<Entry>)
    ensures r.Done? ==> |r.rest| < |s|
    decreases |s|, 0
  {
    var k := ReadString(d, s);
    if k.Fail? || !(" = " <= k.rest) then Fail
    else
      var v := ReadValue(d, k.rest[3..]);
      if v.Fail? then Fail else Done(Entry(k.value, v.value), v.rest)
  }

  predicate IsLetter(c: char) { 'a' <= c <= 'z' || 'A' <= c <= 'Z' }

  predicate IsIdentChar(c: char) { IsLetter(c) || IsDigit(c) || c == '_' || c == '-' }

  predicate IsIdent(t: string)
  {
    t != "" && IsLetter(t[0]) && forall i :: 0 <= i < |t| ==> IsIdentChar(t[i])
  }

  function IdentLen(s: string): (n: nat)
    ensures n <= |s|
  {
    if s == "" || !IsIdentChar(s[0]) then 0 else 1 + IdentLen(s[1..])
  }

  function DropLine(s: string): (r: string)
    ensures s != "" ==> |r| < |s|
  {
    if s == "" then "" else if s[0] == '\n' then s[1..] else DropLine(s[1..])
  }

  function ReadLabels(d: Dialect, s: string): (r: Read<seq<Str>>)
    ensures r.Done? ==> |r.rest| <= |s|
    decreases |s|
  {
    if |s| > 1 && s[0] == ' ' && s[1] == '"' then
      var l := ReadString(d, s[1..]);
      if l.Fail? then Fail
      else
        var ls := ReadLabels(d, l.rest);
        if ls.Fail? then Fail else Done([l.value] + ls.value, ls.rest)
    else Done([], s)
  }

  /** Items up to a closing brace or the end of the text. Blank lines and
      comment lines are skipped. */
  function ReadItems(d: Dialect, s: string): (r: Read<seq<Item>>)
    ensures r.Done? ==> |r.rest| <= |s|
    decreases |s|, 1
  {
    var t := SkipSpaces(s);
    if t == "" || t[0] == '}' then Done([], t)
    else if t[0] == '\n' then ReadItems(d, t[1..])
    else if t[0] == '#' then ReadItems(d, DropLine(t))
    else
      var it := ReadItem(d, t);
      if it.Fail? then Fail
      else
        var its := ReadItems(d, it.rest);
        if its.Fail? then Fail else Done([it.value] + its.value, its.rest)
  }

  function ReadItem(d: Dialect, s: string): (r: Read<Item>)
    ensures r.Done? ==> |r.rest| < |s|
    decreases |s|, 0
  {
    var n := IdentLen(s);
    if n == 0 then Fail
    else if " = " <= s[n..] then
      var v := ReadValue(d, s[n + 3..]);
      if v.Fail? || v.rest == "" || v.rest[0] != '\n' then Fail
      else Done(Attr(s[..n], v.value), v.rest[1..])
    else
      var ls := ReadLabels(d, s[n..]);
      if ls.Fail? || !(" {\n" <= ls.rest) then Fail
      else
        var body := ReadItems(d, ls.rest[3..]);
        if body.Fail? || !("}\n" <= body.rest) then Fail
        else Done(Block(s[..n], ls.value, body.value), body.rest[2..])
  }

  function ReadDocument(d: Dialect, text: string): Read<seq<Item>>
  {
    var r := ReadItems(d, text);
    if r.Done? && r.rest == "" then r else Fail
  }

  // ------------------------------------------------- which trees are printed

  /** A code-generated expression such as `var.node` or a ternary. */
  predicate PlainExpr(r: string)
  {
    r != "" && IsLetter(r[0]) && r != "true" && r != "false"
    && forall i :: 0 <= i < |r| ==> r[i] != ',' && r[i] != '\n'
  }

  /** A code-generated string template such as `"tmpl-${var.vm_name}"`. */
  predicate TemplateExpr(r: string)
  {
    |r| > 1 && r[0] == '"' && r[|r| - 1] == '"' && Plain(r[1..|r| - 1])
  }

  predicate WfValue(v: Value)
    decreases v
  {
    match v
    case Raw(expr) => PlainExpr(expr) || TemplateExpr(expr)
    case List(elems) => forall e <- elems :: WfValue(e)
    case Map(entries) => forall e <- entries :: WfValue(e.value)
    case _ => true
  }

  predicate WfItem(it: Item)
    decreases it
  {
    match it
    case Attr(key, value) => IsIdent(key) && WfValue(value)
    case Block(kind, labels, body) => IsIdent(kind) && forall b <- body :: WfItem(b)
  }

  predicate WfBody(items: seq<Item>)
  {
    forall it <- items :: WfItem(it)
  }

  // ------------------------------------- which trees a dialect's literals can hold

  /** Every string of the tree is one the dialect can read as a literal. */
  predicate SafeValue(d: Dialect, v: Value)
    decreases v
  {
    match v
    case Lit(s) => SafeString(d, s)
    case List(elems) => SafeElems(d, elems)
    case Map(entries) => SafeEntries(d, entries)
    case _ => true
  }

  predicate SafeElems(d: Dialect, elems: seq<Value>)
    decreases elems
  {
    elems == [] || (SafeValue(d, elems[0]) && SafeElems(d, elems[1..]))
  }

  predicate SafeEntries(d: Dialect, entries: seq<Entry>)
    decreases entries
  {
    entries == []
    || (SafeString(d, entries[0].key) && SafeValue(d, entries[0].value) && SafeEntries(d, entries[1..]))
  }

  predicate SafeLabels(d: Dialect, labels: seq<Str>)
  {
    labels == [] || (SafeString(d, labels[0]) && SafeLabels(d, labels[1..]))
  }

  predicate SafeItem(d: Dialect, it: Item)
    decreases it
  {
    match it
    case Attr(key, value) => SafeValue(d, value)
    case Block(kind, labels, body) => SafeLabels(d, labels) && SafeBody(d, body)
  }

  predicate SafeBody(d: Dialect, items: seq<Item>)
    decreases items
  {
    items == [] || (SafeItem(d, items[0]) && SafeBody(d, items[1..]))
  }

  // ------------------------------------------- what the reader makes of them

  function NormalValue(v: Value): Value
    decreases v
  {
    match v
    case Raw(expr) => if TemplateExpr(expr) then Lit(CodePoints(expr[1..|expr| - 1])) else v
    case Lit(s) => Lit(Fuse(s))
    case List(elems) => List(NormalElems(elems))
    case Map(entries) => Map(NormalEntries(entries))
    case _ => v
  }

  function NormalElems(elems: seq<Value>): seq<Value>
    decreases elems
  {
    if elems == [] then [] else [NormalValue(elems[0])] + NormalElems(elems[1..])
  }

  function NormalEntries(entries: seq<Entry>): seq<Entry>
    decreases entries
  {
    if entries == [] then []
    else [Entry(Fuse(entries[0].key), NormalValue(entries[0].value))] + NormalEntries(entries[1..])
  }

  function NormalLabels(labels: seq<Str>): seq<Str>
  {
    if labels == [] then [] else [Fuse(labels[0])] + NormalLabels(labels[1..])
  }

  function NormalItem(it: Item): Item
    decreases it
  {
    match it
    case Attr(key, value) => Attr(key, NormalValue(value))
    case Block(kind, labels, body) => Block(kind, NormalLabels(labels), NormalBody(body))
  }

  function NormalBody(items: seq<Item>): seq<Item>
    decreases items
  {
    if items == [] then [] else [NormalItem(items[0])] + NormalBody(items[1..])
  }
}
