/** What printing a configuration and parsing it again gives, and exactly when
    nothing is lost. */
module ConfRoundTrip {
  import opened Options
  import opened Text
  import opened Conf

  // ---------------------------------------------------------- whitelisted keys

  predicate IsKeyChar(c: char)
  {
    'a' <= c <= 'z' || '0' <= c <= '9' || c == '_'
  }

  predicate KeyShape(k: string)
  {
    k != "" && forall i :: 0 <= i < |k| ==> IsKeyChar(k[i])
  }

  predicate GoodWhitelist(whitelist: set<string>)
  {
    forall k <- whitelist :: KeyShape(k)
  }

  lemma KeyCharIsPlain(c: char)
    requires IsKeyChar(c)
    ensures !IsSpace(c) && !IsBreak(c) && c != ':' && c != '#' && c != '[' && LowerChar(c) == c
  {
  }

  lemma {:induction false} LowerOfKey(k: string)
    requires forall i :: 0 <= i < |k| ==> IsKeyChar(k[i])
    ensures Lower(k) == k
  {
    if k != "" {
      KeyCharIsPlain(k[0]);
      LowerOfKey(k[1..]);
    }
  }

  lemma {:induction false} ColonAfterKey(k: string, rest: string)
    requires forall i :: 0 <= i < |k| ==> IsKeyChar(k[i])
    ensures ColonPos(k + (":" + rest)) == |k|
  {
    if k == "" {
      assert k + (":" + rest) == ":" + rest;
    } else {
      KeyCharIsPlain(k[0]);
      ColonAfterKey(k[1..], rest);
      assert (k + (":" + rest))[1..] == k[1..] + (":" + rest);
    }
  }

  lemma KeyIsTrimmed(k: string)
    requires KeyShape(k)
    ensures Strip(k) == k && BreakFree(k)
  {
    KeyCharIsPlain(k[0]);
    KeyCharIsPlain(k[|k| - 1]);
    TrimmedIff(k);
    forall i | 0 <= i < |k| ensures !IsBreak(k[i]) { KeyCharIsPlain(k[i]); }
  }

  lemma {:induction false} NatTextShape(n: nat)
    ensures KeyShape(NatText(n))
  {
    if n >= 10 { NatTextShape(n / 10); }
  }

  lemma NumberedShape(prefix: string, n: nat)
    requires KeyShape(prefix)
    ensures GoodWhitelist(Numbered(prefix, n))
  {
    forall k | k in Numbered(prefix, n) ensures KeyShape(k) {
      var i :| 0 <= i < n && k == prefix + NatText(i);
      NatTextShape(i);
    }
  }

  lemma Words1() ensures GoodWhitelist(QEMU_WORDS_1) { }

  lemma Words2() ensures GoodWhitelist(QEMU_WORDS_2) { }

  lemma Words3() ensures GoodWhitelist(QEMU_WORDS_3) { }

  lemma Words4() ensures GoodWhitelist(QEMU_WORDS_4) { }

  lemma Words5() ensures GoodWhitelist(QEMU_WORDS_5) { }

  lemma Words6() ensures GoodWhitelist(QEMU_WORDS_6) { }

  lemma Words7() ensures GoodWhitelist(QEMU_WORDS_7) { }

  lemma Words8() ensures GoodWhitelist(QEMU_WORDS_8) { }

  lemma Words9() ensures GoodWhitelist(QEMU_WORDS_9) { }

  lemma LxcWords1() ensures GoodWhitelist(LXC_WORDS_1) { }

  lemma LxcWords2() ensures GoodWhitelist(LXC_WORDS_2) { }

  lemma LxcWords3() ensures GoodWhitelist(LXC_WORDS_3) { }

  lemma QemuDevices1()
    ensures GoodWhitelist(QEMU_DEVICES_1)
  {
    NumberedShape("audio", 1);
    NumberedShape("efidisk", 1);
    NumberedShape("hostpci", 4);
    NumberedShape("ide", 4);
    NumberedShape("ipconfig", 4);
  }

  lemma QemuDevices3()
    ensures GoodWhitelist(QEMU_DEVICES_3)
  {
    NumberedShape("net", 8);
    NumberedShape("numa", 2);
    NumberedShape("parallel", 2);
    NumberedShape("usb", 4);
    NumberedShape("virtio", 16);
  }

  lemma QemuDevices2()
    ensures GoodWhitelist(QEMU_DEVICES_2)
  {
    NumberedShape("rng", 1);
    NumberedShape("sata", 6);
    NumberedShape("scsi", 31);
  }

  lemma QemuDevices4()
    ensures GoodWhitelist(QEMU_DEVICES_4)
  {
    NumberedShape("serial", 4);
    NumberedShape("tpmstate", 1);
    NumberedShape("unused", 8);
  }

  lemma LxcDevices()
    ensures GoodWhitelist(LXC_DEVICES)
  {
    NumberedShape("mp", 8);
    NumberedShape("net", 8);
    NumberedShape("unused", 4);
  }

  lemma WhitelistIsGood(kind: Kind)
    ensures GoodWhitelist(Whitelist(kind))
  {
    Words1();
    Words2();
    Words3();
    Words4();
    Words5();
    Words6();
    Words7();
    Words8();
    Words9();
    LxcWords1();
    LxcWords2();
    LxcWords3();
    QemuDevices1();
    QemuDevices2();
    QemuDevices3();
    QemuDevices4();
    LxcDevices();
  }

  // ------------------------------------------------------- one printed line

  /** A line with a key in front is cut at the first colon. */
  lemma CutAtKey(st: State, k: string, rest: string, whitelist: set<string>)
    requires KeyShape(k) && !st.skipping
    ensures LineStep(st, k + (":" + rest), whitelist) == StoreStep(st, k, Strip(rest), whitelist)
  {
    var line := k + (":" + rest);
    KeyCharIsPlain(k[0]);
    assert line[0] == k[0];
    ColonAfterKey(k, rest);
    assert line[..|k|] == k && line[|k| + 1..] == rest;
    KeyIsTrimmed(k);
    LowerOfKey(k);
  }

  lemma ReadKeyLine(st: State, k: string, v: string, whitelist: set<string>)
    requires KeyShape(k) && Allowed(whitelist, k) && !st.skipping
    requires Safe(Strip(v)) && |Strip(v)| <= MAX_VALUE_LEN
    ensures LineStep(st, RStrip(k + ": " + v), whitelist) == Next(st.(keys := st.keys[k := Strip(v)]))
  {
    RStripColon(k, v);
    CutAtKey(st, k, RStrip(" " + v), whitelist);
    StripRStrip(" " + v);
    StripLeadingSpace(v);
    StoreAllowed(st, k, Strip(v), whitelist);
  }

  lemma StoreAllowed(st: State, k: string, v: string, whitelist: set<string>)
    requires Allowed(whitelist, k) && Safe(v) && |v| <= MAX_VALUE_LEN
    ensures StoreStep(st, k, v, whitelist) == Next(st.(keys := st.keys[k := v]))
  {
  }

  lemma RStripColon(k: string, v: string)
    ensures RStrip(k + ": " + v) == k + (":" + RStrip(" " + v))
  {
    var a := k + ":";
    assert k + ": " + v == a + (" " + v);
    assert a[|a| - 1] == ':';
    RStripAppend(a, " " + v);
    Assoc(k, ":", RStrip(" " + v));
  }

  lemma ReadCommentLine(st: State, x: string, whitelist: set<string>)
    requires !st.skipping && |st.comments| < MAX_DESCRIPTION_LINES && |Strip(x)| <= MAX_DESCRIPTION_CHARS
    ensures LineStep(st, RStrip(CommentLine(x)), whitelist) == Next(st.(comments := st.comments + [Strip(x)]))
  {
    var t := if Strip(x) != "" then " " + x else "";
    assert CommentLine(x) == "#" + t;
    RStripAppend("#", t);
    var line := "#" + RStrip(t);
    assert line[1..] == RStrip(t);
    StripRStrip(t);
    StripLeadingSpace(x);
    assert Strip("") == "";
  }

  // ---------------------------------------------------------- all printed lines

  lemma RunNext(step: (State, string) -> Step, st: State, next: State, lines: seq<string>)
    requires lines != [] && step(st, lines[0]) == Next(next)
    ensures Run(step, st, lines) == Run(step, next, lines[1..])
  {
  }

  lemma EachCons(f: string -> string, lines: seq<string>, more: seq<string>)
    requires lines != []
    ensures Each(f, lines) + more == [f(lines[0])] + (Each(f, lines[1..]) + more)
  {
  }

  lemma StoreCons(m: map<string, string>, order: seq<string>, value: string -> string)
    requires order != []
    ensures m[order[0] := value(order[0])] + (map x | x in order[1..] :: value(x))
         == m + (map x | x in order :: value(x))
  {
    ConsAll(order);
  }

  lemma CommentsCons(comments: seq<string>, lines: seq<string>, value: string -> string)
    requires lines != []
    ensures comments + [value(lines[0])] + Each(value, lines[1..]) == comments + Each(value, lines)
  {
  }

  /** A run over lines of which each one stores one key. */
  lemma {:induction false} RunKeys(step: (State, string) -> Step, text: string -> string, value: string -> string,
                                   st: State, order: seq<string>)
    requires forall t: State, k {:trigger step(t, text(k))} :: k in order && !t.skipping ==>
      step(t, text(k)) == Next(t.(keys := t.keys[k := value(k)]))
    requires !st.skipping
    ensures Run(step, st, Each(text, order)) == Finished(st.(keys := st.keys + map k | k in order :: value(k)))
    decreases order
  {
    if order == [] {
      assert st.keys + (map k | k in order :: value(k)) == st.keys;
    } else {
      ConsAll(order);
      var k, tail := order[0], order[1..];
      var next := st.(keys := st.keys[k := value(k)]);
      assert step(st, text(k)) == Next(next);
      RunKeys(step, text, value, next, tail);
      EachCons(text, order, []);
      assert Each(text, order) + [] == Each(text, order) && Each(text, tail) + [] == Each(text, tail);
      RunNext(step, st, next, [text(k)] + Each(text, tail));
      StoreCons(st.keys, order, value);
    }
  }

  /** A run over lines of which each one adds one comment. */
  lemma {:induction false} RunComments(step: (State, string) -> Step, text: string -> string, value: string -> string,
                                       st: State, lines: seq<string>, more: seq<string>)
    requires forall t: State, x {:trigger step(t, text(x))} ::
      x in lines && !t.skipping && |t.comments| < MAX_DESCRIPTION_LINES ==>
      step(t, text(x)) == Next(t.(comments := t.comments + [value(x)]))
    requires !st.skipping && |st.comments| + |lines| <= MAX_DESCRIPTION_LINES
    ensures Run(step, st, Each(text, lines) + more)
         == Run(step, st.(comments := st.comments + Each(value, lines)), more)
    decreases lines
  {
    if lines == [] {
      assert Each(text, lines) + more == more;
      assert st.comments + Each(value, lines) == st.comments;
    } else {
      ConsAll(lines);
      var x, tail := lines[0], lines[1..];
      var next := st.(comments := st.comments + [value(x)]);
      assert step(st, text(x)) == Next(next);
      RunComments(step, text, value, next, tail, more);
      EachCons(text, lines, more);
      RunNext(step, st, next, [text(x)] + (Each(text, tail) + more));
      CommentsCons(st.comments, lines, value);
    }
  }

  // ------------------------------------------------------ what reading gives

  function StripOf(keys: map<string, string>): string -> string
  {
    k => if k in keys then Strip(keys[k]) else ""
  }

  function StripAll(keys: map<string, string>): map<string, string>
  {
    map k | k in keys :: Strip(keys[k])
  }

  /** Values the parser takes as they are, apart from trimming. */
  predicate Storable(whitelist: set<string>, keys: map<string, string>)
  {
    forall k <- keys ::
      Allowed(whitelist, k) && BreakFree(keys[k]) && Safe(Strip(keys[k])) && |Strip(keys[k])| <= MAX_VALUE_LEN
  }

  /** A description none of whose lines is lost or cut. */
  predicate Readable(description: string)
  {
    var lines := SplitLines(description);
    |lines| <= MAX_DESCRIPTION_LINES && forall i :: 0 <= i < |lines| ==> |Strip(lines[i])| <= MAX_DESCRIPTION_CHARS
  }

  lemma BodyReadsKeys(whitelist: set<string>, keys: map<string, string>)
    requires GoodWhitelist(whitelist) && Storable(whitelist, keys)
    ensures forall t: State, k {:trigger Body(whitelist)(t, KeyLine(keys)(k))} :: k in keys && !t.skipping ==>
      Body(whitelist)(t, KeyLine(keys)(k)) == Next(t.(keys := t.keys[k := StripOf(keys)(k)]))
  {
    forall t: State, k | k in keys && !t.skipping
      ensures Body(whitelist)(t, KeyLine(keys)(k)) == Next(t.(keys := t.keys[k := StripOf(keys)(k)]))
    {
      ReadKeyLine(t, k, keys[k], whitelist);
    }
  }

  lemma BodyReadsComments(whitelist: set<string>, lines: seq<string>)
    requires forall i :: 0 <= i < |lines| ==> |Strip(lines[i])| <= MAX_DESCRIPTION_CHARS
    ensures forall t: State, x {:trigger Body(whitelist)(t, CommentLine(x))} ::
      x in lines && !t.skipping && |t.comments| < MAX_DESCRIPTION_LINES ==>
      Body(whitelist)(t, CommentLine(x)) == Next(t.(comments := t.comments + [Strip(x)]))
  {
    forall t: State, x | x in lines && !t.skipping && |t.comments| < MAX_DESCRIPTION_LINES
      ensures Body(whitelist)(t, CommentLine(x)) == Next(t.(comments := t.comments + [Strip(x)]))
    {
      var i :| 0 <= i < |lines| && lines[i] == x;
      ReadCommentLine(t, x, whitelist);
    }
  }

  lemma AllStripped(keys: map<string, string>, order: seq<string>)
    requires forall k :: k in order <==> k in keys
    ensures map[] + (map k | k in order :: StripOf(keys)(k)) == StripAll(keys)
  {
  }

  lemma RunKeyLines(whitelist: set<string>, keys: map<string, string>, comments: seq<string>)
    requires GoodWhitelist(whitelist) && Storable(whitelist, keys)
    ensures Run(Body(whitelist), State(false, comments, map[], []), Each(KeyLine(keys), Sorted(keys.Keys)))
         == Finished(State(false, comments, StripAll(keys), []))
  {
    var order := Sorted(keys.Keys);
    SortedIsKeys(keys.Keys);
    BodyReadsKeys(whitelist, keys);
    RunKeys(Body(whitelist), KeyLine(keys), StripOf(keys), State(false, comments, map[], []), order);
    AllStripped(keys, order);
  }

  lemma SkipBlank(whitelist: set<string>, st: State, more: seq<string>)
    ensures Run(Body(whitelist), st, [""] + more) == Run(Body(whitelist), st, more)
  {
    assert RStrip("") == "";
    RunNext(Body(whitelist), st, st, [""] + more);
  }

  lemma RunDescription(whitelist: set<string>, lines: seq<string>, keyLines: seq<string>)
    requires |lines| <= MAX_DESCRIPTION_LINES
    requires forall i :: 0 <= i < |lines| ==> |Strip(lines[i])| <= MAX_DESCRIPTION_CHARS
    ensures Run(Body(whitelist), START, Each(CommentLine, lines) + ([""] + keyLines))
         == Run(Body(whitelist), State(false, Each(Strip, lines), map[], []), keyLines)
  {
    var st := State(false, Each(Strip, lines), map[], []);
    BodyReadsComments(whitelist, lines);
    RunComments(Body(whitelist), CommentLine, Strip, START, lines, [""] + keyLines);
    assert START.comments + Each(Strip, lines) == Each(Strip, lines);
    SkipBlank(whitelist, st, keyLines);
  }

  lemma ConfLinesShape(keys: map<string, string>, description: string)
    ensures var keyLines := Each(KeyLine(keys), Sorted(keys.Keys));
      ConfLines(keys, description)
      == if description == "" then keyLines else Each(CommentLine, SplitLines(description)) + ([""] + keyLines)
  {
  }

  lemma RunConfLines(keys: map<string, string>, description: string, whitelist: set<string>)
    requires GoodWhitelist(whitelist) && Storable(whitelist, keys) && Readable(description)
    ensures Run(Body(whitelist), START, ConfLines(keys, description))
         == Finished(State(false, Each(Strip, SplitLines(description)), StripAll(keys), []))
  {
    var lines := SplitLines(description);
    ConfLinesShape(keys, description);
    RunKeyLines(whitelist, keys, Each(Strip, lines));
    if description != "" {
      RunDescription(whitelist, lines, Each(KeyLine(keys), Sorted(keys.Keys)));
    }
  }

  lemma CommentLineBreakFree(x: string)
    requires BreakFree(x)
    ensures BreakFree(CommentLine(x))
  {
  }

  lemma KeyLineBreakFree(whitelist: set<string>, keys: map<string, string>, k: string)
    requires GoodWhitelist(whitelist) && Storable(whitelist, keys) && k in keys
    ensures BreakFree(KeyLine(keys)(k))
  {
    KeyIsTrimmed(k);
  }

  /** The printed text splits into the lines that were printed. */
  lemma RenderSplits(keys: map<string, string>, description: string, whitelist: set<string>)
    requires GoodWhitelist(whitelist) && Storable(whitelist, keys)
    ensures SplitLines(Render(keys, description)) == ConfLines(keys, description)
  {
    var order, lines := Sorted(keys.Keys), SplitLines(description);
    SortedIsKeys(keys.Keys);
    SplitLinesBreakFree(description);
    forall l | l in Each(KeyLine(keys), order) ensures BreakFree(l) {
      var i :| 0 <= i < |order| && l == KeyLine(keys)(order[i]);
      assert order[i] in order;
      KeyLineBreakFree(whitelist, keys, order[i]);
    }
    forall l | l in Each(CommentLine, lines) ensures BreakFree(l) {
      var i :| 0 <= i < |lines| && l == CommentLine(lines[i]);
      assert lines[i] in lines;
      CommentLineBreakFree(lines[i]);
    }
    SplitTerminated(ConfLines(keys, description));
  }

  /** Reading a printed configuration: the values and comment lines come back trimmed. */
  lemma ReadRendered(keys: map<string, string>, description: string, kind: Kind, expected: Option<string>)
    requires Storable(Whitelist(kind), keys) && Readable(description)
    ensures Parse(Render(keys, description), kind, expected)
         == Ok(ParsedConf(StripAll(keys), Join("\n", Each(Strip, SplitLines(description))),
                          NameWarnings(StripAll(keys), kind, expected)))
  {
    var whitelist := Whitelist(kind);
    WhitelistIsGood(kind);
    RunConfLines(keys, description, whitelist);
    RenderSplits(keys, description, whitelist);
    NoWarnings(NameWarnings(StripAll(keys), kind, expected));
  }

  lemma NoWarnings(ws: seq<Warning>)
    ensures [] + ws == ws
  {
  }

  // -------------------------------------------------- what the parser can output

  predicate ProducedKeys(whitelist: set<string>, keys: map<string, string>)
  {
    forall k <- keys :: Allowed(whitelist, k) && BreakFree(keys[k]) && Safe(keys[k]) && |keys[k]| <= MAX_VALUE_LEN
  }

  predicate ProducedComments(comments: seq<string>)
  {
    |comments| <= MAX_DESCRIPTION_LINES
    && forall i :: 0 <= i < |comments| ==> BreakFree(comments[i]) && |comments[i]| <= MAX_DESCRIPTION_CHARS
  }

  predicate NothingCut(warnings: seq<Warning>)
  {
    forall w <- warnings :: !w.ValueTooLong?
  }

  predicate AllTrimmed(keys: map<string, string>)
  {
    forall k <- keys :: Trimmed(keys[k])
  }

  predicate Produced(whitelist: set<string>, st: State)
  {
    ProducedKeys(whitelist, st.keys) && ProducedComments(st.comments)
    && (NothingCut(st.warnings) ==> AllTrimmed(st.keys))
  }

  lemma CutPart(s: string, n: nat)
    ensures |Cut(s, n)| <= n && Cut(s, n) == s[..|Cut(s, n)|]
    ensures |s| <= n ==> Cut(s, n) == s
  {
  }

  lemma CutBreakFree(s: string, n: nat)
    requires BreakFree(s)
    ensures BreakFree(Cut(s, n)) && |Cut(s, n)| <= n
  {
    CutPart(s, n);
  }

  lemma StoreKeeps(whitelist: set<string>, st: State, key: string, value: string)
    requires Produced(whitelist, st) && BreakFree(value) && Trimmed(value)
    ensures var step := StoreStep(st, key, value, whitelist); step.Next? ==> Produced(whitelist, step.state)
  {
    CutBreakFree(value, MAX_VALUE_LEN);
    CutPart(value, MAX_VALUE_LEN);
    var step := StoreStep(st, key, value, whitelist);
    if step.Next? {
      assert st.warnings <= step.state.warnings;
      StoreKeepsKeys(whitelist, st, key, value);
      assert forall w <- st.warnings :: w in step.state.warnings;
      assert |value| > MAX_VALUE_LEN ==> ValueTooLong(key) in step.state.warnings;
    }
  }

  lemma StoreKeepsKeys(whitelist: set<string>, st: State, key: string, value: string)
    requires ProducedKeys(whitelist, st.keys)
    requires BreakFree(Cut(value, MAX_VALUE_LEN)) && |Cut(value, MAX_VALUE_LEN)| <= MAX_VALUE_LEN
    ensures var step := StoreStep(st, key, value, whitelist); step.Next? ==> ProducedKeys(whitelist, step.state.keys)
  {
  }

  lemma CommentKeeps(whitelist: set<string>, st: State, comment: string)
    requires Produced(whitelist, st) && BreakFree(comment)
    ensures Produced(whitelist, CommentStep(st, comment))
  {
    CutBreakFree(comment, MAX_DESCRIPTION_CHARS);
  }

  lemma StripBreakFreePart(line: string, i: nat, j: nat)
    requires BreakFree(line) && i <= j <= |line|
    ensures BreakFree(Strip(line[i..j])) && Trimmed(Strip(line[i..j]))
  {
    StripKeepsBreakFree(line[i..j]);
    StripPart(line[i..j]);
  }

  lemma KeyStepKeeps(whitelist: set<string>, st: State, line: string)
    requires Produced(whitelist, st) && BreakFree(line)
    ensures var step := KeyStep(st, line, whitelist); step.Next? ==> Produced(whitelist, step.state)
  {
    var p := ColonPos(line);
    if p < |line| {
      StripBreakFreePart(line, p + 1, |line|);
      assert line[p + 1..|line|] == line[p + 1..];
      StoreKeeps(whitelist, st, Lower(Strip(line[..p])), Strip(line[p + 1..]));
    } else {
      var warned := st.(warnings := st.warnings + [UnparseableLine(Cut(line, 40))]);
      assert forall w <- st.warnings :: w in warned.warnings;
      assert Produced(whitelist, warned);
    }
  }

  lemma LineStepKeeps(whitelist: set<string>, st: State, line: string)
    requires Produced(whitelist, st) && BreakFree(line)
    ensures var step := LineStep(st, line, whitelist); step.Next? ==> Produced(whitelist, step.state)
  {
    KeyStepKeeps(whitelist, st, line);
    if line != "" {
      StripBreakFreePart(line, 1, |line|);
      assert line[1..|line|] == line[1..];
      CommentKeeps(whitelist, st, Strip(line[1..]));
    }
  }

  lemma RStripBreakFree(s: string)
    requires BreakFree(s)
    ensures BreakFree(RStrip(s))
  {
    RStripPart(s);
  }

  lemma {:induction false} RunKeeps(whitelist: set<string>, st: State, lines: seq<string>)
    requires Produced(whitelist, st) && forall l <- lines :: BreakFree(l)
    ensures var loop := Run(Body(whitelist), st, lines); loop.Finished? ==> Produced(whitelist, loop.state)
    decreases lines
  {
    if lines != [] {
      ConsAll(lines);
      RStripBreakFree(lines[0]);
      LineStepKeeps(whitelist, st, RStrip(lines[0]));
      var step := Body(whitelist)(st, lines[0]);
      if step.Next? {
        RunKeeps(whitelist, step.state, lines[1..]);
      }
    }
  }

  /** What holds of every accepted upload. */
  lemma ParseOutput(text: string, kind: Kind, expected: Option<string>)
    ensures match Run(Body(Whitelist(kind)), START, SplitLines(text))
      case Raised(key) => Parse(text, kind, expected) == Unsafe(key)
      case Finished(st) =>
        Produced(Whitelist(kind), st) && Parse(text, kind, expected) == Ok(Finish(st, kind, expected))
  {
    SplitLinesBreakFree(text);
    RunKeeps(Whitelist(kind), START, SplitLines(text));
  }

  // --------------------------------------------------- exactly what round-trips

  /** The configurations the format can carry: whitelisted keys with trimmed
      one-line values, and at most 100 trimmed lines of at most 80 characters of
      which the last one is not empty. */
  predicate WellFormed(kind: Kind, keys: map<string, string>, description: string)
  {
    ProducedKeys(Whitelist(kind), keys) && AllTrimmed(keys) && SettledDescription(description)
  }

  predicate SettledDescription(description: string)
  {
    var lines := SplitLines(description);
    Join("\n", lines) == description && |lines| <= MAX_DESCRIPTION_LINES
    && forall i :: 0 <= i < |lines| ==> Trimmed(lines[i]) && |lines[i]| <= MAX_DESCRIPTION_CHARS
  }

  lemma StripAllFixed(keys: map<string, string>)
    ensures StripAll(keys) == keys <==> AllTrimmed(keys)
  {
    forall k | k in keys ensures Strip(keys[k]) == keys[k] <==> Trimmed(keys[k]) { TrimmedIff(keys[k]); }
    if StripAll(keys) == keys {
      forall k | k in keys ensures Trimmed(keys[k]) { assert StripAll(keys)[k] == keys[k]; }
    }
  }

  lemma ProducedIsStorable(whitelist: set<string>, keys: map<string, string>)
    requires ProducedKeys(whitelist, keys)
    ensures Storable(whitelist, keys)
  {
    forall k | k in keys ensures Safe(Strip(keys[k])) && |Strip(keys[k])| <= MAX_VALUE_LEN {
      StripPart(keys[k]);
    }
  }

  lemma StripEachFixed(lines: seq<string>)
    ensures Each(Strip, lines) == lines <==> forall i :: 0 <= i < |lines| ==> Trimmed(lines[i])
  {
    forall i | 0 <= i < |lines| ensures Strip(lines[i]) == lines[i] <==> Trimmed(lines[i]) { TrimmedIff(lines[i]); }
  }

  lemma SettledIsFixed(description: string)
    requires SettledDescription(description)
    ensures Readable(description) && Join("\n", Each(Strip, SplitLines(description))) == description
  {
    var lines := SplitLines(description);
    StripEachFixed(lines);
    forall i | 0 <= i < |lines| ensures |Strip(lines[i])| <= MAX_DESCRIPTION_CHARS { TrimmedIff(lines[i]); }
  }

  lemma WellFormedReadsBack(keys: map<string, string>, description: string, kind: Kind, expected: Option<string>)
    requires WellFormed(kind, keys, description)
    ensures Parse(Render(keys, description), kind, expected)
         == Ok(ParsedConf(keys, description, NameWarnings(keys, kind, expected)))
  {
    ProducedIsStorable(Whitelist(kind), keys);
    StripAllFixed(keys);
    SettledIsFixed(description);
    ReadRendered(keys, description, kind, expected);
  }

  /** The lines of a description that survived printing and parsing. */
  lemma DescriptionSurvived(description: string, comments: seq<string>)
    requires ProducedComments(comments) && Join("\n", comments) == description
    ensures Readable(description)
    ensures Join("\n", Each(Strip, SplitLines(description))) == description ==> SettledDescription(description)
  {
    var lines := SplitLines(description);
    forall c | c in comments ensures BreakFree(c) { }
    SplitJoined(comments);
    forall i | 0 <= i < |lines| ensures |Strip(lines[i])| <= |lines[i]| <= MAX_DESCRIPTION_CHARS {
      assert lines[i] == comments[i];
      StripPart(lines[i]);
    }
    var stripped := Each(Strip, lines);
    if Join("\n", stripped) == description {
      SplitLinesBreakFree(description);
      forall c | c in stripped ensures BreakFree(c) {
        var i :| 0 <= i < |lines| && c == Strip(lines[i]);
        assert lines[i] in lines;
        StripKeepsBreakFree(lines[i]);
      }
      SplitJoined(stripped);
      assert stripped == lines;
      StripEachFixed(lines);
    }
  }

  /** Printing and parsing gives the same keys and description, without a
      warning from the format, exactly for well-formed configurations. */
  lemma RoundTripIff(keys: map<string, string>, description: string, kind: Kind, expected: Option<string>)
    ensures Parse(Render(keys, description), kind, expected)
         == Ok(ParsedConf(keys, description, NameWarnings(keys, kind, expected)))
       <==> WellFormed(kind, keys, description)
  {
    var text, conf := Render(keys, description), ParsedConf(keys, description, NameWarnings(keys, kind, expected));
    if WellFormed(kind, keys, description) {
      WellFormedReadsBack(keys, description, kind, expected);
    } else if Parse(text, kind, expected) == Ok(conf) {
      ParseOutput(text, kind, expected);
      var st := Run(Body(Whitelist(kind)), START, SplitLines(text)).state;
      assert st.keys == keys && Join("\n", st.comments) == description;
      DescriptionSurvived(description, st.comments);
      ProducedIsStorable(Whitelist(kind), keys);
      ReadRendered(keys, description, kind, expected);
      StripAllFixed(keys);
      assert false;
    }
  }

  /** Re-parsing the rendering of an accepted upload changes nothing exactly when
      no cut left a value ending in a space and the description is settled. */
  lemma FixedPointIff(text: string, kind: Kind, expected: Option<string>, conf: ParsedConf)
    requires Parse(text, kind, expected) == Ok(conf)
    ensures Parse(Render(conf.keys, conf.description), kind, expected)
         == Ok(ParsedConf(conf.keys, conf.description, NameWarnings(conf.keys, kind, expected)))
       <==> AllTrimmed(conf.keys) && SettledDescription(conf.description)
  {
    ParseOutput(text, kind, expected);
    RoundTripIff(conf.keys, conf.description, kind, expected);
  }

  lemma SettledJoin(comments: seq<string>)
    requires ProducedComments(comments) && (comments != [] ==> comments[|comments| - 1] != "")
    requires forall i :: 0 <= i < |comments| ==> Trimmed(comments[i])
    ensures SettledDescription(Join("\n", comments))
  {
    forall c | c in comments ensures BreakFree(c) { }
    SplitJoined(comments);
  }

  /** In terms of the upload: it is enough that no value was reported as too
      long, no comment was cut inside a space and the last one is not empty. */
  lemma FixedPoint(text: string, kind: Kind, expected: Option<string>, st: State)
    requires Run(Body(Whitelist(kind)), START, SplitLines(text)) == Finished(st)
    requires NothingCut(st.warnings) && forall i :: 0 <= i < |st.comments| ==> Trimmed(st.comments[i])
    requires st.comments != [] ==> st.comments[|st.comments| - 1] != ""
    ensures var conf := Finish(st, kind, expected);
      Parse(text, kind, expected) == Ok(conf)
      && Parse(Render(conf.keys, conf.description), kind, expected)
         == Ok(ParsedConf(conf.keys, conf.description, NameWarnings(conf.keys, kind, expected)))
  {
    ParseOutput(text, kind, expected);
    SettledJoin(st.comments);
    FixedPointIff(text, kind, expected, Finish(st, kind, expected));
  }
}
