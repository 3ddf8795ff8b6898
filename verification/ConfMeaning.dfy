/** What an uploaded configuration means, line by line and without the state of the
    loop that parses it. */
module ConfMeaning {
  import opened Options
  import opened Text
  import opened Conf

  // ------------------------------------------------------------------ single lines

  /** A line that opens a section, such as the pending changes or a snapshot. */
  predicate OpensSection(line: string)
  {
    RStrip(line) != "" && RStrip(line)[0] == '['
  }

  predicate IsComment(line: string)
  {
    RStrip(line) != "" && RStrip(line)[0] == '#'
  }

  /** A line with something before or after its first colon. */
  predicate IsPair(line: string)
  {
    !OpensSection(line) && !IsComment(line) && ColonPos(RStrip(line)) < |RStrip(line)|
  }

  function KeyOf(line: string): string
  {
    Lower(Strip(RStrip(line)[..ColonPos(RStrip(line))]))
  }

  function Upload(line: string): string
    requires IsPair(line)
  {
    Strip(RStrip(line)[ColonPos(RStrip(line)) + 1..])
  }

  /** A value is cut after 4096 characters. */
  function ValueOf(line: string): string
    requires IsPair(line)
  {
    if |Upload(line)| > 4096 then Upload(line)[..4096] else Upload(line)
  }

  /** The value holds a character that is not accepted. */
  predicate Refused(line: string)
  {
    IsPair(line) && !Safe(ValueOf(line))
  }

  /** The line gives the key a value. */
  predicate Gives(line: string, key: string, whitelist: set<string>)
  {
    IsPair(line) && KeyOf(line) == key && key in whitelist && key != "vmid" && key != "parent"
  }

  function CommentOf(line: string): string
    requires IsComment(line)
  {
    var text := Strip(RStrip(line)[1..]);
    if |text| > 80 then text[..80] else text
  }

  function LongHint(key: string, upload: string): seq<Warning>
  {
    if |upload| > 4096 then [ValueTooLong(key)] else []
  }

  function UnknownHint(key: string, whitelist: set<string>): seq<Warning>
  {
    if key in whitelist || key == "vmid" || key == "parent" then [] else [UnknownKey(key)]
  }

  /** The warnings of one line. */
  function Hints(line: string, whitelist: set<string>): seq<Warning>
  {
    if OpensSection(line) || IsComment(line) || RStrip(line) == "" then []
    else if !IsPair(line) then [UnparseableLine(if |RStrip(line)| > 40 then RStrip(line)[..40] else RStrip(line))]
    else LongHint(KeyOf(line), Upload(line)) + UnknownHint(KeyOf(line), whitelist)
  }

  /** What one line of the main part adds to the comments and keys. */
  function Comment1(line: string): seq<string>
  {
    if IsComment(line) then [CommentOf(line)] else []
  }

  function Key1(line: string, whitelist: set<string>): map<string, string>
  {
    if Gives(line, KeyOf(line), whitelist) then map[KeyOf(line) := ValueOf(line)] else map[]
  }

  // --------------------------------------------------------------------- all lines

  /** The lines before the first section. */
  function Main(lines: seq<string>): (main: seq<string>)
    ensures main <= lines && forall l <- main :: !OpensSection(l)
  {
    if lines == [] || OpensSection(lines[0]) then [] else [lines[0]] + Main(lines[1..])
  }

  function Comments(lines: seq<string>): seq<string>
  {
    if lines == [] then [] else Comment1(lines[0]) + Comments(lines[1..])
  }

  function AllHints(lines: seq<string>, whitelist: set<string>): seq<Warning>
  {
    if lines == [] then [] else Hints(lines[0], whitelist) + AllHints(lines[1..], whitelist)
  }

  function Keys(lines: seq<string>, whitelist: set<string>): map<string, string>
  {
    if lines == [] then map[] else Key1(lines[0], whitelist) + Keys(lines[1..], whitelist)
  }

  function FirstRefused(lines: seq<string>): (i: nat)
    ensures i <= |lines| && (i < |lines| ==> Refused(lines[i])) && forall j :: 0 <= j < i ==> !Refused(lines[j])
  {
    if lines == [] || Refused(lines[0]) then 0 else 1 + FirstRefused(lines[1..])
  }

  function Firsts(xs: seq<string>, n: nat): seq<string>
  {
    if |xs| > n then xs[..n] else xs
  }

  // ------------------------------------------------------------ the loop means this

  lemma LineMeans(st: State, line: string, whitelist: set<string>)
    requires !st.skipping && |st.comments| <= 100 && !OpensSection(line)
    ensures LineStep(st, RStrip(line), whitelist) ==
      if Refused(line) then Raise(KeyOf(line))
      else Next(State(false, Firsts(st.comments + Comment1(line), 100), st.keys + Key1(line, whitelist),
                      st.warnings + Hints(line, whitelist)))
  {
    if IsComment(line) {
      CommentMeans(st, line, whitelist);
    } else if IsPair(line) {
      PairMeans(st, line, whitelist);
    } else {
      OtherMeans(st, line, whitelist);
    }
  }

  lemma CommentStepMeans(st: State, text: string)
    requires |st.comments| <= 100
    ensures CommentStep(st, text)
         == st.(comments := Firsts(st.comments + [if |text| > 80 then text[..80] else text], 100))
  {
    var comments := st.comments + [if |text| > 80 then text[..80] else text];
    assert comments[..|st.comments|] == st.comments;
  }

  lemma CommentMeans(st: State, line: string, whitelist: set<string>)
    requires !st.skipping && |st.comments| <= 100 && IsComment(line)
    ensures LineStep(st, RStrip(line), whitelist)
         == Next(State(false, Firsts(st.comments + Comment1(line), 100), st.keys + Key1(line, whitelist),
                       st.warnings + Hints(line, whitelist)))
  {
    CommentStepMeans(st, Strip(RStrip(line)[1..]));
    AddsNothing(st);
    assert Comment1(line) == [CommentOf(line)] && Key1(line, whitelist) == map[] && Hints(line, whitelist) == [];
  }

  lemma AddsNothing(st: State)
    ensures st.comments + [] == st.comments && st.keys + map[] == st.keys && st.warnings + [] == st.warnings
  {
  }

  lemma OtherMeans(st: State, line: string, whitelist: set<string>)
    requires !st.skipping && |st.comments| <= 100 && !OpensSection(line) && !IsComment(line) && !IsPair(line)
    ensures LineStep(st, RStrip(line), whitelist)
         == Next(State(false, Firsts(st.comments + Comment1(line), 100), st.keys + Key1(line, whitelist),
                       st.warnings + Hints(line, whitelist)))
  {
    AddsNothing(st);
  }

  lemma PairMeans(st: State, line: string, whitelist: set<string>)
    requires !st.skipping && |st.comments| <= 100 && IsPair(line)
    ensures LineStep(st, RStrip(line), whitelist) ==
      if Refused(line) then Raise(KeyOf(line))
      else Next(State(false, Firsts(st.comments + Comment1(line), 100), st.keys + Key1(line, whitelist),
                      st.warnings + Hints(line, whitelist)))
  {
    AddsNothing(st);
    StoreMeans(st, KeyOf(line), Upload(line), whitelist);
    PairWarnings(line, whitelist);
    AssocWarnings(st.warnings, LongHint(KeyOf(line), Upload(line)), UnknownHint(KeyOf(line), whitelist));
    PairIsStored(st, line, whitelist);
    assert Comment1(line) == [];
  }

  lemma PairIsStored(st: State, line: string, whitelist: set<string>)
    requires !st.skipping && IsPair(line)
    ensures LineStep(st, RStrip(line), whitelist) == StoreStep(st, KeyOf(line), Upload(line), whitelist)
  {
  }

  lemma PairWarnings(line: string, whitelist: set<string>)
    requires IsPair(line)
    ensures Hints(line, whitelist) == LongHint(KeyOf(line), Upload(line)) + UnknownHint(KeyOf(line), whitelist)
  {
  }

  lemma AssocWarnings(a: seq<Warning>, b: seq<Warning>, c: seq<Warning>)
    ensures a + b + c == a + (b + c)
  {
  }

  lemma StoreMeans(st: State, key: string, upload: string, whitelist: set<string>)
    ensures var value := if |upload| > 4096 then upload[..4096] else upload;
      StoreStep(st, key, upload, whitelist) ==
      if !Safe(value) then Raise(key)
      else Next(st.(
        keys := st.keys + (if key in whitelist && key != "vmid" && key != "parent" then map[key := value] else map[]),
        warnings := st.warnings + LongHint(key, upload) + UnknownHint(key, whitelist)))
  {
    assert st.keys + map[] == st.keys;
    assert st.warnings + [] == st.warnings;
  }

  /** Inside a section nothing is read. */
  lemma {:induction false} SectionMeansNothing(st: State, lines: seq<string>, whitelist: set<string>)
    requires st.skipping
    ensures Run(Body(whitelist), st, lines) == Finished(st)
  {
    if lines != [] { SectionMeansNothing(st, lines[1..], whitelist); }
  }

  lemma FirstsTwice(a: seq<string>, b: seq<string>, c: seq<string>)
    ensures Firsts(Firsts(a + b, 100) + c, 100) == Firsts(a + (b + c), 100)
  {
  }

  /** What a loop result says, without the flag of the skipping state. */
  predicate Says(r: Loop, comments: seq<string>, keys: map<string, string>, warnings: seq<Warning>)
  {
    r.Finished? && r.state.comments == comments && r.state.keys == keys && r.state.warnings == warnings
  }

  predicate LoopSays(r: Loop, st: State, main: seq<string>, whitelist: set<string>)
  {
    if FirstRefused(main) < |main| then r == Raised(KeyOf(main[FirstRefused(main)]))
    else
      Says(r, Firsts(st.comments + Comments(main), 100), st.keys + Keys(main, whitelist),
           st.warnings + AllHints(main, whitelist))
  }

  /** The state after one more line of the main part. */
  function NextState(st: State, line: string, whitelist: set<string>): State
  {
    State(false, Firsts(st.comments + Comment1(line), 100), st.keys + Key1(line, whitelist),
          st.warnings + Hints(line, whitelist))
  }

  lemma ConsLine(line: string, main: seq<string>, whitelist: set<string>)
    ensures var all := [line] + main;
      Comments(all) == Comment1(line) + Comments(main)
      && Keys(all, whitelist) == Key1(line, whitelist) + Keys(main, whitelist)
      && AllHints(all, whitelist) == Hints(line, whitelist) + AllHints(main, whitelist)
  {
    var all := [line] + main;
    assert all[0] == line && all[1..] == main;
  }

  lemma ConsRefused(line: string, main: seq<string>)
    requires !Refused(line)
    ensures FirstRefused([line] + main) == 1 + FirstRefused(main)
  {
    var all := [line] + main;
    assert all[0] == line && all[1..] == main;
  }

  lemma OneMore(r: Loop, st: State, line: string, main: seq<string>, whitelist: set<string>)
    requires !Refused(line) && LoopSays(r, NextState(st, line, whitelist), main, whitelist)
    ensures LoopSays(r, st, [line] + main, whitelist)
  {
    ConsLine(line, main, whitelist);
    ConsRefused(line, main);
    FirstsTwice(st.comments, Comment1(line), Comments(main));
    AssocMap(st.keys, Key1(line, whitelist), Keys(main, whitelist));
    AssocWarnings(st.warnings, Hints(line, whitelist), AllHints(main, whitelist));
  }

  lemma RefusedFirst(line: string, main: seq<string>)
    requires Refused(line)
    ensures FirstRefused([line] + main) == 0
  {
  }

  lemma {:induction false} LoopMeans(st: State, lines: seq<string>, whitelist: set<string>)
    requires !st.skipping && |st.comments| <= 100
    ensures LoopSays(Run(Body(whitelist), st, lines), st, Main(lines), whitelist)
    decreases lines
  {
    AddsNothing(st);
    if lines == [] {
    } else if OpensSection(lines[0]) {
      SectionMeansNothing(st.(skipping := true), lines[1..], whitelist);
    } else {
      LineMeans(st, lines[0], whitelist);
      if Refused(lines[0]) {
        RefusedFirst(lines[0], Main(lines[1..]));
      } else {
        LoopMeans(NextState(st, lines[0], whitelist), lines[1..], whitelist);
        OneMore(Run(Body(whitelist), st, lines), st, lines[0], Main(lines[1..]), whitelist);
      }
    }
  }

  lemma AssocMap(a: map<string, string>, b: map<string, string>, c: map<string, string>)
    ensures a + b + c == a + (b + c)
  {
  }

  // ------------------------------------------------------------------ whole uploads

  /** The last line that gives a key a value. */
  predicate LastGiver(lines: seq<string>, i: nat, key: string, whitelist: set<string>)
  {
    i < |lines| && Gives(lines[i], key, whitelist)
    && forall j: nat :: i < j < |lines| ==> !Gives(lines[j], key, whitelist)
  }

  /** A key has the value of the last line that gives it one. */
  lemma {:induction false} LastValueCounts(lines: seq<string>, key: string, whitelist: set<string>)
    ensures key in Keys(lines, whitelist) <==> exists i: nat :: LastGiver(lines, i, key, whitelist)
    ensures forall i: nat :: LastGiver(lines, i, key, whitelist) ==> Keys(lines, whitelist)[key] == ValueOf(lines[i])
  {
    if lines != [] {
      var tail := lines[1..];
      LastValueCounts(tail, key, whitelist);
      forall i: nat | LastGiver(tail, i, key, whitelist) ensures LastGiver(lines, i + 1, key, whitelist) {
        assert lines[i + 1] == tail[i];
        forall j: nat | i + 1 < j < |lines| ensures !Gives(lines[j], key, whitelist) { assert lines[j] == tail[j - 1]; }
      }
      if key in Keys(tail, whitelist) {
        var i: nat :| LastGiver(tail, i, key, whitelist);
        assert LastGiver(lines, i + 1, key, whitelist);
      } else if Gives(lines[0], key, whitelist) {
        NoGiver(tail, key, whitelist);
        assert LastGiver(lines, 0, key, whitelist);
      }
      forall i: nat | LastGiver(lines, i, key, whitelist) && i > 0 ensures LastGiver(tail, i - 1, key, whitelist) {
        assert tail[i - 1] == lines[i];
      }
      forall i: nat | LastGiver(lines, i, key, whitelist)
        ensures key in Keys(lines, whitelist) && Keys(lines, whitelist)[key] == ValueOf(lines[i])
      {
        if i == 0 {
          forall j: nat | j < |tail| ensures !Gives(tail[j], key, whitelist) { assert tail[j] == lines[j + 1]; }
        } else {
          assert LastGiver(tail, i - 1, key, whitelist) && tail[i - 1] == lines[i];
        }
      }
    }
  }

  lemma {:induction false} NoGiver(lines: seq<string>, key: string, whitelist: set<string>)
    requires !exists i: nat :: LastGiver(lines, i, key, whitelist)
    ensures forall j: nat :: j < |lines| ==> !Gives(lines[j], key, whitelist)
    decreases |lines|
  {
    if lines != [] {
      var n := |lines| - 1;
      assert !LastGiver(lines, n, key, whitelist);
      forall i: nat | LastGiver(lines[..n], i, key, whitelist) ensures LastGiver(lines, i, key, whitelist) { }
      NoGiver(lines[..n], key, whitelist);
      forall j: nat | j < |lines| ensures !Gives(lines[j], key, whitelist) {
        if j < n { assert lines[j] == lines[..n][j]; }
      }
    }
  }

  /** The hint that the upload is named after another machine. */
  function OtherName(keys: map<string, string>, kind: Kind, expected: Option<string>): seq<Warning>
  {
    match (kind, expected)
    case (_, None) => []
    case (Qemu, Some(name)) =>
      if name != "" && "name" in keys && keys["name"] != name then [NameMismatch(keys["name"], name)] else []
    case (Lxc, Some(name)) =>
      if name != "" && "hostname" in keys && keys["hostname"] != name then [HostnameMismatch(keys["hostname"], name)]
      else []
  }

  /** A result that says what the lines of the main part say. */
  predicate Means(r: Result, main: seq<string>, whitelist: set<string>, kind: Kind, expected: Option<string>)
  {
    match r
    case Unsafe(key) => FirstRefused(main) < |main| && key == KeyOf(main[FirstRefused(main)])
    case Ok(conf) =>
      && FirstRefused(main) == |main|
      && conf.description == Join("\n", Firsts(Comments(main), 100))
      && conf.keys == Keys(main, whitelist)
      && conf.warnings == AllHints(main, whitelist) + OtherName(conf.keys, kind, expected)
  }

  lemma OtherNameHinted(keys: map<string, string>, kind: Kind, expected: Option<string>)
    ensures NameWarnings(keys, kind, expected) == OtherName(keys, kind, expected)
  {
  }

  lemma FromNothing(cs: seq<string>, ks: map<string, string>, ws: seq<Warning>)
    ensures START.comments + cs == cs && START.keys + ks == ks && START.warnings + ws == ws
  {
  }

  lemma FinishMeans(loop: Loop, main: seq<string>, whitelist: set<string>, kind: Kind, expected: Option<string>)
    requires LoopSays(loop, START, main, whitelist)
    ensures Means(if loop.Raised? then Unsafe(loop.key) else Ok(Finish(loop.state, kind, expected)), main, whitelist,
                  kind, expected)
  {
    FromNothing(Comments(main), Keys(main, whitelist), AllHints(main, whitelist));
    OtherNameHinted(Keys(main, whitelist), kind, expected);
  }

  /** An upload is refused for the first value with a forbidden character before the
      first section, and is otherwise what the lines before the first section say:
      the first hundred comments, the last value of each key, all hints in order. */
  lemma ParseMeans(text: string, kind: Kind, expected: Option<string>)
    ensures Means(Parse(text, kind, expected), Main(SplitLines(text)), Whitelist(kind), kind, expected)
  {
    var whitelist := Whitelist(kind);
    LoopMeans(START, SplitLines(text), whitelist);
    FinishMeans(Run(Body(whitelist), START, SplitLines(text)), Main(SplitLines(text)), whitelist, kind, expected);
  }

  lemma MeaningDecides(a: Result, b: Result, main: seq<string>, whitelist: set<string>, kind: Kind,
                       expected: Option<string>)
    requires Means(a, main, whitelist, kind, expected) && Means(b, main, whitelist, kind, expected)
    ensures a == b
  {
  }

  lemma {:induction false} MainEnds(front: seq<string>, header: string, rest: seq<string>)
    requires OpensSection(header)
    ensures Main(front + ([header] + rest)) == Main(front)
  {
    if front == [] {
      assert front + ([header] + rest) == [header] + rest;
    } else if !OpensSection(front[0]) {
      MainEnds(front[1..], header, rest);
      assert (front + ([header] + rest))[1..] == front[1..] + ([header] + rest);
    }
  }

  /** A section, whichever it is, and all that follows it are ignored: nothing of the
      pending changes or of a snapshot reaches the result, not even an error. */
  lemma SectionsIgnored(text: string, stem: string, header: string, rest: seq<string>, kind: Kind,
                        expected: Option<string>)
    requires SplitLines(text) == SplitLines(stem) + ([header] + rest) && OpensSection(header)
    ensures Parse(text, kind, expected) == Parse(stem, kind, expected)
  {
    MainEnds(SplitLines(stem), header, rest);
    ParseMeans(text, kind, expected);
    ParseMeans(stem, kind, expected);
    MeaningDecides(Parse(text, kind, expected), Parse(stem, kind, expected), Main(SplitLines(stem)), Whitelist(kind),
                   kind, expected);
  }
}
