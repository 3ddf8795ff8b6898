/** The Proxmox `.conf` format: the hardened line parser and the printer. */
module Conf {
  import opened Options
  import opened Text

  datatype Kind = Qemu | Lxc

  // -------------------------------------------------------------- whitelists

  /** `prefix0`, `prefix1`, ... below `n` */
  function Numbered(prefix: string, n: nat): set<string>
  {
    set i | 0 <= i < n :: prefix + NatText(i)
  }

  const QEMU_WORDS_1: set<string> := {
    "acpi", "affinity", "agent", "args", "autostart", "balloon", "bios", "boot", "bootdisk" }
  const QEMU_WORDS_2: set<string> := {
    "cdrom", "cicustom", "cipassword", "citype", "ciupgrade", "ciuser", "clone", "cores", "cpu" }
  const QEMU_WORDS_3: set<string> := {
    "cpulimit", "cpuunits", "description", "hookscript", "hotplug", "hugepages" }
  const QEMU_WORDS_4: set<string> := {
    "keyboard", "kvm", "localtime", "machine", "memory", "migrate_downtime" }
  const QEMU_WORDS_5: set<string> := {
    "nameserver", "numa", "onboot", "ostype", "parent", "protection", "reboot" }
  const QEMU_WORDS_6: set<string> := {
    "skiplock", "smbios1", "smp", "sockets", "spice_enhancements", "sshkeys" }
  const QEMU_WORDS_7: set<string> := {
    "startdate", "startup", "tablet", "tags", "tdf", "template", "type", "vcpus" }
  const QEMU_WORDS_8: set<string> := {
    "hvvendorid", "ivshmem", "migrate_speed", "searchdomain", "shares", "vga" }
  const QEMU_WORDS_9: set<string> := {
    "freeze", "lock", "name", "vmgenid", "vmid", "vmstatestorage", "watchdog" }

  const QEMU_DEVICES_1: set<string> :=
    Numbered("audio", 1) + Numbered("efidisk", 1) + Numbered("hostpci", 4)
    + Numbered("ide", 4) + Numbered("ipconfig", 4)
  const QEMU_DEVICES_2: set<string> :=
    Numbered("rng", 1) + Numbered("sata", 6) + Numbered("scsi", 31)
  const QEMU_DEVICES_3: set<string> :=
    Numbered("net", 8) + Numbered("numa", 2) + Numbered("parallel", 2) + Numbered("usb", 4) + Numbered("virtio", 16)
  const QEMU_DEVICES_4: set<string> := Numbered("serial", 4) + Numbered("tpmstate", 1) + Numbered("unused", 8)

  const LXC_WORDS_1: set<string> := {
    "arch", "cmode", "console", "cores", "cpulimit", "cpuunits", "debug", "description", "features", "hookscript" }
  const LXC_WORDS_2: set<string> := {
    "hostname", "lock", "memory", "mount", "nameserver", "onboot", "ostemplate", "ostype", "parent" }
  const LXC_WORDS_3: set<string> := {
    "protection", "rootfs", "searchdomain", "startup", "swap", "tags", "template", "tty", "unprivileged" }

  const LXC_DEVICES: set<string> := Numbered("mp", 8) + Numbered("net", 8) + Numbered("unused", 4)

  function Whitelist(kind: Kind): set<string>
  {
    match kind
    case Qemu =>
      QEMU_WORDS_1 + QEMU_WORDS_2 + QEMU_WORDS_3 + QEMU_WORDS_4
      + QEMU_WORDS_5 + QEMU_WORDS_6 + QEMU_WORDS_7 + QEMU_WORDS_8 + QEMU_WORDS_9
      + QEMU_DEVICES_1 + QEMU_DEVICES_2 + QEMU_DEVICES_3 + QEMU_DEVICES_4
    case Lxc => LXC_WORDS_1 + LXC_WORDS_2 + LXC_WORDS_3 + LXC_DEVICES
  }

  const IDENTITY_KEYS: set<string> := {"vmid", "parent"}

  /** The keys that reach the result. */
  predicate Allowed(whitelist: set<string>, key: string)
  {
    key in whitelist && key !in IDENTITY_KEYS
  }

  const MAX_DESCRIPTION_LINES: nat := 100
  const MAX_DESCRIPTION_CHARS: nat := 80
  const MAX_VALUE_LEN: nat := 4096

  // ------------------------------------------------------------------ parsing

  datatype Warning =
    | UnparseableLine(text: string)
    | ValueTooLong(key: string)
    | UnknownKey(key: string)
    | NameMismatch(uploaded: string, expected: string)
    | HostnameMismatch(uploaded: string, expected: string)

  datatype ParsedConf = ParsedConf(keys: map<string, string>, description: string, warnings: seq<Warning>)

  /** `Unsafe` is the exception for a forbidden control character. */
  datatype Result = Ok(conf: ParsedConf) | Unsafe(key: string)

  predicate Forbidden(c: char)
  {
    c as int == 0 || c as int == 8 || c as int == 12
  }

  predicate Safe(value: string)
  {
    forall i :: 0 <= i < |value| ==> !Forbidden(value[i])
  }

  /** One case-insensitive letter of the pattern `[snap`; the long s folds to `s`. */
  predicate Folds(c: char, lower: char)
  {
    c == lower || ('A' <= c <= 'Z' && c as int + 32 == lower as int) || (c == '\U{17F}' && lower == 's')
  }

  predicate SnapHeader(line: string)
  {
    |line| >= 5 && line[0] == '[' && Folds(line[1], 's') && Folds(line[2], 'n')
    && Folds(line[3], 'a') && Folds(line[4], 'p')
  }

  /** The position of the first colon, or the length. */
  function ColonPos(line: string): (n: nat)
    ensures n <= |line|
  {
    if line == "" || line[0] == ':' then 0 else 1 + ColonPos(line[1..])
  }

  function Cut(s: string, n: nat): string
  {
    if |s| > n then s[..n] else s
  }

  /** What the line loop carries. */
  datatype State = State(skipping: bool, comments: seq<string>, keys: map<string, string>, warnings: seq<Warning>)

  const START: State := State(false, [], map[], [])

  datatype Step = Stop | Raise(key: string) | Next(state: State)

  /** What one `key: value` pair does to the loop state. */
  function StoreStep(st: State, key: string, value: string, whitelist: set<string>): Step
  {
    var warned := if |value| > MAX_VALUE_LEN then st.(warnings := st.warnings + [ValueTooLong(key)]) else st;
    var kept := Cut(value, MAX_VALUE_LEN);
    if !Safe(kept) then Raise(key)
    else if key in IDENTITY_KEYS then Next(warned)
    else if key !in whitelist then Next(warned.(warnings := warned.warnings + [UnknownKey(key)]))
    else Next(warned.(keys := warned.keys[key := kept]))
  }

  function KeyStep(st: State, line: string, whitelist: set<string>): Step
  {
    var p := ColonPos(line);
    if p == |line| then Next(st.(warnings := st.warnings + [UnparseableLine(Cut(line, 40))]))
    else StoreStep(st, Lower(Strip(line[..p])), Strip(line[p + 1..]), whitelist)
  }

  function CommentStep(st: State, comment: string): State
  {
    if |st.comments| < MAX_DESCRIPTION_LINES then
      st.(comments := st.comments + [Cut(comment, MAX_DESCRIPTION_CHARS)])
    else st
  }

  /** What one line, already trimmed on the right, does to the loop state. */
  function LineStep(st: State, line: string, whitelist: set<string>): Step
  {
    if SnapHeader(line) then Stop
    else if line != "" && line[0] == '[' then Next(st.(skipping := true))
    else if st.skipping then Next(st)
    else if line != "" && line[0] == '#' then Next(CommentStep(st, Strip(line[1..])))
    else if line == "" then Next(st)
    else KeyStep(st, line, whitelist)
  }

  datatype Loop = Finished(state: State) | Raised(key: string)

  /** The line loop over any loop body. */
  function Run(step: (State, string) -> Step, st: State, lines: seq<string>): Loop
    decreases lines
  {
    if lines == [] then Finished(st)
    else
      match step(st, lines[0])
      case Stop => Finished(st)
      case Raise(key) => Raised(key)
      case Next(next) => Run(step, next, lines[1..])
  }

  /** The loop body of `parse_conf_text`. */
  function Body(whitelist: set<string>): (State, string) -> Step
  {
    (st: State, rawLine: string) => LineStep(st, RStrip(rawLine), whitelist)
  }

  /** The non-fatal name hints. */
  function NameWarnings(keys: map<string, string>, kind: Kind, expected: Option<string>): seq<Warning>
  {
    if expected.None? || expected.value == "" then []
    else if kind == Qemu && "name" in keys && keys["name"] != expected.value then
      [NameMismatch(keys["name"], expected.value)]
    else if kind == Lxc && "hostname" in keys && keys["hostname"] != expected.value then
      [HostnameMismatch(keys["hostname"], expected.value)]
    else []
  }

  function Finish(st: State, kind: Kind, expected: Option<string>): ParsedConf
  {
    ParsedConf(st.keys, Join("\n", st.comments), st.warnings + NameWarnings(st.keys, kind, expected))
  }

  function Parse(text: string, kind: Kind, expected: Option<string>): Result
  {
    match Run(Body(Whitelist(kind)), START, SplitLines(text))
    case Raised(key) => Unsafe(key)
    case Finished(st) => Ok(Finish(st, kind, expected))
  }

  lemma RunStep(step: (State, string) -> Step, st: State, lines: seq<string>, i: nat)
    requires i < |lines|
    ensures Run(step, st, lines[i..])
         == match step(st, lines[i])
            case Stop => Finished(st)
            case Raise(key) => Raised(key)
            case Next(next) => Run(step, next, lines[i + 1..])
  {
    assert lines[i..][0] == lines[i] && lines[i..][1..] == lines[i + 1..];
  }

  /** The rest of the loop body, for a line with a colon. */
  method StorePair(key: string, uploaded: string, whitelist: set<string>,
                   keys: map<string, string>, warnings: seq<Warning>, ghost skipping: bool, ghost comments: seq<string>)
    returns (unsafe: bool, keys': map<string, string>, warnings': seq<Warning>)
    ensures StoreStep(State(skipping, comments, keys, warnings), key, uploaded, whitelist)
         == if unsafe then Raise(key) else Next(State(skipping, comments, keys', warnings'))
  {
    unsafe, keys', warnings' := false, keys, warnings;
    var value := uploaded;
    if |value| > MAX_VALUE_LEN {
      warnings' := warnings + [ValueTooLong(key)];
      value := value[..MAX_VALUE_LEN];
    }
    if !Safe(value) {
      unsafe := true;
    } else if key in IDENTITY_KEYS {
    } else if key !in whitelist {
      warnings' := warnings' + [UnknownKey(key)];
    } else {
      keys' := keys[key := value];
    }
  }

  /** The line loop of `parse_conf_text`. */
  method ParseLines(lines: seq<string>, whitelist: set<string>) returns (r: Loop)
    ensures r == Run(Body(whitelist), START, lines)
  {
    var comments: seq<string>, keys: map<string, string>, warnings: seq<Warning>, skipping := [], map[], [], false;
    var i := 0;
    while i < |lines|
      invariant 0 <= i <= |lines|
      invariant Run(Body(whitelist), START, lines)
             == Run(Body(whitelist), State(skipping, comments, keys, warnings), lines[i..])
    {
      ghost var st := State(skipping, comments, keys, warnings);
      RunStep(Body(whitelist), st, lines, i);
      var line := RStrip(lines[i]);
      i := i + 1;
      if SnapHeader(line) {
        return Finished(State(skipping, comments, keys, warnings));
      }
      if line != "" && line[0] == '[' {
        skipping := true;
        continue;
      }
      if skipping {
        continue;
      }
      if line != "" && line[0] == '#' {
        var comment := Strip(line[1..]);
        if |comments| < MAX_DESCRIPTION_LINES {
          comments := comments + [Cut(comment, MAX_DESCRIPTION_CHARS)];
        }
        assert State(skipping, comments, keys, warnings) == CommentStep(st, comment);
        continue;
      }
      if line == "" {
        continue;
      }
      var p := ColonPos(line);
      if p == |line| {
        warnings := warnings + [UnparseableLine(Cut(line, 40))];
        continue;
      }
      var key, value, unsafe := Lower(Strip(line[..p])), Strip(line[p + 1..]), false;
      unsafe, keys, warnings := StorePair(key, value, whitelist, keys, warnings, skipping, comments);
      if unsafe {
        return Raised(key);
      }
    }
    return Finished(State(skipping, comments, keys, warnings));
  }

  /** `parse_conf_text` */
  method ParseConfText(text: string, kind: Kind, expected: Option<string>) returns (r: Result)
    ensures r == Parse(text, kind, expected)
  {
    var loop := ParseLines(SplitLines(text), Whitelist(kind));
    if loop.Raised? {
      return Unsafe(loop.key);
    }
    var st := loop.state;
    var hints := NameWarnings(st.keys, kind, expected);
    return Ok(ParsedConf(st.keys, Join("\n", st.comments), st.warnings + hints));
  }

  // ----------------------------------------------------------------- printing

  /** The order of Python strings: by code point, a prefix first. */
  predicate StrLeq(a: string, b: string)
  {
    a == "" || (b != "" && (a[0] < b[0] || (a[0] == b[0] && StrLeq(a[1..], b[1..]))))
  }

  lemma {:induction false} StrLeqTotal(a: string, b: string)
    ensures StrLeq(a, b) || StrLeq(b, a)
  {
    if a != "" && b != "" { StrLeqTotal(a[1..], b[1..]); }
  }

  lemma {:induction false} StrLeqTrans(a: string, b: string, c: string)
    requires StrLeq(a, b) && StrLeq(b, c)
    ensures StrLeq(a, c)
  {
    if a != "" && a[0] == b[0] == c[0] { StrLeqTrans(a[1..], b[1..], c[1..]); }
  }

  lemma {:induction false} StrLeqAntisym(a: string, b: string)
    requires StrLeq(a, b) && StrLeq(b, a)
    ensures a == b
  {
    if a != "" {
      StrLeqAntisym(a[1..], b[1..]);
      assert a == [a[0]] + a[1..] && b == [b[0]] + b[1..];
    }
  }

  predicate IsLeast(s: set<string>, k: string)
  {
    k in s && forall x <- s :: StrLeq(k, x)
  }

  lemma {:induction false} LeastExists(s: set<string>)
    requires s != {}
    ensures exists k :: IsLeast(s, k)
    decreases |s|
  {
    var x :| x in s;
    StrLeqTotal(x, x);
    if s == {x} {
      assert IsLeast(s, x);
    } else {
      var rest := s - {x};
      assert x !in rest && |rest| < |s| by { assert rest < s; SubsetSmaller(rest, s); }
      LeastExists(rest);
      var m :| IsLeast(rest, m);
      StrLeqTotal(x, m);
      var k := if StrLeq(x, m) then x else m;
      forall y | y in s ensures StrLeq(k, y) {
        if y != x && k == x { StrLeqTrans(x, m, y); }
      }
      assert IsLeast(s, k);
    }
  }

  lemma SubsetSmaller<T>(a: set<T>, b: set<T>)
    requires a < b
    ensures |a| < |b|
  {
    assert b == a + (b - a);
  }

  ghost function Least(s: set<string>): (k: string)
    requires s != {}
    ensures IsLeast(s, k)
  {
    LeastExists(s);
    var k :| IsLeast(s, k);
    k
  }

  /** `sorted(keys)` */
  ghost function Sorted(s: set<string>): seq<string>
    decreases |s|
  {
    if s == {} then []
    else
      SubsetSmaller(s - {Least(s)}, s);
      [Least(s)] + Sorted(s - {Least(s)})
  }

  method SortKeys(s: set<string>) returns (order: seq<string>)
    ensures order == Sorted(s)
  {
    order := [];
    var rest := s;
    while rest != {}
      invariant rest <= s
      invariant Sorted(s) == order + Sorted(rest)
      decreases |rest|
    {
      LeastExists(rest);
      var k :| k in rest && IsLeast(rest, k);
      StrLeqAntisym(k, Least(rest));
      SubsetSmaller(rest - {k}, rest);
      order := order + [k];
      rest := rest - {k};
    }
  }

  function CommentLine(line: string): string
  {
    if Strip(line) != "" then "# " + line else "#"
  }

  /** The line of a key. */
  function KeyLine(keys: map<string, string>): string -> string
  {
    k => k + ": " + (if k in keys then keys[k] else "")
  }

  lemma {:induction false} SortedIsKeys(s: set<string>)
    ensures forall k :: k in Sorted(s) <==> k in s
    decreases |s|
  {
    if s != {} {
      SubsetSmaller(s - {Least(s)}, s);
      SortedIsKeys(s - {Least(s)});
    }
  }

  /** The lines of the printed file. */
  ghost function ConfLines(keys: map<string, string>, description: string): seq<string>
  {
    (if description != "" then Each(CommentLine, SplitLines(description)) + [""] else [])
    + Each(KeyLine(keys), Sorted(keys.Keys))
  }

  ghost function Render(keys: map<string, string>, description: string): string
  {
    Terminate(ConfLines(keys, description), "")
  }

  method DescriptionLines(description: string) returns (lines: seq<string>)
    ensures lines == Each(CommentLine, SplitLines(description))
  {
    lines := [];
    var descLines := SplitLines(description);
    for i := 0 to |descLines|
      invariant lines == Each(CommentLine, descLines[..i])
    {
      lines := lines + [CommentLine(descLines[i])];
      EachSnoc(CommentLine, descLines[..i], descLines[i]);
      assert descLines[..i + 1] == descLines[..i] + [descLines[i]];
    }
    assert descLines[..|descLines|] == descLines;
  }

  method PairLines(order: seq<string>, keys: map<string, string>) returns (lines: seq<string>)
    requires forall i :: 0 <= i < |order| ==> order[i] in keys
    ensures lines == Each(KeyLine(keys), order)
  {
    lines := [];
    for i := 0 to |order|
      invariant lines == Each(KeyLine(keys), order[..i])
    {
      lines := lines + [order[i] + ": " + keys[order[i]]];
      EachSnoc(KeyLine(keys), order[..i], order[i]);
      assert order[..i + 1] == order[..i] + [order[i]];
    }
    assert order[..|order|] == order;
  }

  /** `render_conf` */
  method RenderConf(keys: map<string, string>, description: string) returns (text: string)
    ensures text == Render(keys, description)
  {
    var lines: seq<string> := [];
    if description != "" {
      lines := DescriptionLines(description);
      lines := lines + [""];
    }
    var order := SortKeys(keys.Keys);
    SortedIsKeys(keys.Keys);
    assert forall i :: 0 <= i < |order| ==> order[i] in order;
    var pairs := PairLines(order, keys);
    lines := lines + pairs;
    text := JoinLines(lines);
  }

  method JoinLines(lines: seq<string>) returns (text: string)
    ensures text == Terminate(lines, "")
  {
    text := Join("\n", lines) + (if lines != [] then "\n" else "");
    if lines != [] {
      JoinTerminate(lines, "");
      assert "\n" + "" == "\n";
    }
  }
}
