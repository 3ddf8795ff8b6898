/** Which user values of an editor model a generated file can hold, field by field. */
module UserStrings {
  import opened JsonString
  import opened Hcl
  import opened HclRoundTrip
  import opened Text
  import opened Transpile

  predicate SafeAll(d: Dialect, strings: seq<Str>)
  {
    strings == [] || (SafeString(d, strings[0]) && SafeAll(d, strings[1..]))
  }

  /** The name shown in the default description. */
  function ShownName(m: Model): Str
  {
    if m.name != [] then m.name else m.id
  }

  predicate SafeCommon(d: Dialect, m: Model)
  {
    var c := m.source.common;
    && SafeString(d, if c.description != [] then c.description else ShownName(m))
    && SafeString(d, c.scsiController) && SafeString(d, c.nicModel) && SafeString(d, c.bridge)
    && SafeString(d, c.sshUsername) && SafeString(d, c.sshTimeout)
  }

  predicate SafeProvisioner(d: Dialect, p: Provisioner)
  {
    match p
    case ShellScript(script, _) => SafeString(d, script)
    case ShellInline(lines) => SafeAll(d, lines)
    case FileCopy(source, _, destination) => SafeString(d, source) && SafeString(d, destination)
    case Ansible(playbook, _, extraVars) => SafeString(d, playbook) && SafePairs(d, extraVars)
  }

  predicate SafePairs(d: Dialect, vars: seq<(Str, Str)>)
  {
    vars == [] || (SafeString(d, vars[0].0) && SafeString(d, vars[0].1) && SafePairs(d, vars[1..]))
  }

  predicate SafeProvisioners(d: Dialect, ps: seq<Provisioner>)
  {
    ps == [] || (SafeProvisioner(d, ps[0]) && SafeProvisioners(d, ps[1..]))
  }

  /** The fields of one kind of source; the boot command is the default one if the user gave none. */
  predicate SafeLast(d: Dialect, m: Model)
  {
    if m.source.Clone? then SafeString(d, m.source.template)
    else SafeString(d, m.source.bootWait) && SafeAll(d, BootCommand(m))
  }

  /** Every value the user gave is a string that the dialect can read. */
  predicate SafeModel(d: Dialect, m: Model)
  {
    && SafeCommon(d, m)
    && SafeLast(d, m)
    && SafeString(d, m.id)
    && SafeProvisioners(d, m.provisioners)
  }

  // ------------------------------------------------------------- building blocks

  lemma SafeConcat(d: Dialect, a: Str, b: Str)
    ensures SafeString(d, a + b) <==> SafeString(d, a) && SafeString(d, b)
  {
    if d == Hcl2 {
      assert (forall c <- a + b :: SafeChar(c)) ==> (forall c <- a :: c in a + b) && forall c <- b :: c in a + b;
    }
  }

  /** A fixed text before or after a user string. */
  lemma SafeFixed(d: Dialect, t: string, s: Str)
    requires Plain(t)
    ensures SafeString(d, CodePoints(t))
    ensures SafeString(d, CodePoints(t) + s) <==> SafeString(d, s)
    ensures SafeString(d, s + CodePoints(t)) <==> SafeString(d, s)
  {
    PlainIsSafe(d, t);
    SafeConcat(d, CodePoints(t), s);
    SafeConcat(d, s, CodePoints(t));
  }

  lemma {:induction false} SafeBodyAppend(d: Dialect, a: seq<Item>, b: seq<Item>)
    ensures SafeBody(d, a + b) <==> SafeBody(d, a) && SafeBody(d, b)
  {
    if a == [] {
      assert a + b == b;
    } else {
      SafeBodyAppend(d, a[1..], b);
      assert (a + b)[0] == a[0] && (a + b)[1..] == a[1..] + b;
    }
  }

  lemma SafeOne(d: Dialect, it: Item)
    ensures SafeBody(d, [it]) <==> SafeItem(d, it)
  {
    assert [it][1..] == [];
  }

  lemma {:induction false} SafeLits(d: Dialect, lines: seq<Str>)
    ensures SafeElems(d, Lits(lines)) <==> SafeAll(d, lines)
  {
    if lines != [] {
      SafeLits(d, lines[1..]);
      assert Lits(lines)[1..] == Lits(lines[1..]);
    }
  }

  lemma {:induction false} NatTextIsPlain(n: nat)
    ensures Plain(NatText(n))
  {
    if n >= 10 { NatTextIsPlain(n / 10); }
  }

  lemma SafeNumber(d: Dialect, n: nat, t: string)
    requires Plain(t)
    ensures SafeString(d, CodePoints(IntText(n))) && SafeString(d, CodePoints(IntText(n) + t))
  {
    NatTextIsPlain(n);
    PlainIsSafe(d, IntText(n));
    PlainIsSafe(d, IntText(n) + t);
  }

  // ------------------------------------------------------------- the parts of a file

  lemma SafeEntryPair(d: Dialect, a: Entry, b: Entry)
    requires SafeString(d, a.key) && SafeValue(d, a.value) && SafeString(d, b.key) && SafeValue(d, b.value)
    ensures SafeEntries(d, [a, b])
  {
    assert [a, b][1..] == [b] && [b][1..] == [];
  }

  lemma SafeTextEntry(d: Dialect, key: string, text: string)
    requires Plain(key) && Plain(text)
    ensures var e := Entry(CodePoints(key), U(text)); SafeString(d, e.key) && SafeValue(d, e.value)
  {
    PlainIsSafe(d, key);
    PlainIsSafe(d, text);
  }

  lemma SafePluginBlock(d: Dialect, entries: seq<Entry>)
    requires SafeEntries(d, entries)
    ensures SafeItem(d, Block("packer", [], [Block("required_plugins", [], [Attr("proxmox", Map(entries))])]))
  {
    SafeOne(d, Attr("proxmox", Map(entries)));
    SafeOne(d, Block("required_plugins", [], [Attr("proxmox", Map(entries))]));
  }

  lemma SafePlugin(d: Dialect)
    ensures SafeItem(d, PluginItem())
  {
    SafeTextEntry(d, "version", "~> 1.2.3");
    SafeTextEntry(d, "source", "github.com/hashicorp/proxmox");
    var version := Entry(CodePoints("version"), U("~> 1.2.3"));
    var source := Entry(CodePoints("source"), U("github.com/hashicorp/proxmox"));
    SafeEntryPair(d, version, source);
    SafePluginBlock(d, [version, source]);
  }

  lemma SafeVariable(d: Dialect, name: string, default: seq<Value>, sensitive: bool)
    requires Plain(name) && (default != [] ==> SafeValue(d, default[0]))
    ensures SafeItem(d, VariableBlock(name, default, sensitive))
  {
    PlainIsSafe(d, name);
    assert [CodePoints(name)][1..] == [];
    SafeOne(d, Attr("type", Raw("string")));
    SafeOne(d, Attr("sensitive", Bool(true)));
    if default != [] { SafeOne(d, Attr("default", default[0])); }
    var first, mid := [Attr("type", Raw("string"))], if sensitive then [Attr("sensitive", Bool(true))] else [];
    SafeBodyAppend(d, first, mid);
    SafeBodyAppend(d, first + mid, if default == [] then [] else [Attr("default", default[0])]);
  }

  lemma SafeCons(d: Dialect, it: Item, its: seq<Item>)
    ensures SafeBody(d, [it] + its) <==> SafeItem(d, it) && SafeBody(d, its)
  {
    SafeOne(d, it);
    SafeBodyAppend(d, [it], its);
  }

  lemma {:induction false} AllSafe(d: Dialect, items: seq<Item>)
    requires forall i :: 0 <= i < |items| ==> SafeItem(d, items[i])
    ensures SafeBody(d, items)
  {
    if items != [] {
      assert forall i :: 0 <= i < |items[1..]| ==> items[1..][i] == items[i + 1];
      AllSafe(d, items[1..]);
    }
  }

  lemma SafePlainVariable(d: Dialect, name: string)
    requires Plain(name)
    ensures SafeItem(d, VariableBlock(name, [], false))
  {
    SafeVariable(d, name, [], false);
  }

  lemma SafeDefaultVariable(d: Dialect, name: string, value: string, sensitive: bool)
    requires Plain(name) && Plain(value)
    ensures SafeItem(d, VariableBlock(name, [U(value)], sensitive))
  {
    PlainIsSafe(d, value);
    SafeVariable(d, name, [U(value)], sensitive);
  }

  lemma TenSafe(d: Dialect, a: Item, b: Item, c: Item, e: Item, f: Item, g: Item, h: Item, i: Item, j: Item, k: Item)
    requires SafeItem(d, a) && SafeItem(d, b) && SafeItem(d, c) && SafeItem(d, e) && SafeItem(d, f)
    requires SafeItem(d, g) && SafeItem(d, h) && SafeItem(d, i) && SafeItem(d, j) && SafeItem(d, k)
    ensures SafeBody(d, [a, b, c, e, f, g, h, i, j, k])
  {
    AllSafe(d, [a, b, c, e, f, g, h, i, j, k]);
  }

  lemma ApiNames()
    ensures Plain("proxmox_api_url") && Plain("proxmox_api_token_id") && Plain("proxmox_api_token_secret")
    ensures Plain("proxmox_api_user") && Plain("proxmox_api_password")
  {
  }

  lemma MachineNames()
    ensures Plain("vm_id") && Plain("vm_name") && Plain("node") && Plain("storage_pool") && Plain("packer_http_ip")
    ensures Plain("iso_file") && Plain("local-lvm") && Plain("")
  {
  }

  lemma SafeVariables(d: Dialect, m: Model)
    ensures SafeBody(d, VariableBlocks(m))
  {
    ApiNames();
    MachineNames();
    SafePlainVariable(d, "proxmox_api_url");
    SafeDefaultVariable(d, "proxmox_api_token_id", "", false);
    SafeDefaultVariable(d, "proxmox_api_token_secret", "", true);
    SafeDefaultVariable(d, "proxmox_api_user", "", false);
    SafeDefaultVariable(d, "proxmox_api_password", "", true);
    SafePlainVariable(d, "vm_id");
    SafePlainVariable(d, "vm_name");
    SafePlainVariable(d, "node");
    SafeDefaultVariable(d, "storage_pool", "local-lvm", false);
    SafeDefaultVariable(d, "packer_http_ip", "", false);
    SafePlainVariable(d, "iso_file");
    var all := VariableBlocks(m);
    TenSafe(d, all[0], all[1], all[2], all[3], all[4], all[5], all[6], all[7], all[8], all[9]);
    var ten, last := all[..10], if m.source.Iso? then [VariableBlock("iso_file", [], false)] else [];
    assert ten == [all[0], all[1], all[2], all[3], all[4], all[5], all[6], all[7], all[8], all[9]];
    assert all == ten + last;
    SafeOne(d, VariableBlock("iso_file", [], false));
    SafeBodyAppend(d, ten, last);
  }

  lemma SafeConnection(d: Dialect)
    ensures SafeBody(d, ConnectionItems())
  {
    var items := ConnectionItems();
    FourItems(d, items[..4]);
    FourItems(d, items[4..]);
    SafeBodyAppend(d, items[..4], items[4..]);
    assert items == items[..4] + items[4..];
  }

  lemma SafeMachine(d: Dialect, m: Model)
    ensures var c := m.source.common;
      SafeBody(d, MachineItems(m))
      <==> SafeString(d, if c.description != [] then c.description else ShownName(m)) && SafeString(d, c.scsiController)
  {
    var items := MachineItems(m);
    SafeFixed(d, " (built by P3)", ShownName(m));
    SafeNumber(d, m.source.common.cores, "");
    SafeNumber(d, m.source.common.memoryMb, "");
    FiveItems(d, items);
  }

  lemma FiveItems(d: Dialect, items: seq<Item>)
    requires |items| == 5
    ensures SafeBody(d, items) <==>
      SafeItem(d, items[0]) && SafeItem(d, items[1]) && SafeItem(d, items[2]) && SafeItem(d, items[3])
      && SafeItem(d, items[4])
  {
    FourItems(d, items[1..]);
  }

  lemma FourItems(d: Dialect, items: seq<Item>)
    requires |items| == 4
    ensures SafeBody(d, items) <==>
      SafeItem(d, items[0]) && SafeItem(d, items[1]) && SafeItem(d, items[2]) && SafeItem(d, items[3])
  {
    ThreeItems(d, items[1..]);
  }

  lemma ThreeItems(d: Dialect, items: seq<Item>)
    requires |items| == 3
    ensures SafeBody(d, items) <==> SafeItem(d, items[0]) && SafeItem(d, items[1]) && SafeItem(d, items[2])
  {
    TwoItems(d, items[1..]);
  }

  lemma TwoItems(d: Dialect, items: seq<Item>)
    requires |items| == 2
    ensures SafeBody(d, items) <==> SafeItem(d, items[0]) && SafeItem(d, items[1])
  {
    var rest := items[1..];
    assert rest[1..] == [];
    assert SafeBody(d, rest) <==> SafeItem(d, rest[0]);
  }

  lemma SafeNetwork(d: Dialect, c: Common)
    ensures SafeItem(d, NetworkItem(c)) <==> SafeString(d, c.nicModel) && SafeString(d, c.bridge)
  {
    ThreeItems(d, NetworkItem(c).body);
  }

  lemma SafeLogin(d: Dialect, c: Common)
    ensures SafeBody(d, LoginItems(c)) <==> SafeString(d, c.sshUsername) && SafeString(d, c.sshTimeout)
  {
    FourItems(d, LoginItems(c));
  }

  lemma SafeThreeParts(d: Dialect, a: seq<Item>, it: Item, b: seq<Item>)
    ensures SafeBody(d, a + [it] + b) <==> SafeBody(d, a) && SafeItem(d, it) && SafeBody(d, b)
  {
    SafeOne(d, it);
    SafeBodyAppend(d, a, [it]);
    SafeBodyAppend(d, a + [it], b);
  }

  lemma SafeHardware(d: Dialect, m: Model)
    ensures SafeBody(d, HardwareItems(m)) <==> SafeCommon(d, m)
  {
    var c := m.source.common;
    SafeMachine(d, m);
    SafeNetwork(d, c);
    SafeLogin(d, c);
    SafeThreeParts(d, MachineItems(m), NetworkItem(c), LoginItems(c));
  }

  lemma SafeBootIso(d: Dialect)
    ensures SafeItem(d, BootIso())
  {
    PlainIsSafe(d, "scsi");
    PlainIsSafe(d, "local");
    FourItems(d, BootIso().body);
  }

  lemma SafeDiskBlock(d: Dialect, diskGb: nat)
    ensures SafeItem(d, Disks(diskGb))
  {
    PlainIsSafe(d, "scsi");
    SafeNumber(d, diskGb, "G");
    FiveItems(d, Disks(diskGb).body);
  }

  lemma SafeDisks(d: Dialect, diskGb: nat, bootWait: Str)
    ensures SafeBody(d, DiskItems(diskGb, bootWait)) <==> SafeString(d, bootWait)
  {
    PlainIsSafe(d, "c");
    SafeBootIso(d);
    SafeDiskBlock(d, diskGb);
    FourItems(d, DiskItems(diskGb, bootWait));
  }

  lemma SafeHttp(d: Dialect, port: nat, boot: seq<Str>)
    ensures SafeBody(d, HttpItems(port, boot)) <==> SafeAll(d, boot)
  {
    PlainIsSafe(d, "0.0.0.0");
    SafeLits(d, boot);
    FourItems(d, HttpItems(port, boot));
  }

  lemma SafeHttpEntry(d: Dialect, name: string)
    requires Plain(name)
    ensures SafeString(d, HttpEntry(name).key) && SafeValue(d, HttpEntry(name).value)
  {
    PlainIsSafe(d, "/" + name);
  }

  lemma {:induction false} SafeHttpEntries(d: Dialect, names: seq<string>)
    requires forall i :: 0 <= i < |names| ==> Plain(names[i])
    ensures SafeEntries(d, HttpEntries(names))
  {
    if names != [] {
      SafeHttpEntry(d, names[0]);
      SafeHttpEntries(d, names[1..]);
      assert HttpEntries(names)[1..] == HttpEntries(names[1..]);
    }
  }

  lemma InstallerNamesPlain(p: Profile)
    ensures forall i :: 0 <= i < |InstallerNames(p)| ==> Plain(InstallerNames(p)[i])
  {
    match p
    case UbuntuAutoinstall => UbuntuNamesPlain();
    case RhelKickstart => KickstartNamePlain();
    case DebianPreseed => PreseedNamePlain();
  }

  lemma UbuntuNamesPlain() ensures Plain("user-data") && Plain("meta-data") { }

  lemma KickstartNamePlain() ensures Plain("kickstart.cfg") { }

  lemma PreseedNamePlain() ensures Plain("preseed.cfg") { }

  lemma SafeServed(d: Dialect, names: seq<string>)
    requires forall i :: 0 <= i < |names| ==> Plain(names[i])
    ensures SafeBody(d, [Attr("http_content", Map(HttpEntries(names)))])
  {
    SafeHttpEntries(d, names);
    SafeOne(d, Attr("http_content", Map(HttpEntries(names))));
  }

  lemma SafeInstaller(d: Dialect, installer: seq<Profile>)
    ensures SafeBody(d, InstallerItems(installer))
  {
    if installer != [] {
      InstallerNamesPlain(installer[0]);
      SafeServed(d, InstallerNames(installer[0]));
    }
  }

  lemma SafeIso(d: Dialect, m: Model)
    requires m.source.Iso?
    ensures SafeBody(d, IsoItems(m)) <==> SafeString(d, m.source.bootWait) && SafeAll(d, BootCommand(m))
  {
    var disk, http := DiskItems(m.source.diskGb, m.source.bootWait), HttpItems(m.source.httpPort, BootCommand(m));
    SafeDisks(d, m.source.diskGb, m.source.bootWait);
    SafeHttp(d, m.source.httpPort, BootCommand(m));
    SafeInstaller(d, m.installer);
    SafeBodyAppend(d, disk, http);
    SafeBodyAppend(d, disk + http, InstallerItems(m.installer));
  }

  function LastItems(m: Model): seq<Item>
  {
    if m.source.Iso? then IsoItems(m)
    else [Attr("clone_vm", Lit(m.source.template)), Attr("full_clone", Bool(m.source.fullClone))]
  }

  lemma SafeFourParts(d: Dialect, a: seq<Item>, b: seq<Item>, c: seq<Item>, e: seq<Item>)
    ensures SafeBody(d, a + b + c + e) <==> SafeBody(d, a) && SafeBody(d, b) && SafeBody(d, c) && SafeBody(d, e)
  {
    SafeBodyAppend(d, a, b);
    SafeBodyAppend(d, a + b, c);
    SafeBodyAppend(d, a + b + c, e);
  }

  lemma SafeLastItems(d: Dialect, m: Model)
    ensures SafeBody(d, LastItems(m)) <==> SafeLast(d, m)
  {
    if m.source.Iso? { SafeIso(d, m); } else { TwoItems(d, LastItems(m)); }
  }

  lemma SafeKeyItems(d: Dialect, m: Model)
    ensures SafeBody(d, KeyItems(m))
  {
    if m.source.common.sshKeyName != "" { SafeOne(d, KeyItem(m.source.common.sshKeyName)); }
  }

  lemma SafeSourceItems(d: Dialect, m: Model)
    ensures SafeBody(d, SourceItems(m)) <==> SafeCommon(d, m) && SafeLast(d, m)
  {
    SafeConnection(d);
    SafeHardware(d, m);
    SafeKeyItems(d, m);
    SafeLastItems(d, m);
    SafeFourParts(d, ConnectionItems(), HardwareItems(m), KeyItems(m), LastItems(m));
    assert SourceItems(m) == ConnectionItems() + HardwareItems(m) + KeyItems(m) + LastItems(m);
  }

  lemma SafeSource(d: Dialect, m: Model)
    ensures SafeItem(d, SourceItem(m)) <==> SafeCommon(d, m) && SafeLast(d, m)
  {
    SafeSourceItems(d, m);
    SafeSourceLabels(d, m);
  }

  lemma SafeSourceLabels(d: Dialect, m: Model)
    ensures SafeLabels(d, [SourceType(m), CodePoints("builder")]) && SafeString(d, SourceType(m))
  {
    PlainIsSafe(d, "proxmox-iso");
    PlainIsSafe(d, "proxmox-clone");
    PlainIsSafe(d, "builder");
    var labels := [SourceType(m), CodePoints("builder")];
    var rest := labels[1..];
    assert rest == [CodePoints("builder")] && |rest[1..]| == 0;
  }

  lemma {:induction false} SafeArguments(d: Dialect, vars: seq<(Str, Str)>)
    ensures SafeAll(d, ExtraArguments(vars)) <==> SafePairs(d, vars)
  {
    if vars != [] {
      SafeArguments(d, vars[1..]);
      var value := vars[0].0 + CodePoints("=") + vars[0].1;
      SafeFixed(d, "--extra-vars", []);
      SafeFixed(d, "=", vars[0].0);
      SafeConcat(d, vars[0].0 + CodePoints("="), vars[0].1);
      var arguments := ExtraArguments(vars);
      assert arguments[0] == CodePoints("--extra-vars") && arguments[1..] == [value] + ExtraArguments(vars[1..]);
      assert arguments[1..][1..] == ExtraArguments(vars[1..]);
    }
  }

  lemma SafeOneLabel(d: Dialect, kind: string, body: seq<Item>)
    requires Plain(kind)
    ensures SafeItem(d, Block("provisioner", [CodePoints(kind)], body)) <==> SafeBody(d, body)
  {
    PlainIsSafe(d, kind);
    var labels := [CodePoints(kind)];
    assert labels[1..] == [];
    assert SafeLabels(d, labels);
  }

  lemma SafeScript(d: Dialect, script: Str, content: Str)
    ensures SafeItem(d, ProvisionerItem(ShellScript(script, content))) <==> SafeString(d, script)
  {
    var it := ProvisionerItem(ShellScript(script, content));
    SafeFixed(d, "files/", script);
    SafeOneLabel(d, "shell", it.body);
    SafeOne(d, it.body[0]);
  }

  lemma SafeInline(d: Dialect, lines: seq<Str>)
    ensures SafeItem(d, ProvisionerItem(ShellInline(lines))) <==> SafeAll(d, lines)
  {
    var it := ProvisionerItem(ShellInline(lines));
    SafeLits(d, lines);
    SafeOneLabel(d, "shell", it.body);
    SafeOne(d, it.body[0]);
  }

  lemma SafeFileCopy(d: Dialect, source: Str, content: Str, destination: Str)
    ensures SafeItem(d, ProvisionerItem(FileCopy(source, content, destination)))
       <==> SafeString(d, source) && SafeString(d, destination)
  {
    var it := ProvisionerItem(FileCopy(source, content, destination));
    SafeFixed(d, "files/", source);
    SafeOneLabel(d, "file", it.body);
    TwoItems(d, it.body);
  }

  lemma SafeExtraVars(d: Dialect, vars: seq<(Str, Str)>)
    ensures SafeItem(d, Attr("extra_arguments", List(Lits(ExtraArguments(vars))))) <==> SafePairs(d, vars)
  {
    SafeArguments(d, vars);
    SafeLits(d, ExtraArguments(vars));
  }

  lemma SafeAnsible(d: Dialect, playbook: Str, content: Str, extraVars: seq<(Str, Str)>)
    ensures SafeItem(d, ProvisionerItem(Ansible(playbook, content, extraVars)))
       <==> SafeString(d, playbook) && SafePairs(d, extraVars)
  {
    var first := Attr("playbook_file", Lit(CodePoints("files/") + playbook));
    var extra := Attr("extra_arguments", List(Lits(ExtraArguments(extraVars))));
    SafeFixed(d, "files/", playbook);
    SafeExtraVars(d, extraVars);
    SafeOne(d, extra);
    var more := if extraVars == [] then [] else [extra];
    SafeCons(d, first, more);
    SafeOneLabel(d, "ansible", [first] + more);
  }

  lemma SafeProvisionerItem(d: Dialect, p: Provisioner)
    ensures SafeItem(d, ProvisionerItem(p)) <==> SafeProvisioner(d, p)
  {
    match p
    case ShellScript(script, content) => SafeScript(d, script, content);
    case ShellInline(lines) => SafeInline(d, lines);
    case FileCopy(source, content, destination) => SafeFileCopy(d, source, content, destination);
    case Ansible(playbook, content, extraVars) => SafeAnsible(d, playbook, content, extraVars);
  }

  lemma {:induction false} SafeProvisionerItems(d: Dialect, ps: seq<Provisioner>)
    ensures SafeBody(d, ProvisionerItems(ps)) <==> SafeProvisioners(d, ps)
  {
    if ps != [] {
      SafeProvisionerItem(d, ps[0]);
      SafeProvisionerItems(d, ps[1..]);
      assert ProvisionerItems(ps)[1..] == ProvisionerItems(ps[1..]);
    }
  }

  function BuilderName(m: Model): Str
  {
    CodePoints("source.") + SourceType(m) + CodePoints(".builder")
  }

  lemma SafeBuilderName(d: Dialect, m: Model)
    ensures SafeString(d, BuilderName(m))
  {
    SafeSourceLabels(d, m);
    SafeFixed(d, "source.", SourceType(m));
    SafeFixed(d, ".builder", CodePoints("source.") + SourceType(m));
  }

  lemma SafeBuildHead(d: Dialect, id: Str, name: Str)
    requires SafeString(d, name)
    ensures SafeBody(d, [Attr("name", Lit(id)), Attr("sources", List([Lit(name)]))]) <==> SafeString(d, id)
  {
    var names: seq<Value> := [Lit(name)];
    var rest: seq<Value> := names[1..];
    assert rest == [];
    assert SafeElems(d, rest) && SafeElems(d, names);
    TwoItems(d, [Attr("name", Lit(id)), Attr("sources", List(names))]);
  }

  lemma SafeBuild(d: Dialect, m: Model)
    ensures SafeItem(d, BuildItem(m)) <==> SafeString(d, m.id) && SafeProvisioners(d, m.provisioners)
  {
    SafeBuilderName(d, m);
    SafeBuildHead(d, m.id, BuilderName(m));
    SafeProvisionerItems(d, m.provisioners);
    SafeBodyAppend(d, [Attr("name", Lit(m.id)), Attr("sources", List([Lit(BuilderName(m))]))],
                   ProvisionerItems(m.provisioners));
  }

  /** The strings of the generated tree can all be read exactly if the user's can. */
  lemma SafeTopIff(d: Dialect, m: Model)
    ensures SafeBody(d, TopItems(m)) <==> SafeModel(d, m)
  {
    SafePlugin(d);
    SafeVariables(d, m);
    SafeSource(d, m);
    SafeBuild(d, m);
    SafeOne(d, PluginItem());
    SafeOne(d, SourceItem(m));
    SafeOne(d, BuildItem(m));
    SafeBodyAppend(d, [PluginItem()], VariableBlocks(m));
    SafeBodyAppend(d, [PluginItem()] + VariableBlocks(m), [SourceItem(m)]);
    SafeBodyAppend(d, [PluginItem()] + VariableBlocks(m) + [SourceItem(m)], [BuildItem(m)]);
  }

  /** Read by HCL2, the file of an accepted model is the intended tree exactly when the
      name of the SSH key does not end in a line break and no other user value holds a
      backspace, a form feed, a surrogate or a character above the BMP. Otherwise the
      file is refused. */
  lemma GeneratedFileReadsBackInHcl2Iff(m: Model)
    requires Accepted(m)
    ensures ReadDocument(Hcl2, Document(TopItems(m)))
         == If(!EndsInBreak(m.source.common.sshKeyName) && SafeModel(Hcl2, m), NormalBody(TopItems(m)), "")
  {
    GeneratedFileReadsBackIff(Hcl2, m);
    SafeTopIff(Hcl2, m);
  }

  /** For example, a backspace in the description of the template is enough. */
  lemma BackspaceBreaksFile(m: Model)
    requires Accepted(m) && 0x08 in m.source.common.description
    ensures ReadDocument(Hcl2, Document(TopItems(m))) == Fail
  {
    GeneratedFileReadsBackInHcl2Iff(m);
    assert !SafeChar(0x08);
  }
}
