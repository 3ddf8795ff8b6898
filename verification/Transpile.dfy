/** `stack_to_hcl`: from the structured editor model to the generated text. */
module Transpile {
  import opened JsonString
  import opened Hcl
  import opened HclRoundTrip
  import opened Text

  // --------------------------------------------------------- the editor model

  datatype Common = Common(
    cores: nat, memoryMb: nat, bridge: Str, nicModel: Str, firewall: bool,
    scsiController: Str, qemuAgent: bool, cloudInit: bool, description: Str,
    sshUsername: Str, sshTimeout: Str, sshKeyName: string)

  datatype Source =
    | Clone(common: Common, template: Str, fullClone: bool)
    | Iso(common: Common, diskGb: nat, bootCommand: seq<Str>, bootWait: Str, httpPort: nat)

  datatype Profile = DebianPreseed | RhelKickstart | UbuntuAutoinstall

  datatype Provisioner =
    | ShellScript(script: Str, content: Str)
    | ShellInline(lines: seq<Str>)
    | FileCopy(source: Str, content: Str, destination: Str)
    | Ansible(playbook: Str, content: Str, extraVars: seq<(Str, Str)>)

  datatype Model = Model(
    id: Str, name: Str, source: Source, installer: seq<Profile>, provisioners: seq<Provisioner>,
    sideFiles: map<Str, Str>, hclOverride: bool, hclContent: string)

  /** The file-name pattern of the schema: a letter or digit, then letters,
      digits, dots, underscores and dashes. Its `$` also matches before one
      final line break, so a name may end in one. */
  predicate FileName(t: string)
  {
    var stem := if t != "" && t[|t| - 1] == '\n' then t[..|t| - 1] else t;
    stem != "" && (IsLetter(stem[0]) || IsDigit(stem[0]))
    && forall i :: 0 <= i < |stem| ==> IsIdentChar(stem[i]) || stem[i] == '.'
  }

  predicate EndsInBreak(t: string)
  {
    t != "" && t[|t| - 1] == '\n'
  }

  /** What the schema accepts; an empty key name means that no key is used. */
  predicate Accepted(m: Model)
  {
    (m.source.common.sshKeyName != "" ==> FileName(m.source.common.sshKeyName))
    && |m.installer| <= 1 && (m.source.Clone? ==> m.installer == [])
  }

  // ------------------------------------------------------- code-generated text

  // In pieces, which keeps facts about their characters cheap.
  const EXPR_USERNAME :=
    "var.proxmox_api_user != \"\" ? " + "var.proxmox_api_user : " + "var.proxmox_api_token_id"
  const EXPR_TOKEN := "var.proxmox_api_user != \"\" ? " + "\"\" : var.proxmox_api_token_secret"
  const EXPR_PASSWORD := "var.proxmox_api_user != \"\" ? " + "var.proxmox_api_password : \"\""

  function U(t: string): Value { Lit(CodePoints(t)) }

  function VariableBlock(name: string, default: seq<Value>, sensitive: bool): Item
  {
    Block("variable", [CodePoints(name)],
      [Attr("type", Raw("string"))]
      + (if sensitive then [Attr("sensitive", Bool(true))] else [])
      + (if default == [] then [] else [Attr("default", default[0])]))
  }

  function VariableBlocks(m: Model): seq<Item>
  {
    [ VariableBlock("proxmox_api_url", [], false),
      VariableBlock("proxmox_api_token_id", [U("")], false),
      VariableBlock("proxmox_api_token_secret", [U("")], true),
      VariableBlock("proxmox_api_user", [U("")], false),
      VariableBlock("proxmox_api_password", [U("")], true),
      VariableBlock("vm_id", [], false),
      VariableBlock("vm_name", [], false),
      VariableBlock("node", [], false),
      VariableBlock("storage_pool", [U("local-lvm")], false),
      VariableBlock("packer_http_ip", [U("")], false) ]
    + (if m.source.Iso? then [VariableBlock("iso_file", [], false)] else [])
  }

  const VM_NAME := "tmpl-${var.vm_name}"

  function ConnectionItems(): seq<Item>
  {
    [ Attr("proxmox_url", Raw("var.proxmox_api_url")),
      Attr("username", Raw(EXPR_USERNAME)),
      Attr("token", Raw(EXPR_TOKEN)),
      Attr("password", Raw(EXPR_PASSWORD)),
      Attr("insecure_skip_tls_verify", Bool(true)),
      Attr("node", Raw("var.node")),
      Attr("vm_id", Raw("var.vm_id")),
      Attr("vm_name", Raw("\"" + VM_NAME + "\"")) ]
  }

  function MachineItems(m: Model): seq<Item>
  {
    var c := m.source.common;
    var name := if m.name != [] then m.name else m.id;
    [ Attr("template_description",
        Lit(if c.description != [] then c.description else name + CodePoints(" (built by P3)"))),
      Attr("qemu_agent", Bool(c.qemuAgent)),
      Attr("scsi_controller", Lit(c.scsiController)),
      Attr("cores", U(IntText(c.cores))),
      Attr("memory", U(IntText(c.memoryMb))) ]
  }

  function NetworkItem(c: Common): Item
  {
    Block("network_adapters", [],
      [Attr("model", Lit(c.nicModel)), Attr("bridge", Lit(c.bridge)), Attr("firewall", Bool(c.firewall))])
  }

  function LoginItems(c: Common): seq<Item>
  {
    [ Attr("cloud_init", Bool(c.cloudInit)),
      Attr("cloud_init_storage_pool", Raw("var.storage_pool")),
      Attr("ssh_username", Lit(c.sshUsername)),
      Attr("ssh_timeout", Lit(c.sshTimeout)) ]
  }

  function HardwareItems(m: Model): seq<Item>
  {
    MachineItems(m) + [NetworkItem(m.source.common)] + LoginItems(m.source.common)
  }

  const KEY_PATH := "${path.root}/files/"

  function KeyItem(name: string): Item
  {
    Attr("ssh_private_key_file", Raw("\"" + KEY_PATH + name + "\""))
  }

  function KeyItems(m: Model): seq<Item>
  {
    if m.source.common.sshKeyName != "" then [KeyItem(m.source.common.sshKeyName)] else []
  }

  /** Where Packer serves the installer's files; the port is Packer's to fill in. */
  const HTTP_ROOT := "http://${var.packer_http_ip}:" + "{{ .HTTPPort }}/"

  /** The default key strokes of each profile, wired to the installer URL. */
  function DefaultBootCommand(p: Profile): seq<Str>
  {
    match p
    case UbuntuAutoinstall => [
        CodePoints("c<wait>"),
        CodePoints("linux /casper/vmlinuz autoinstall ds=\"nocloud-net;s=" + HTTP_ROOT + "\"<enter><wait>"),
        CodePoints("initrd /casper/initrd<enter><wait>"),
        CodePoints("boot<enter>") ]
    case RhelKickstart => [
        CodePoints("<up><wait>e<wait>"),
        CodePoints("<down><down><end><wait>"),
        CodePoints(" inst.text inst.ks=" + HTTP_ROOT + "kickstart.cfg"),
        CodePoints("<wait><leftCtrlOn>x<leftCtrlOff>") ]
    case DebianPreseed => [
        CodePoints("<esc><wait>"), CodePoints("auto <wait>"), CodePoints("/install/vmlinuz noapic "),
        CodePoints("netcfg/use_autoconfig=true "),
        CodePoints("preseed/url=" + HTTP_ROOT + "preseed.cfg "),
        CodePoints("initrd=/install/initrd.gz -- <enter>"), CodePoints("<enter><wait>") ]
  }

  function InstallerNames(p: Profile): seq<string>
  {
    match p
    case UbuntuAutoinstall => ["user-data", "meta-data"]
    case RhelKickstart => ["kickstart.cfg"]
    case DebianPreseed => ["preseed.cfg"]
  }

  function HttpEntry(name: string): Entry
  {
    Entry(CodePoints("/" + name), Raw("file(\"${path.root}/http/" + name + "\")"))
  }

  function HttpEntries(names: seq<string>): seq<Entry>
  {
    if names == [] then [] else [HttpEntry(names[0])] + HttpEntries(names[1..])
  }

  function Lits(lines: seq<Str>): (vs: seq<Value>)
    ensures |vs| == |lines| && forall i :: 0 <= i < |vs| ==> vs[i] == Lit(lines[i])
  {
    seq(|lines|, i requires 0 <= i < |lines| => Lit(lines[i]))
  }

  function BootIso(): Item
  {
    Block("boot_iso", [],
      [Attr("type", U("scsi")), Attr("iso_file", Raw("var.iso_file")),
       Attr("iso_storage_pool", U("local")), Attr("unmount", Bool(true))])
  }

  function Disks(gb: nat): Item
  {
    Block("disks", [],
      [Attr("disk_size", U(IntText(gb) + "G")), Attr("storage_pool", Raw("var.storage_pool")),
       Attr("type", U("scsi")), Attr("discard", Bool(true)), Attr("ssd", Bool(true))])
  }

  function DiskItems(diskGb: nat, bootWait: Str): seq<Item>
  {
    [BootIso(), Disks(diskGb), Attr("boot", U("c")), Attr("boot_wait", Lit(bootWait))]
  }

  function HttpItems(port: nat, boot: seq<Str>): seq<Item>
  {
    [ Attr("http_bind_address", U("0.0.0.0")), Attr("http_port_min", Int(port)),
      Attr("http_port_max", Int(port)), Attr("boot_command", List(Lits(boot))) ]
  }

  function InstallerItems(installer: seq<Profile>): seq<Item>
  {
    if installer != [] then [Attr("http_content", Map(HttpEntries(InstallerNames(installer[0]))))] else []
  }

  function BootCommand(m: Model): seq<Str>
    requires m.source.Iso?
  {
    if m.source.bootCommand != [] then m.source.bootCommand
    else DefaultBootCommand(if m.installer != [] then m.installer[0] else DebianPreseed)
  }

  function IsoItems(m: Model): seq<Item>
    requires m.source.Iso?
  {
    DiskItems(m.source.diskGb, m.source.bootWait) + HttpItems(m.source.httpPort, BootCommand(m))
    + InstallerItems(m.installer)
  }

  function SourceItems(m: Model): seq<Item>
  {
    ConnectionItems() + HardwareItems(m) + KeyItems(m)
    + (if m.source.Iso? then IsoItems(m)
       else [Attr("clone_vm", Lit(m.source.template)), Attr("full_clone", Bool(m.source.fullClone))])
  }

  function ExtraArguments(vars: seq<(Str, Str)>): seq<Str>
  {
    if vars == [] then []
    else [CodePoints("--extra-vars"), vars[0].0 + CodePoints("=") + vars[0].1] + ExtraArguments(vars[1..])
  }

  function ProvisionerItem(p: Provisioner): Item
  {
    match p
    case ShellScript(script, _) =>
      Block("provisioner", [CodePoints("shell")], [Attr("script", Lit(CodePoints("files/") + script))])
    case ShellInline(lines) =>
      Block("provisioner", [CodePoints("shell")], [Attr("inline", List(Lits(lines)))])
    case FileCopy(source, _, destination) =>
      Block("provisioner", [CodePoints("file")],
        [Attr("source", Lit(CodePoints("files/") + source)), Attr("destination", Lit(destination))])
    case Ansible(playbook, _, extraVars) =>
      Block("provisioner", [CodePoints("ansible")],
        [Attr("playbook_file", Lit(CodePoints("files/") + playbook))]
        + (if extraVars == [] then [] else [Attr("extra_arguments", List(Lits(ExtraArguments(extraVars))))]))
  }

  function ProvisionerItems(ps: seq<Provisioner>): (its: seq<Item>)
    ensures |its| == |ps| && forall i :: 0 <= i < |its| ==> its[i] == ProvisionerItem(ps[i])
  {
    seq(|ps|, i requires 0 <= i < |ps| => ProvisionerItem(ps[i]))
  }

  function PluginItem(): Item
  {
    Block("packer", [], [Block("required_plugins", [],
      [Attr("proxmox", Map([
        Entry(CodePoints("version"), U("~> 1.2.3")),
        Entry(CodePoints("source"), U("github.com/hashicorp/proxmox"))]))])])
  }

  function SourceType(m: Model): Str
  {
    CodePoints(if m.source.Iso? then "proxmox-iso" else "proxmox-clone")
  }

  function SourceItem(m: Model): Item
  {
    Block("source", [SourceType(m), CodePoints("builder")], SourceItems(m))
  }

  function BuildItem(m: Model): Item
  {
    Block("build", [],
      [Attr("name", Lit(m.id)),
       Attr("sources", List([Lit(CodePoints("source.") + SourceType(m) + CodePoints(".builder"))]))]
      + ProvisionerItems(m.provisioners))
  }

  /** The whole tree of a generated file. */
  function TopItems(m: Model): seq<Item>
  {
    [PluginItem()] + VariableBlocks(m) + [SourceItem(m)] + [BuildItem(m)]
  }

  /** `stack_to_hcl`, the text part. The raw override is returned verbatim. */
  method StackToHcl(m: Model) returns (text: string)
    ensures text == if m.hclOverride && !Blank(m.hclContent) then m.hclContent else Document(TopItems(m))
  {
    if m.hclOverride && !Blank(m.hclContent) {
      return m.hclContent;
    }
    var top := [PluginItem()];
    top := top + VariableBlocks(m);
    top := top + [SourceItem(m)];
    var build := [
      Attr("name", Lit(m.id)),
      Attr("sources", List([Lit(CodePoints("source.") + SourceType(m) + CodePoints(".builder"))]))];
    build := build + ProvisionerItems(m.provisioners);
    top := top + [Block("build", [], build)];
    var body := RenderBody(top, "");
    text := BANNER + "\n" + body + "\n";
  }

  // -------------------------------------------------------- the tree is printed

  lemma WfAppend(a: seq<Item>, b: seq<Item>)
    requires WfBody(a) && WfBody(b)
    ensures WfBody(a + b)
  {
  }

  lemma Names()
    ensures IsIdent("variable") && IsIdent("type") && IsIdent("sensitive") && IsIdent("default")
    ensures IsIdent("node") && IsIdent("vm_id") && IsIdent("vm_name") && IsIdent("username") && IsIdent("token")
    ensures IsIdent("password") && IsIdent("proxmox_url") && IsIdent("proxmox")
  {
  }

  lemma LongNames()
    ensures IsIdent("insecure_skip_tls_verify") && IsIdent("template_description")
    ensures IsIdent("cloud_init_storage_pool")
  {
  }

  lemma MiddleNames()
    ensures IsIdent("ssh_private_key_file") && IsIdent("network_adapters") && IsIdent("scsi_controller")
  {
  }

  lemma HardwareNames()
    ensures IsIdent("qemu_agent") && IsIdent("cores") && IsIdent("memory") && IsIdent("model") && IsIdent("bridge")
    ensures IsIdent("firewall") && IsIdent("cloud_init") && IsIdent("ssh_username") && IsIdent("ssh_timeout")
    ensures IsIdent("clone_vm") && IsIdent("full_clone")
  {
  }

  lemma DiskNames()
    ensures IsIdent("boot_iso") && IsIdent("iso_file") && IsIdent("iso_storage_pool") && IsIdent("unmount")
    ensures IsIdent("disks") && IsIdent("disk_size") && IsIdent("storage_pool") && IsIdent("discard") && IsIdent("ssd")
  {
  }

  lemma BootNames()
    ensures IsIdent("boot") && IsIdent("boot_wait") && IsIdent("http_bind_address") && IsIdent("http_port_min")
    ensures IsIdent("http_port_max") && IsIdent("boot_command") && IsIdent("http_content")
  {
  }

  lemma BuildNames()
    ensures IsIdent("source") && IsIdent("build") && IsIdent("name") && IsIdent("sources")
    ensures IsIdent("packer") && IsIdent("required_plugins")
  {
  }

  lemma ProvisionerNames()
    ensures IsIdent("provisioner") && IsIdent("script") && IsIdent("inline") && IsIdent("source")
    ensures IsIdent("destination") && IsIdent("playbook_file") && IsIdent("extra_arguments")
  {
  }

  lemma VarNames()
    ensures PlainExpr("string") && PlainExpr("var.proxmox_api_url") && PlainExpr("var.node")
    ensures PlainExpr("var.vm_id") && PlainExpr("var.storage_pool") && PlainExpr("var.iso_file")
  {
  }

  lemma WfVariable(name: string, default: seq<Value>, sensitive: bool)
    requires default != [] ==> WfValue(default[0])
    ensures WfItem(VariableBlock(name, default, sensitive))
  {
    Names();
    VarNames();
  }

  lemma WfVariables(m: Model)
    ensures WfBody(VariableBlocks(m))
  {
    WfVariable("proxmox_api_url", [], false);
    WfVariable("proxmox_api_token_id", [U("")], false);
    WfVariable("proxmox_api_token_secret", [U("")], true);
    WfVariable("proxmox_api_user", [U("")], false);
    WfVariable("proxmox_api_password", [U("")], true);
    WfVariable("vm_id", [], false);
    WfVariable("vm_name", [], false);
    WfVariable("node", [], false);
    WfVariable("storage_pool", [U("local-lvm")], false);
    WfVariable("packer_http_ip", [U("")], false);
    WfVariable("iso_file", [], false);
  }

  lemma WfUsername()
    ensures PlainExpr(EXPR_USERNAME)
  {
  }

  lemma WfToken()
    ensures PlainExpr(EXPR_TOKEN)
  {
  }

  lemma WfPassword()
    ensures PlainExpr(EXPR_PASSWORD)
  {
  }

  lemma WfTemplate()
    ensures TemplateExpr("\"" + VM_NAME + "\"")
  {
    var t := "\"" + VM_NAME + "\"";
    assert t[1..|t| - 1] == VM_NAME;
  }

  lemma WfConnection()
    ensures WfBody(ConnectionItems())
  {
    Names();
    LongNames();
    VarNames();
    WfUsername();
    WfToken();
    WfPassword();
    WfTemplate();
  }

  lemma WfMachine(m: Model)
    ensures WfBody(MachineItems(m))
  {
    LongNames();
    MiddleNames();
    HardwareNames();
  }

  lemma WfNetwork(c: Common)
    ensures WfItem(NetworkItem(c))
  {
    MiddleNames();
    HardwareNames();
  }

  lemma WfLogin(c: Common)
    ensures WfBody(LoginItems(c))
  {
    LongNames();
    HardwareNames();
    VarNames();
  }

  lemma WfHardware(m: Model)
    ensures WfBody(HardwareItems(m))
  {
    WfMachine(m);
    WfNetwork(m.source.common);
    WfLogin(m.source.common);
  }

  lemma WfHttpEntry(name: string)
    requires forall i :: 0 <= i < |name| ==> name[i] != ',' && name[i] != '\n'
    ensures WfValue(HttpEntry(name).value)
  {
    var p := "file(\"${path.root}/http/";
    assert forall i :: 0 <= i < |p| ==> p[i] != ',' && p[i] != '\n';
  }

  lemma {:induction false} WfHttpEntries(names: seq<string>)
    requires forall n <- names :: forall i :: 0 <= i < |n| ==> n[i] != ',' && n[i] != '\n'
    ensures forall e <- HttpEntries(names) :: WfValue(e.value)
  {
    if names != [] {
      assert names[0] in names;
      forall n | n in names[1..] ensures forall i :: 0 <= i < |n| ==> n[i] != ',' && n[i] != '\n' {
        assert n in names;
      }
      WfHttpEntries(names[1..]);
      WfHttpEntry(names[0]);
    }
  }

  lemma WfInstallerNames(p: Profile)
    ensures forall n <- InstallerNames(p) :: forall i :: 0 <= i < |n| ==> n[i] != ',' && n[i] != '\n'
  {
  }

  lemma WfBootIso()
    ensures WfItem(BootIso())
  {
    Names();
    DiskNames();
    VarNames();
  }

  lemma WfDisks(gb: nat)
    ensures WfItem(Disks(gb))
  {
    Names();
    DiskNames();
    VarNames();
  }

  lemma WfDiskItems(diskGb: nat, bootWait: Str)
    ensures WfBody(DiskItems(diskGb, bootWait))
  {
    BootNames();
    WfBootIso();
    WfDisks(diskGb);
  }

  lemma WfLits(lines: seq<Str>)
    ensures WfValue(List(Lits(lines)))
  {
    forall e | e in Lits(lines) ensures WfValue(e) { }
  }

  lemma WfHttpItems(port: nat, boot: seq<Str>)
    ensures WfBody(HttpItems(port, boot))
  {
    BootNames();
    WfLits(boot);
  }

  lemma WfMapItem(entries: seq<Entry>)
    requires forall e <- entries :: WfValue(e.value)
    ensures WfBody([Attr("http_content", Map(entries))])
  {
    BootNames();
  }

  lemma WfInstallerItems(installer: seq<Profile>)
    ensures WfBody(InstallerItems(installer))
  {
    if installer != [] {
      var names := InstallerNames(installer[0]);
      WfInstallerNames(installer[0]);
      WfHttpEntries(names);
      WfMapItem(HttpEntries(names));
    }
  }

  lemma WfIso(m: Model)
    requires m.source.Iso?
    ensures WfBody(IsoItems(m))
  {
    WfDiskItems(m.source.diskGb, m.source.bootWait);
    WfHttpItems(m.source.httpPort, BootCommand(m));
    WfInstallerItems(m.installer);
  }

  lemma KeyPathIsPlain(name: string)
    requires forall i :: 0 <= i < |name| ==> IsIdentChar(name[i]) || name[i] == '.'
    ensures Plain(KEY_PATH + name)
  {
    assert Plain(KEY_PATH);
    forall i | 0 <= i < |name|
      ensures 0x20 <= name[i] as int <= 0x7E && name[i] != '"' && name[i] != '\\'
    {
      assert IsIdentChar(name[i]) || name[i] == '.';
    }
  }

  lemma WfKey(name: string)
    requires FileName(name) && !EndsInBreak(name)
    ensures WfItem(KeyItem(name))
  {
    MiddleNames();
    var t, inner := "\"" + KEY_PATH + name + "\"", KEY_PATH + name;
    assert t[1..|t| - 1] == inner;
    KeyPathIsPlain(name);
  }

  lemma WfClone(m: Model)
    requires m.source.Clone?
    ensures WfBody([Attr("clone_vm", Lit(m.source.template)), Attr("full_clone", Bool(m.source.fullClone))])
  {
    HardwareNames();
  }

  lemma WfProvisioner(p: Provisioner)
    ensures WfItem(ProvisionerItem(p))
  {
    ProvisionerNames();
    var it := ProvisionerItem(p);
    assert it.body != [] && WfItem(it.body[0]);
    assert forall b <- it.body :: b == it.body[0] || b == it.body[1];
    assert |it.body| > 1 ==> WfItem(it.body[1]);
  }

  lemma WfPlugin()
    ensures WfItem(PluginItem())
  {
    Names();
    BuildNames();
    var inner := Attr("proxmox", Map([
        Entry(CodePoints("version"), U("~> 1.2.3")),
        Entry(CodePoints("source"), U("github.com/hashicorp/proxmox"))]));
    assert WfItem(inner);
    assert WfItem(Block("required_plugins", [], [inner]));
  }

  lemma WfBuild(m: Model)
    ensures WfItem(BuildItem(m))
  {
    BuildNames();
    var ps := ProvisionerItems(m.provisioners);
    forall it | it in ps ensures WfItem(it) {
      var i :| 0 <= i < |ps| && it == ps[i];
      WfProvisioner(m.provisioners[i]);
    }
    var sources := List([Lit(CodePoints("source.") + SourceType(m) + CodePoints(".builder"))]);
    assert WfValue(sources);
    var head := [Attr("name", Lit(m.id)), Attr("sources", sources)];
    assert WfBody(head);
    WfAppend(head, ps);
  }

  /** The parts of the source block around the key line. */
  lemma WfSourceParts(m: Model)
    ensures WfBody(ConnectionItems() + HardwareItems(m))
    ensures WfBody(if m.source.Iso? then IsoItems(m)
                   else [Attr("clone_vm", Lit(m.source.template)), Attr("full_clone", Bool(m.source.fullClone))])
  {
    WfConnection();
    WfHardware(m);
    if m.source.Iso? { WfIso(m); } else { WfClone(m); }
  }

  lemma WfSource(m: Model)
    requires Accepted(m) && !EndsInBreak(m.source.common.sshKeyName)
    ensures WfItem(SourceItem(m))
  {
    WfSourceParts(m);
    if m.source.common.sshKeyName != "" { WfKey(m.source.common.sshKeyName); }
    BuildNames();
  }

  lemma WfTop(m: Model)
    requires Accepted(m) && !EndsInBreak(m.source.common.sshKeyName)
    ensures WfBody(TopItems(m))
  {
    WfPlugin();
    WfVariables(m);
    WfSource(m);
    WfBuild(m);
  }

  // ------------------------------------------------ when a document is broken

  lemma {:induction false} LineBreakFails(d: Dialect, t: string, rest: string)
    requires Plain(t) && rest != "" && rest[0] == '\n'
    ensures ReadUnits(d, t + rest) == Fail
  {
    if t == "" {
      assert t + rest == rest;
    } else {
      LineBreakFails(d, t[1..], rest);
      assert (t + rest)[1..] == t[1..] + rest;
      assert (t + rest)[0] == t[0];
    }
  }

  lemma QuotedFails(d: Dialect, text: string, body: string)
    requires text == "\"" + body && ReadUnits(d, body) == Fail
    ensures ReadValue(d, text) == Fail
  {
    assert text[1..] == body;
  }

  lemma BrokenValue(d: Dialect, name: string, more: string)
    requires FileName(name) && EndsInBreak(name)
    ensures ReadValue(d, "\"" + KEY_PATH + name + "\"" + more) == Fail
  {
    var stem := name[..|name| - 1];
    KeyPathIsPlain(stem);
    LineBreakFails(d, KEY_PATH + stem, "\n\"" + more);
    assert name == stem + "\n";
    Regroup(KEY_PATH, stem, more);
    QuotedFails(d, "\"" + KEY_PATH + (stem + "\n") + "\"" + more, KEY_PATH + stem + ("\n\"" + more));
  }

  lemma Regroup(path: string, stem: string, more: string)
    ensures "\"" + path + (stem + "\n") + "\"" + more == "\"" + (path + stem + ("\n\"" + more))
  {
  }

  lemma BrokenAttr(d: Dialect, key: string, value: string)
    requires IsIdent(key) && ReadValue(d, value) == Fail
    ensures ReadItem(d, key + (" = " + value)) == Fail
  {
    ReadAttr(d, key, value);
  }

  lemma BrokenBlock(d: Dialect, kind: string, head: string, ok: bool, labels: seq<Str>, inner: string)
    requires IsIdent(kind) && |head| > 1 && head[0] == ' ' && head[1] != '='
    requires ReadLabels(d, head) == If(ok, labels, " {\n" + inner) && ReadItems(d, inner) == Fail
    ensures ReadItem(d, kind + head) == Fail
  {
    IdentIs(kind, head);
    var text := kind + head;
    assert text[..|kind|] == kind && text[|kind|..] == head;
    assert (" = ")[1] == '=';
    assert (" {\n" + inner)[3..] == inner;
  }

  lemma BrokenStep(d: Dialect, indent: string, text: string)
    requires Spaces(indent) && text != "" && IsLetter(text[0])
    requires ReadItem(d, text) == Fail || (ReadItem(d, text).Done? && ReadItems(d, ReadItem(d, text).rest) == Fail)
    ensures ReadItems(d, indent + text) == Fail
  {
    SkipIndent(indent, text);
  }

  lemma BrokenAfter(d: Dialect, it: Item, indent: string, more: string)
    requires WfItem(it) && Spaces(indent) && ReadItems(d, more) == Fail
    ensures ReadItems(d, Terminate(ItemLines(it, indent), more)) == Fail
  {
    var text := ReadItemText(d, it, indent, more);
    BrokenStep(d, indent, text);
  }

  lemma TailOfThree(a: seq<Item>, b: seq<Item>, c: seq<Item>)
    requires a != []
    ensures (a + b + c)[0] == a[0] && (a + b + c)[1..] == a[1..] + b + c
  {
  }

  /** One unreadable item makes the whole body unreadable. */
  lemma {:induction false} BrokenBody(d: Dialect, a: seq<Item>, bad: Item, c: seq<Item>, indent: string, tail: string,
                                      text: string)
    requires WfBody(a) && Spaces(indent)
    requires Terminate(ItemLines(bad, indent), Terminate(BodyLines(c, indent), tail)) == indent + text
    requires text != "" && IsLetter(text[0]) && ReadItem(d, text) == Fail
    ensures ReadItems(d, Terminate(BodyLines(a + [bad] + c, indent), tail)) == Fail
  {
    var all := a + [bad] + c;
    if a == [] {
      assert all[0] == bad && all[1..] == c;
      TerminateAppend(ItemLines(bad, indent), BodyLines(c, indent), tail);
      BrokenStep(d, indent, text);
    } else {
      ConsAll(a);
      BrokenBody(d, a[1..], bad, c, indent, tail, text);
      TailOfThree(a, [bad], c);
      var more := Terminate(BodyLines(all[1..], indent), tail);
      TerminateAppend(ItemLines(a[0], indent), BodyLines(all[1..], indent), tail);
      BrokenAfter(d, a[0], indent, more);
    }
  }

  lemma BrokenKey(d: Dialect, m: Model, indent: string, more: string) returns (text: string)
    requires Accepted(m) && EndsInBreak(m.source.common.sshKeyName)
    ensures Terminate(ItemLines(KeyItem(m.source.common.sshKeyName), indent), more) == indent + text
    ensures text != "" && IsLetter(text[0]) && ReadItem(d, text) == Fail
  {
    var name := m.source.common.sshKeyName;
    var key, expr := "ssh_private_key_file", "\"" + KEY_PATH + name + "\"";
    MiddleNames();
    AttrLines(key, Raw(expr), indent, more);
    var value := expr + ("\n" + more);
    text := key + (" = " + value);
    BrokenValue(d, name, "\n" + more);
    BrokenAttr(d, key, value);
    LetterFirst(key, " = " + value);
  }

  lemma BrokenSourceItems(d: Dialect, m: Model, tail: string)
    requires Accepted(m) && EndsInBreak(m.source.common.sshKeyName)
    ensures ReadItems(d, Terminate(BodyLines(SourceItems(m), "  "), tail)) == Fail
  {
    var before, bad := ConnectionItems() + HardwareItems(m), KeyItem(m.source.common.sshKeyName);
    var after := if m.source.Iso? then IsoItems(m)
      else [Attr("clone_vm", Lit(m.source.template)), Attr("full_clone", Bool(m.source.fullClone))];
    WfSourceParts(m);
    var keyText := BrokenKey(d, m, "  ", Terminate(BodyLines(after, "  "), tail));
    BrokenBody(d, before, bad, after, "  ", tail, keyText);
    assert SourceItems(m) == before + [bad] + after;
  }

  /** A block with an unreadable body is unreadable. */
  lemma BrokenInside(d: Dialect, kind: string, labels: seq<Str>, body: seq<Item>, more: string) returns (text: string)
    requires IsIdent(kind) && kind != "" && IsLetter(kind[0])
    requires ReadItems(d, Terminate(BodyLines(body, "  "), "" + ("}\n" + more))) == Fail
    ensures Terminate(ItemLines(Block(kind, labels, body), ""), more) == "" + text
    ensures text != "" && IsLetter(text[0]) && ReadItem(d, text) == Fail
  {
    assert "" + "  " == "  ";
    var inner := Terminate(BodyLines(body, "  "), "" + ("}\n" + more));
    BlockLines(kind, labels, body, "", more);
    ReadLabelText(d, labels, inner);
    text := BlockTail(kind, labels, inner);
    BrokenBlock(d, kind, LabelText(labels) + (" {\n" + inner), SafeLabels(d, labels), NormalLabels(labels), inner);
    LetterFirst(kind, LabelText(labels) + (" {\n" + inner));
  }

  lemma BrokenSource(d: Dialect, m: Model, more: string) returns (text: string)
    requires Accepted(m) && EndsInBreak(m.source.common.sshKeyName)
    ensures Terminate(ItemLines(SourceItem(m), ""), more) == "" + text
    ensures text != "" && IsLetter(text[0]) && ReadItem(d, text) == Fail
  {
    BrokenSourceItems(d, m, "" + ("}\n" + more));
    BuildNames();
    text := BrokenInside(d, "source", [SourceType(m), CodePoints("builder")], SourceItems(m), more);
  }

  lemma BrokenDocument(d: Dialect, m: Model)
    requires Accepted(m) && EndsInBreak(m.source.common.sshKeyName)
    ensures ReadDocument(d, Document(TopItems(m))) == Fail
  {
    var before, after := [PluginItem()] + VariableBlocks(m), [BuildItem(m)];
    WfPlugin();
    WfVariables(m);
    var text := BrokenSource(d, m, Terminate(BodyLines(after, ""), ""));
    BrokenBody(d, before, SourceItem(m), after, "", "", text);
    var items := TopItems(m);
    assert items == before + [SourceItem(m)] + after;
    var body := BodyText(items, "");
    Assoc4(BANNER, "\n", body, "\n");
    BannerSkipped(d, body + "\n");
    assert ItemLines(items[0], "") != [];
    JoinTerminate(BodyLines(items, ""), "");
    assert "\n" + "" == "\n";
  }

  /** The generated file of an accepted model reads back as the intended tree
      exactly when the name of the SSH key does not end in a line break, which the
      schema lets through, and every string of the tree is one that the dialect can
      read as a literal. Otherwise it cannot be read. Interpolations `${...}` count
      as text. */
  lemma GeneratedFileReadsBackIff(d: Dialect, m: Model)
    requires Accepted(m)
    ensures ReadDocument(d, Document(TopItems(m)))
         == If(!EndsInBreak(m.source.common.sshKeyName) && SafeBody(d, TopItems(m)), NormalBody(TopItems(m)), "")
  {
    if EndsInBreak(m.source.common.sshKeyName) {
      BrokenDocument(d, m);
    } else {
      WfTop(m);
      DocumentReadsBack(d, TopItems(m));
    }
  }

  /** By the rules of RFC 8259 the key name is the only user value that matters. */
  lemma GeneratedFileReadsBackAsJsonIff(m: Model)
    requires Accepted(m)
    ensures ReadDocument(Json, Document(TopItems(m))) == Done(NormalBody(TopItems(m)), "")
       <==> !EndsInBreak(m.source.common.sshKeyName)
  {
    GeneratedFileReadsBackIff(Json, m);
    JsonBody(TopItems(m));
  }
}
