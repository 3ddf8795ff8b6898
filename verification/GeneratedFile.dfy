/** What a generated file says, looked up in the tree that reading it returns: which
    attribute carries which field of the editor model. */
module GeneratedFile {
  import opened JsonString
  import opened Hcl
  import opened HclRoundTrip
  import opened SideFiles
  import opened Text
  import opened Transpile
  import opened UserStrings

  // ------------------------------------------------------------------ looking up

  /** The blocks of a kind, in order. */
  function Blocks(items: seq<Item>, kind: string): seq<Item>
  {
    if items == [] then []
    else (if items[0].Block? && items[0].kind == kind then [items[0]] else []) + Blocks(items[1..], kind)
  }

  /** No two attributes of a body have one name. */
  predicate Unique(items: seq<Item>)
  {
    forall i, j :: 0 <= i < j < |items| && items[i].Attr? && items[j].Attr? ==> items[i].key != items[j].key
  }

  /** A user string; an adjacent surrogate pair is the character it encodes. */
  function Said(s: Str): Value { Lit(Fuse(s)) }

  function AllSaid(lines: seq<Str>): (vs: seq<Value>)
    ensures |vs| == |lines| && forall i :: 0 <= i < |vs| ==> vs[i] == Said(lines[i])
  {
    seq(|lines|, i requires 0 <= i < |lines| => Said(lines[i]))
  }

  /** A number in a string, as the plugin wants it. */
  function Number(n: nat): Value { Lit(CodePoints(NatText(n))) }

  // --------------------------------------------------------------- what it must say

  predicate SaysMachine(body: seq<Item>, m: Model)
  {
    var c := m.source.common;
    && Attr("cores", Number(c.cores)) in body
    && Attr("memory", Number(c.memoryMb)) in body
    && Attr("qemu_agent", Bool(c.qemuAgent)) in body
    && Attr("scsi_controller", Said(c.scsiController)) in body
    && Attr("template_description",
         Said(if c.description != [] then c.description
              else if m.name != [] then m.name + CodePoints(" (built by P3)")
              else m.id + CodePoints(" (built by P3)"))) in body
  }

  predicate SaysConnection(body: seq<Item>)
  {
    && Attr("proxmox_url", Raw("var.proxmox_api_url")) in body
    && Attr("username", Raw(EXPR_USERNAME)) in body
    && Attr("token", Raw(EXPR_TOKEN)) in body
    && Attr("password", Raw(EXPR_PASSWORD)) in body
    && Attr("insecure_skip_tls_verify", Bool(true)) in body
    && Attr("node", Raw("var.node")) in body
    && Attr("vm_id", Raw("var.vm_id")) in body
    && Attr("vm_name", Lit(CodePoints("tmpl-${var.vm_name}"))) in body
  }

  predicate SaysLogin(body: seq<Item>, c: Common)
  {
    && Attr("cloud_init", Bool(c.cloudInit)) in body
    && Attr("cloud_init_storage_pool", Raw("var.storage_pool")) in body
    && Attr("ssh_username", Said(c.sshUsername)) in body
    && Attr("ssh_timeout", Said(c.sshTimeout)) in body
  }

  /** One network adapter. */
  predicate SaysNetwork(adapters: seq<Item>, c: Common)
  {
    |adapters| == 1 && adapters[0].Block? && Unique(adapters[0].body)
    && Attr("model", Said(c.nicModel)) in adapters[0].body
    && Attr("bridge", Said(c.bridge)) in adapters[0].body
    && Attr("firewall", Bool(c.firewall)) in adapters[0].body
  }

  predicate SaysKey(body: seq<Item>, name: string)
  {
    if name == "" then forall it <- body :: it.Attr? ==> it.key != "ssh_private_key_file"
    else Attr("ssh_private_key_file", Lit(CodePoints("${path.root}/files/" + name))) in body
  }

  predicate SaysClone(body: seq<Item>, template: Str, full: bool)
  {
    Attr("clone_vm", Said(template)) in body && Attr("full_clone", Bool(full)) in body
  }

  /** A path and the file of the definition directory that is served under it. */
  function ServedFile(name: string): Entry
  {
    Entry(CodePoints("/" + name), Raw("file(\"${path.root}/http/" + name + "\")"))
  }

  /** The files that the installer of a profile fetches. */
  function Served(p: Profile): seq<Entry>
  {
    match p
    case DebianPreseed => [ServedFile("preseed.cfg")]
    case RhelKickstart => [ServedFile("kickstart.cfg")]
    case UbuntuAutoinstall => [ServedFile("user-data"), ServedFile("meta-data")]
  }

  predicate SaysInstaller(body: seq<Item>, installer: seq<Profile>)
  {
    if installer == [] then forall it <- body :: it.Attr? ==> it.key != "http_content"
    else Attr("http_content", Map(Served(installer[0]))) in body
  }

  predicate SaysDisk(disks: seq<Item>, diskGb: nat)
  {
    |disks| == 1 && disks[0].Block? && Unique(disks[0].body)
    && Attr("disk_size", Lit(CodePoints(NatText(diskGb) + "G"))) in disks[0].body
    && Attr("storage_pool", Raw("var.storage_pool")) in disks[0].body
    && Attr("discard", Bool(true)) in disks[0].body && Attr("ssd", Bool(true)) in disks[0].body
  }

  predicate SaysBootIso(isos: seq<Item>)
  {
    |isos| == 1 && isos[0].Block? && Unique(isos[0].body)
    && Attr("iso_file", Raw("var.iso_file")) in isos[0].body && Attr("unmount", Bool(true)) in isos[0].body
  }

  predicate SaysIso(body: seq<Item>, m: Model)
    requires m.source.Iso?
  {
    && SaysDisk(Blocks(body, "disks"), m.source.diskGb)
    && SaysBootIso(Blocks(body, "boot_iso"))
    && Attr("boot_wait", Said(m.source.bootWait)) in body
    && Attr("http_port_min", Int(m.source.httpPort)) in body
    && Attr("http_port_max", Int(m.source.httpPort)) in body
    && Attr("boot_command", List(AllSaid(
         if m.source.bootCommand != [] then m.source.bootCommand
         else if m.installer == [] then DefaultBootCommand(DebianPreseed)
         else DefaultBootCommand(m.installer[0])))) in body
    && SaysInstaller(body, m.installer)
  }

  predicate SaysSource(body: seq<Item>, m: Model)
  {
    && Unique(body)
    && SaysConnection(body)
    && SaysMachine(body, m)
    && SaysNetwork(Blocks(body, "network_adapters"), m.source.common)
    && SaysLogin(body, m.source.common)
    && SaysKey(body, m.source.common.sshKeyName)
    && if m.source.Clone? then SaysClone(body, m.source.template, m.source.fullClone) else SaysIso(body, m)
  }

  /** `--extra-vars`, `k=v` for each pair. */
  predicate SaysVars(vs: seq<Value>, vars: seq<(Str, Str)>)
  {
    |vs| == 2 * |vars| && forall i :: 0 <= i < |vars| ==> SaysVar(vs, 2 * i, vars[i])
  }

  predicate SaysVar(vs: seq<Value>, k: int, v: (Str, Str))
  {
    0 <= k < |vs| - 1
    && vs[k] == Lit(CodePoints("--extra-vars")) && vs[k + 1] == Said(v.0 + CodePoints("=") + v.1)
  }

  ghost predicate SaysProvisioner(b: Item, p: Provisioner)
  {
    b.Block? && Unique(b.body)
    && match p
       case ShellScript(script, _) =>
         b.labels == [CodePoints("shell")] && Attr("script", Said(CodePoints("files/") + script)) in b.body
       case ShellInline(lines) =>
         b.labels == [CodePoints("shell")] && Attr("inline", List(AllSaid(lines))) in b.body
       case FileCopy(source, _, destination) =>
         b.labels == [CodePoints("file")] && Attr("source", Said(CodePoints("files/") + source)) in b.body
         && Attr("destination", Said(destination)) in b.body
       case Ansible(playbook, _, vars) =>
         b.labels == [CodePoints("ansible")] && Attr("playbook_file", Said(CodePoints("files/") + playbook)) in b.body
         && (vars == [] ==> |b.body| == 1)
         && (vars != [] ==> exists vs :: Attr("extra_arguments", List(vs)) in b.body && SaysVars(vs, vars))
  }

  ghost predicate SaysProvisioners(blocks: seq<Item>, ps: seq<Provisioner>)
  {
    |blocks| == |ps| && forall i :: 0 <= i < |ps| ==> SaysProvisioner(blocks[i], ps[i])
  }

  /** Whether a build must set the variable, or what it is otherwise. */
  datatype Default = Required | Given(text: string)

  /** The variables that the source block refers to, with the address of the installer,
      and which of them are kept out of the logs. */
  const VARIABLES: seq<(string, bool, Default)> := [
    ("proxmox_api_url", false, Required), ("proxmox_api_token_id", false, Given("")),
    ("proxmox_api_token_secret", true, Given("")), ("proxmox_api_user", false, Given("")),
    ("proxmox_api_password", true, Given("")), ("vm_id", false, Required), ("vm_name", false, Required),
    ("node", false, Required), ("storage_pool", false, Given("local-lvm")), ("packer_http_ip", false, Given("")) ]

  predicate SaysVariable(b: Item, v: (string, bool, Default))
  {
    b.Block? && Unique(b.body) && b.labels == [CodePoints(v.0)]
    && (Attr("sensitive", Bool(true)) in b.body <==> v.1)
    && match v.2
       case Required => forall it <- b.body :: it.Attr? ==> it.key != "default"
       case Given(text) => Attr("default", Lit(CodePoints(text))) in b.body
  }

  /** All of them are declared, and for an ISO build its file as well. */
  predicate SaysVariables(variables: seq<Item>, iso: bool)
  {
    var vs := VARIABLES + (if iso then [("iso_file", false, Required)] else []);
    |variables| == |vs| && forall i :: 0 <= i < |vs| ==> SaysVariable(variables[i], vs[i])
  }

  function TypeName(m: Model): string { if m.source.Iso? then "proxmox-iso" else "proxmox-clone" }

  /** The tree says what the model holds. */
  ghost predicate Describes(tree: seq<Item>, m: Model)
  {
    var sources, builds := Blocks(tree, "source"), Blocks(tree, "build");
    && SaysVariables(Blocks(tree, "variable"), m.source.Iso?)
    && |sources| == 1 && sources[0].Block? && sources[0].labels == [CodePoints(TypeName(m)), CodePoints("builder")]
    && SaysSource(sources[0].body, m)
    && |builds| == 1 && builds[0].Block? && Unique(builds[0].body)
    && Attr("name", Said(m.id)) in builds[0].body
    && Attr("sources", List([Lit(CodePoints("source." + TypeName(m) + ".builder"))])) in builds[0].body
    && SaysProvisioners(Blocks(builds[0].body, "provisioner"), m.provisioners)
  }

  // --------------------------------------------------------- looking up in parts

  lemma NormalCons(it: Item, items: seq<Item>)
    ensures NormalBody([it] + items) == [NormalItem(it)] + NormalBody(items)
  {
    assert ([it] + items)[1..] == items;
  }

  lemma {:induction false} NormalAppend(a: seq<Item>, b: seq<Item>)
    ensures NormalBody(a + b) == NormalBody(a) + NormalBody(b)
  {
    if a == [] {
      assert a + b == b;
    } else {
      NormalAppend(a[1..], b);
      NormalCons(a[0], a[1..] + b);
      NormalCons(a[0], a[1..]);
      assert a + b == [a[0]] + (a[1..] + b) && a == [a[0]] + a[1..];
      AssocSeq([NormalItem(a[0])], NormalBody(a[1..]), NormalBody(b));
    }
  }

  lemma {:induction false} NormalAt(items: seq<Item>)
    ensures |NormalBody(items)| == |items|
    ensures forall i :: 0 <= i < |items| ==> NormalBody(items)[i] == NormalItem(items[i])
  {
    if items != [] { NormalAt(items[1..]); }
  }

  lemma Carries(items: seq<Item>, key: string, v: Value)
    requires Attr(key, v) in items
    ensures Attr(key, NormalValue(v)) in NormalBody(items)
  {
    NormalAt(items);
    var i :| 0 <= i < |items| && items[i] == Attr(key, v);
    assert NormalBody(items)[i] == NormalItem(Attr(key, v));
  }

  lemma BlocksCons(it: Item, items: seq<Item>, kind: string)
    ensures Blocks([it] + items, kind) == (if it.Block? && it.kind == kind then [it] else []) + Blocks(items, kind)
  {
    assert ([it] + items)[1..] == items;
  }

  lemma {:induction false} BlocksAppend(a: seq<Item>, b: seq<Item>, kind: string)
    ensures Blocks(a + b, kind) == Blocks(a, kind) + Blocks(b, kind)
  {
    if a == [] {
      assert a + b == b;
    } else {
      BlocksAppend(a[1..], b, kind);
      BlocksCons(a[0], a[1..] + b, kind);
      BlocksCons(a[0], a[1..], kind);
      assert a + b == [a[0]] + (a[1..] + b) && a == [a[0]] + a[1..];
      AssocSeq(if a[0].Block? && a[0].kind == kind then [a[0]] else [], Blocks(a[1..], kind), Blocks(b, kind));
    }
  }

  lemma {:induction false} BlocksNormal(items: seq<Item>, kind: string)
    ensures Blocks(NormalBody(items), kind) == NormalBody(Blocks(items, kind))
  {
    if items != [] {
      BlocksNormal(items[1..], kind);
      var n := NormalBody(items);
      assert n[0] == NormalItem(items[0]) && n[1..] == NormalBody(items[1..]);
      var here := if items[0].Block? && items[0].kind == kind then [items[0]] else [];
      NormalAppend(here, Blocks(items[1..], kind));
      OneNormal(items[0]);
    }
  }

  lemma OneNormal(it: Item)
    ensures NormalBody([it]) == [NormalItem(it)] && NormalBody([]) == []
  {
    assert [it][1..] == [];
  }

  lemma {:induction false} NoBlocks(items: seq<Item>, kind: string)
    requires forall it <- items :: it.Block? ==> it.kind != kind
    ensures Blocks(items, kind) == []
  {
    if items != [] {
      assert items[0] in items;
      NoBlocks(items[1..], kind);
    }
  }

  lemma {:induction false} OnlyBlocks(items: seq<Item>, kind: string)
    requires forall it <- items :: it.Block? && it.kind == kind
    ensures Blocks(items, kind) == items
  {
    if items != [] {
      assert items[0] in items;
      OnlyBlocks(items[1..], kind);
    }
  }

  lemma OneBlock(it: Item)
    requires it.Block?
    ensures Blocks([it], it.kind) == [it]
  {
    assert [it][1..] == [];
  }

  lemma UniqueNormal(items: seq<Item>)
    requires Unique(items)
    ensures Unique(NormalBody(items))
  {
    NormalAt(items);
    var n := NormalBody(items);
    forall i, j | 0 <= i < j < |n| && n[i].Attr? && n[j].Attr? ensures n[i].key != n[j].key {
      assert n[i] == NormalItem(items[i]) && n[j] == NormalItem(items[j]);
    }
  }

  predicate Within(items: seq<Item>, names: set<string>)
  {
    forall it <- items :: it.Attr? ==> it.key in names
  }

  lemma UniqueAppend(a: seq<Item>, b: seq<Item>, x: set<string>, y: set<string>)
    requires Unique(a) && Unique(b) && Within(a, x) && Within(b, y) && x !! y
    ensures Unique(a + b) && Within(a + b, x + y)
  {
    var all := a + b;
    forall i, j | 0 <= i < j < |all| && all[i].Attr? && all[j].Attr? ensures all[i].key != all[j].key {
      if i < |a| <= j {
        assert all[i] in a && all[j] in b;
      }
    }
  }

  lemma PlainStays(t: string)
    requires Plain(t)
    ensures Fuse(CodePoints(t)) == CodePoints(t)
  {
    PlainIsSafe(Hcl2, t);
    SafeIsPairFree(CodePoints(t));
  }

  // ----------------------------------------------------------- the parts of a source

  lemma RawStays(expr: string)
    requires expr != "" && expr[0] != '"'
    ensures NormalValue(Raw(expr)) == Raw(expr)
  {
  }

  lemma TemplateRead(text: string)
    requires Plain(text)
    ensures NormalValue(Raw("\"" + text + "\"")) == Lit(CodePoints(text))
  {
    var t := "\"" + text + "\"";
    assert t[1..|t| - 1] == text;
  }

  lemma CarriesRaw(items: seq<Item>, key: string, expr: string)
    requires Attr(key, Raw(expr)) in items && expr != "" && expr[0] != '"'
    ensures Attr(key, Raw(expr)) in NormalBody(items)
  {
    Carries(items, key, Raw(expr));
    RawStays(expr);
  }

  lemma CarriesText(items: seq<Item>, key: string, t: string)
    requires Attr(key, U(t)) in items && Plain(t)
    ensures Attr(key, Lit(CodePoints(t))) in NormalBody(items)
  {
    Carries(items, key, U(t));
    PlainStays(t);
  }

  lemma ConnectionSays()
    ensures SaysConnection(NormalBody(ConnectionItems()))
  {
    var items := ConnectionItems();
    CarriesRaw(items, "proxmox_url", "var.proxmox_api_url");
    CarriesRaw(items, "username", EXPR_USERNAME);
    CarriesRaw(items, "token", EXPR_TOKEN);
    CarriesRaw(items, "password", EXPR_PASSWORD);
    Carries(items, "insecure_skip_tls_verify", Bool(true));
    CarriesRaw(items, "node", "var.node");
    CarriesRaw(items, "vm_id", "var.vm_id");
    VmNameSays();
  }

  lemma VmNameSays()
    ensures Attr("vm_name", Lit(CodePoints("tmpl-${var.vm_name}"))) in NormalBody(ConnectionItems())
  {
    WfTemplate();
    PlainVmName();
    TemplateRead(VM_NAME);
    assert ConnectionItems()[7] == Attr("vm_name", Raw("\"" + VM_NAME + "\""));
    Carries(ConnectionItems(), "vm_name", Raw("\"" + VM_NAME + "\""));
  }

  lemma PlainVmName() ensures Plain(VM_NAME) { }

  lemma NumberSays(items: seq<Item>, key: string, n: nat)
    requires Attr(key, U(IntText(n))) in items
    ensures Attr(key, Number(n)) in NormalBody(items)
  {
    NatTextIsPlain(n);
    CarriesText(items, key, NatText(n));
  }

  lemma MachineSays(m: Model)
    ensures SaysMachine(NormalBody(MachineItems(m)), m)
  {
    var items, c := MachineItems(m), m.source.common;
    var name := if m.name != [] then m.name else m.id;
    assert items[3].key == "cores" && items[4].key == "memory";
    NumberSays(items, "cores", c.cores);
    NumberSays(items, "memory", c.memoryMb);
    Carries(items, "qemu_agent", Bool(c.qemuAgent));
    Carries(items, "scsi_controller", Lit(c.scsiController));
    Carries(items, "template_description",
      Lit(if c.description != [] then c.description else name + CodePoints(" (built by P3)")));
  }

  lemma NetworkSays(c: Common)
    ensures SaysNetwork([NormalItem(NetworkItem(c))], c)
  {
    var items := NetworkItem(c).body;
    Carries(items, "model", Lit(c.nicModel));
    Carries(items, "bridge", Lit(c.bridge));
    Carries(items, "firewall", Bool(c.firewall));
    assert Unique(items);
    UniqueNormal(items);
  }

  lemma LoginSays(c: Common)
    ensures SaysLogin(NormalBody(LoginItems(c)), c)
  {
    var items := LoginItems(c);
    Carries(items, "cloud_init", Bool(c.cloudInit));
    CarriesRaw(items, "cloud_init_storage_pool", "var.storage_pool");
    Carries(items, "ssh_username", Lit(c.sshUsername));
    Carries(items, "ssh_timeout", Lit(c.sshTimeout));
  }

  lemma KeyIsRaw(name: string)
    ensures KeyItem(name) == Attr("ssh_private_key_file", Raw("\"" + (KEY_PATH + name) + "\""))
  {
    assert "\"" + KEY_PATH + name + "\"" == "\"" + (KEY_PATH + name) + "\"";
  }

  lemma KeySays(name: string)
    requires name != "" && FileName(name) && !EndsInBreak(name)
    ensures Attr("ssh_private_key_file", Lit(CodePoints("${path.root}/files/" + name))) in NormalBody([KeyItem(name)])
  {
    KeyPathIsPlain(name);
    TemplateRead(KEY_PATH + name);
    KeyIsRaw(name);
    Carries([KeyItem(name)], "ssh_private_key_file", Raw("\"" + (KEY_PATH + name) + "\""));
  }

  lemma CloneSays(template: Str, full: bool)
    ensures SaysClone(NormalBody([Attr("clone_vm", Lit(template)), Attr("full_clone", Bool(full))]), template, full)
  {
    var items := [Attr("clone_vm", Lit(template)), Attr("full_clone", Bool(full))];
    Carries(items, "clone_vm", Lit(template));
    Carries(items, "full_clone", Bool(full));
  }

  lemma {:induction false} NormalLits(lines: seq<Str>)
    ensures NormalElems(Lits(lines)) == AllSaid(lines)
  {
    if lines != [] {
      NormalLits(lines[1..]);
      assert Lits(lines)[1..] == Lits(lines[1..]);
      assert AllSaid(lines) == [Said(lines[0])] + AllSaid(lines[1..]);
    }
  }

  lemma PlainSize(n: nat)
    ensures Plain(NatText(n) + "G")
  {
    NatTextIsPlain(n);
  }

  lemma UniqueDisk(diskGb: nat)
    ensures Unique(Disks(diskGb).body)
  {
  }

  lemma DiskSays(diskGb: nat)
    ensures SaysDisk([NormalItem(Disks(diskGb))], diskGb)
  {
    var items := Disks(diskGb).body;
    PlainSize(diskGb);
    CarriesText(items, "disk_size", NatText(diskGb) + "G");
    CarriesRaw(items, "storage_pool", "var.storage_pool");
    Carries(items, "discard", Bool(true));
    Carries(items, "ssd", Bool(true));
    UniqueDisk(diskGb);
    UniqueNormal(items);
  }

  lemma UniqueBootIso()
    ensures Unique(BootIso().body)
  {
  }

  lemma BootIsoSays()
    ensures SaysBootIso([NormalItem(BootIso())])
  {
    var items := BootIso().body;
    CarriesRaw(items, "iso_file", "var.iso_file");
    Carries(items, "unmount", Bool(true));
    UniqueBootIso();
    UniqueNormal(items);
  }

  lemma BootSays(diskGb: nat, bootWait: Str)
    ensures Attr("boot_wait", Said(bootWait)) in NormalBody(DiskItems(diskGb, bootWait))
  {
    Carries(DiskItems(diskGb, bootWait), "boot_wait", Lit(bootWait));
  }

  lemma HttpSays(port: nat, boot: seq<Str>)
    ensures var body := NormalBody(HttpItems(port, boot));
      && Attr("http_port_min", Int(port)) in body && Attr("http_port_max", Int(port)) in body
      && Attr("boot_command", List(AllSaid(boot))) in body
  {
    var items := HttpItems(port, boot);
    Carries(items, "http_port_min", Int(port));
    Carries(items, "http_port_max", Int(port));
    Carries(items, "boot_command", List(Lits(boot)));
    NormalLits(boot);
  }

  lemma EntrySays(name: string)
    requires Plain(name)
    ensures NormalEntries([HttpEntry(name)])
         == [ServedFile(name)]
  {
    PlainStays("/" + name);
    assert [HttpEntry(name)][1..] == [];
    RawStays("file(\"${path.root}/http/" + name + "\")");
  }

  lemma NormalEntriesCons(e: Entry, es: seq<Entry>)
    ensures NormalEntries([e] + es) == NormalEntries([e]) + NormalEntries(es)
  {
    assert ([e] + es)[1..] == es && [e][1..] == [];
  }

  lemma ServedSays(p: Profile)
    ensures NormalEntries(HttpEntries(InstallerNames(p))) == Served(p)
  {
    match p
    case DebianPreseed =>
      PreseedNamePlain();
      OneServed("preseed.cfg");
      EntrySays("preseed.cfg");
    case RhelKickstart =>
      KickstartNamePlain();
      OneServed("kickstart.cfg");
      EntrySays("kickstart.cfg");
    case UbuntuAutoinstall =>
      UbuntuNamesPlain();
      TwoServed("user-data", "meta-data");
      EntrySays("user-data");
      EntrySays("meta-data");
      NormalEntriesCons(HttpEntry("user-data"), [HttpEntry("meta-data")]);
  }

  lemma TwoServed(a: string, b: string)
    ensures HttpEntries([a, b]) == [HttpEntry(a)] + [HttpEntry(b)]
  {
    OneServed(b);
    assert [a, b][1..] == [b];
  }

  lemma OneServed(name: string)
    ensures HttpEntries([name]) == [HttpEntry(name)]
  {
    assert [name][1..] == [];
  }

  lemma InstallerSays(installer: seq<Profile>)
    requires installer != []
    ensures Attr("http_content", Map(Served(installer[0]))) in NormalBody(InstallerItems(installer))
  {
    ServedSays(installer[0]);
    Carries(InstallerItems(installer), "http_content", Map(HttpEntries(InstallerNames(installer[0]))));
  }

  // --------------------------------------------------------- no name occurs twice

  const CONNECTION_NAMES: set<string> := {
    "proxmox_url", "username", "token", "password", "insecure_skip_tls_verify", "node", "vm_id", "vm_name" }
  const MACHINE_NAMES: set<string> := {"template_description", "qemu_agent", "scsi_controller", "cores", "memory"}
  const LOGIN_NAMES: set<string> := {"cloud_init", "cloud_init_storage_pool", "ssh_username", "ssh_timeout"}
  const KEY_NAMES: set<string> := {"ssh_private_key_file"}
  const CLONE_NAMES: set<string> := {"clone_vm", "full_clone"}
  const ISO_NAMES: set<string> := {
    "boot", "boot_wait", "http_bind_address", "http_port_min", "http_port_max", "boot_command" }
  const HTTP_NAMES: set<string> := {"http_content"}

  lemma UniqueCredentials()
    ensures var items := ConnectionItems()[..4];
      Unique(items) && Within(items, {"proxmox_url", "username", "token", "password"})
  {
  }

  lemma UniqueTarget()
    ensures var items := ConnectionItems()[4..];
      Unique(items) && Within(items, {"insecure_skip_tls_verify", "node", "vm_id", "vm_name"})
  {
  }

  lemma CredentialsApart()
    ensures {"proxmox_url", "username", "token", "password"} !! {"insecure_skip_tls_verify", "node", "vm_id", "vm_name"}
    ensures {"proxmox_url", "username", "token", "password"}
            + {"insecure_skip_tls_verify", "node", "vm_id", "vm_name"} == CONNECTION_NAMES
  {
  }

  lemma UniqueConnection()
    ensures Unique(ConnectionItems()) && Within(ConnectionItems(), CONNECTION_NAMES)
  {
    var items := ConnectionItems();
    UniqueCredentials();
    UniqueTarget();
    CredentialsApart();
    UniqueAppend(items[..4], items[4..], {"proxmox_url", "username", "token", "password"},
                 {"insecure_skip_tls_verify", "node", "vm_id", "vm_name"});
    assert items == items[..4] + items[4..];
  }

  lemma UniqueMachine(m: Model)
    ensures Unique(MachineItems(m)) && Within(MachineItems(m), MACHINE_NAMES)
  {
  }

  lemma UniqueLogin(c: Common)
    ensures Unique(LoginItems(c)) && Within(LoginItems(c), LOGIN_NAMES)
  {
  }

  lemma UniqueDisks(diskGb: nat, bootWait: Str)
    ensures Unique(DiskItems(diskGb, bootWait)) && Within(DiskItems(diskGb, bootWait), {"boot", "boot_wait"})
  {
  }

  lemma UniqueHttp(port: nat, boot: seq<Str>)
    ensures Unique(HttpItems(port, boot))
    ensures Within(HttpItems(port, boot), {"http_bind_address", "http_port_min", "http_port_max", "boot_command"})
  {
  }

  lemma UniqueClone(template: Str, full: bool)
    ensures var items := [Attr("clone_vm", Lit(template)), Attr("full_clone", Bool(full))];
      Unique(items) && Within(items, CLONE_NAMES)
  {
  }

  lemma BootApart()
    ensures {"boot", "boot_wait"} !! {"http_bind_address", "http_port_min", "http_port_max", "boot_command"}
    ensures {"boot", "boot_wait"} + {"http_bind_address", "http_port_min", "http_port_max", "boot_command"} == ISO_NAMES
    ensures ISO_NAMES !! HTTP_NAMES
  {
  }

  lemma UniqueIso(m: Model)
    requires m.source.Iso?
    ensures Unique(IsoItems(m)) && Within(IsoItems(m), ISO_NAMES + HTTP_NAMES)
  {
    var disk, http := DiskItems(m.source.diskGb, m.source.bootWait), HttpItems(m.source.httpPort, BootCommand(m));
    UniqueDisks(m.source.diskGb, m.source.bootWait);
    UniqueHttp(m.source.httpPort, BootCommand(m));
    BootApart();
    UniqueAppend(disk, http, {"boot", "boot_wait"},
                 {"http_bind_address", "http_port_min", "http_port_max", "boot_command"});
    UniqueAppend(disk + http, InstallerItems(m.installer), ISO_NAMES, HTTP_NAMES);
  }

  lemma MachineApart()
    ensures CONNECTION_NAMES !! MACHINE_NAMES
  {
  }

  lemma LoginApart()
    ensures CONNECTION_NAMES !! LOGIN_NAMES && MACHINE_NAMES !! LOGIN_NAMES
  {
  }

  lemma KeyApart()
    ensures CONNECTION_NAMES !! KEY_NAMES && MACHINE_NAMES !! KEY_NAMES && LOGIN_NAMES !! KEY_NAMES
  {
  }

  lemma CloneApart()
    ensures CONNECTION_NAMES !! CLONE_NAMES && MACHINE_NAMES !! CLONE_NAMES && LOGIN_NAMES !! CLONE_NAMES
    ensures KEY_NAMES !! CLONE_NAMES
  {
  }

  lemma IsoApart()
    ensures CONNECTION_NAMES !! ISO_NAMES && MACHINE_NAMES !! ISO_NAMES
  {
  }

  lemma IsoApartMore()
    ensures LOGIN_NAMES !! ISO_NAMES && KEY_NAMES !! ISO_NAMES
    ensures CONNECTION_NAMES !! HTTP_NAMES && MACHINE_NAMES !! HTTP_NAMES && LOGIN_NAMES !! HTTP_NAMES
    ensures KEY_NAMES !! HTTP_NAMES
  {
  }

  /** Four sets of names that exclude one another, from what pairs of them do. */
  lemma ApartFrom<T>(a: set<T>, b: set<T>, c: set<T>, d: set<T>, x: set<T>)
    requires a !! x && b !! x && c !! x && d !! x
    ensures a + (b + c) + d !! x
  {
  }

  lemma UniqueHardware(m: Model)
    ensures Unique(HardwareItems(m)) && Within(HardwareItems(m), MACHINE_NAMES + LOGIN_NAMES)
  {
    var c := m.source.common;
    UniqueMachine(m);
    UniqueLogin(c);
    LoginApart();
    UniqueAppend(MachineItems(m), [NetworkItem(c)], MACHINE_NAMES, {});
    assert MACHINE_NAMES + {} == MACHINE_NAMES;
    UniqueAppend(MachineItems(m) + [NetworkItem(c)], LoginItems(c), MACHINE_NAMES, LOGIN_NAMES);
  }

  lemma UniqueHead(m: Model)
    ensures var head := ConnectionItems() + HardwareItems(m) + KeyItems(m);
      Unique(head) && Within(head, CONNECTION_NAMES + (MACHINE_NAMES + LOGIN_NAMES) + KEY_NAMES)
  {
    UniqueConnection();
    UniqueHardware(m);
    MachineApart();
    LoginApart();
    KeyApart();
    ApartFromBoth(CONNECTION_NAMES, MACHINE_NAMES, LOGIN_NAMES);
    UniqueAppend(ConnectionItems(), HardwareItems(m), CONNECTION_NAMES, MACHINE_NAMES + LOGIN_NAMES);
    ApartFrom(CONNECTION_NAMES, MACHINE_NAMES, LOGIN_NAMES, {}, KEY_NAMES);
    UniqueAppend(ConnectionItems() + HardwareItems(m), KeyItems(m), CONNECTION_NAMES + (MACHINE_NAMES + LOGIN_NAMES),
                 KEY_NAMES);
  }

  const HEAD_NAMES: set<string> := CONNECTION_NAMES + (MACHINE_NAMES + LOGIN_NAMES) + KEY_NAMES

  lemma CloneApartFromHead()
    ensures HEAD_NAMES !! CLONE_NAMES
  {
    CloneApart();
    ApartFrom(CONNECTION_NAMES, MACHINE_NAMES, LOGIN_NAMES, KEY_NAMES, CLONE_NAMES);
  }

  lemma IsoApartFromHead()
    ensures HEAD_NAMES !! ISO_NAMES + HTTP_NAMES
  {
    IsoApart();
    IsoApartMore();
    ApartFrom(CONNECTION_NAMES, MACHINE_NAMES, LOGIN_NAMES, KEY_NAMES, ISO_NAMES);
    ApartFrom(CONNECTION_NAMES, MACHINE_NAMES, LOGIN_NAMES, KEY_NAMES, HTTP_NAMES);
    ApartFromBoth(HEAD_NAMES, ISO_NAMES, HTTP_NAMES);
  }

  lemma ApartFromBoth<T>(a: set<T>, x: set<T>, y: set<T>)
    requires a !! x && a !! y
    ensures a !! x + y
  {
  }

  lemma UniqueSource(m: Model)
    ensures Unique(SourceItems(m))
  {
    var head := ConnectionItems() + HardwareItems(m) + KeyItems(m);
    UniqueHead(m);
    if m.source.Iso? {
      UniqueIso(m);
      IsoApartFromHead();
      UniqueAppend(head, IsoItems(m), HEAD_NAMES, ISO_NAMES + HTTP_NAMES);
    } else {
      var clone := [Attr("clone_vm", Lit(m.source.template)), Attr("full_clone", Bool(m.source.fullClone))];
      UniqueClone(m.source.template, m.source.fullClone);
      CloneApartFromHead();
      UniqueAppend(head, clone, HEAD_NAMES, CLONE_NAMES);
    }
  }


  // ------------------------------------------------------------- the whole source

  /** What is said in a part is said in the whole. */
  predicate PartOf(part: seq<Item>, whole: seq<Item>)
  {
    forall it <- part :: it in whole
  }

  /** The parts of a source block as they are read. */
  lemma SourceParts(m: Model)
    ensures var body := NormalBody(SourceItems(m));
      && PartOf(NormalBody(ConnectionItems()), body) && PartOf(NormalBody(MachineItems(m)), body)
      && PartOf(NormalBody(LoginItems(m.source.common)), body) && PartOf(NormalBody(KeyItems(m)), body)
      && PartOf(NormalBody(LastItems(m)), body)
  {
    var c := m.source.common;
    assert SourceItems(m) == ConnectionItems() + HardwareItems(m) + KeyItems(m) + LastItems(m);
    NormalAppend(ConnectionItems() + HardwareItems(m) + KeyItems(m), LastItems(m));
    NormalAppend(ConnectionItems() + HardwareItems(m), KeyItems(m));
    NormalAppend(ConnectionItems(), HardwareItems(m));
    NormalAppend(MachineItems(m) + [NetworkItem(c)], LoginItems(c));
    NormalAppend(MachineItems(m), [NetworkItem(c)]);
  }

  lemma NoBlocksInFront(kind: string)
    ensures Blocks(ConnectionItems(), kind) == []
  {
    NoBlocks(ConnectionItems(), kind);
  }

  lemma NoBlocksInHardware(m: Model, kind: string)
    ensures Blocks(MachineItems(m), kind) == [] && Blocks(LoginItems(m.source.common), kind) == []
    ensures Blocks(KeyItems(m), kind) == []
  {
    NoBlocks(MachineItems(m), kind);
    NoBlocks(LoginItems(m.source.common), kind);
    NoBlocks(KeyItems(m), kind);
  }

  lemma BlocksAround(a: seq<Item>, b: seq<Item>, it: Item, c: seq<Item>, e: seq<Item>, kind: string)
    requires it.Block? && Blocks(a, kind) == [] && Blocks(b, kind) == []
    requires Blocks(c, kind) == [] && Blocks(e, kind) == []
    ensures Blocks(a + (b + [it] + c) + e, kind) == if it.kind == kind then [it] else []
  {
    BlocksAppend(a + (b + [it] + c), e, kind);
    BlocksAppend(a, b + [it] + c, kind);
    BlocksAppend(b + [it], c, kind);
    BlocksAppend(b, [it], kind);
    BlocksCons(it, [], kind);
    assert [it] + [] == [it];
  }

  lemma BlocksOfParts(m: Model, kind: string)
    ensures Blocks(SourceItems(m), kind)
         == (if kind == "network_adapters" then [NetworkItem(m.source.common)] else []) + Blocks(LastItems(m), kind)
  {
    var c := m.source.common;
    NoBlocksInFront(kind);
    NoBlocksInHardware(m, kind);
    BlocksAround(ConnectionItems(), MachineItems(m), NetworkItem(c), LoginItems(c), KeyItems(m), kind);
    var front := ConnectionItems() + HardwareItems(m) + KeyItems(m);
    assert SourceItems(m) == front + LastItems(m);
    BlocksAppend(front, LastItems(m), kind);
  }

  lemma BlocksOfIso(m: Model, kind: string)
    requires m.source.Iso?
    ensures Blocks(IsoItems(m), kind) == Blocks(DiskItems(m.source.diskGb, m.source.bootWait), kind)
  {
    var disk, http := DiskItems(m.source.diskGb, m.source.bootWait), HttpItems(m.source.httpPort, BootCommand(m));
    NoBlocks(http, kind);
    NoBlocks(InstallerItems(m.installer), kind);
    BlocksAppend(disk + http, InstallerItems(m.installer), kind);
    BlocksAppend(disk, http, kind);
  }

  lemma BlocksInFront(a: Item, b: Item, rest: seq<Item>, kind: string)
    requires a.Block? && b.Block? && forall it <- rest :: it.Attr?
    ensures Blocks([a] + ([b] + rest), kind)
         == (if a.kind == kind then [a] else []) + (if b.kind == kind then [b] else [])
  {
    BlocksCons(a, [b] + rest, kind);
    BlocksCons(b, rest, kind);
    NoBlocks(rest, kind);
  }

  lemma DiskBlocks(m: Model)
    requires m.source.Iso?
    ensures Blocks(IsoItems(m), "disks") == [Disks(m.source.diskGb)] && Blocks(IsoItems(m), "boot_iso") == [BootIso()]
    ensures Blocks(IsoItems(m), "network_adapters") == []
  {
    var rest := [Attr("boot", U("c")), Attr("boot_wait", Lit(m.source.bootWait))];
    var disk := DiskItems(m.source.diskGb, m.source.bootWait);
    assert disk == [BootIso()] + ([Disks(m.source.diskGb)] + rest);
    BlocksInFront(BootIso(), Disks(m.source.diskGb), rest, "disks");
    BlocksInFront(BootIso(), Disks(m.source.diskGb), rest, "boot_iso");
    BlocksInFront(BootIso(), Disks(m.source.diskGb), rest, "network_adapters");
    BlocksOfIso(m, "disks");
    BlocksOfIso(m, "boot_iso");
    BlocksOfIso(m, "network_adapters");
  }

  lemma NetworkBlocks(m: Model)
    ensures Blocks(SourceItems(m), "network_adapters") == [NetworkItem(m.source.common)]
  {
    BlocksOfParts(m, "network_adapters");
    if m.source.Iso? { DiskBlocks(m); } else { NoBlocks(LastItems(m), "network_adapters"); }
  }

  lemma NoKey(m: Model)
    requires m.source.common.sshKeyName == ""
    ensures forall it <- SourceItems(m) :: it.Attr? ==> it.key != "ssh_private_key_file"
  {
    UniqueConnection();
    UniqueHardware(m);
    KeyApart();
    if m.source.Iso? {
      UniqueIso(m);
      IsoApartMore();
    } else {
      UniqueClone(m.source.template, m.source.fullClone);
      CloneApart();
    }
    assert "ssh_private_key_file" in KEY_NAMES;
  }

  lemma NormalNames(items: seq<Item>, key: string)
    requires forall it <- items :: it.Attr? ==> it.key != key
    ensures forall it <- NormalBody(items) :: it.Attr? ==> it.key != key
  {
    NormalAt(items);
    var n := NormalBody(items);
    forall it | it in n && it.Attr? ensures it.key != key {
      var i :| 0 <= i < |n| && n[i] == it;
      assert it == NormalItem(items[i]);
    }
  }

  lemma NoInstaller(m: Model)
    requires m.source.Iso? && m.installer == []
    ensures forall it <- SourceItems(m) :: it.Attr? ==> it.key != "http_content"
  {
    UniqueHead(m);
    IsoApartFromHead();
    var disk, http := DiskItems(m.source.diskGb, m.source.bootWait), HttpItems(m.source.httpPort, BootCommand(m));
    UniqueDisks(m.source.diskGb, m.source.bootWait);
    UniqueHttp(m.source.httpPort, BootCommand(m));
    BootApart();
    assert "http_content" in HTTP_NAMES;
    assert SourceItems(m) == ConnectionItems() + HardwareItems(m) + KeyItems(m) + (disk + http + []);
  }

  lemma DisksSay(m: Model)
    requires m.source.Iso?
    ensures SaysDisk(Blocks(NormalBody(SourceItems(m)), "disks"), m.source.diskGb)
    ensures SaysBootIso(Blocks(NormalBody(SourceItems(m)), "boot_iso"))
  {
    DiskBlocks(m);
    BlocksOfParts(m, "disks");
    BlocksNormal(SourceItems(m), "disks");
    OneNormal(Disks(m.source.diskGb));
    DiskSays(m.source.diskGb);
    BlocksOfParts(m, "boot_iso");
    BlocksNormal(SourceItems(m), "boot_iso");
    OneNormal(BootIso());
    BootIsoSays();
  }

  lemma InstallerPartSays(m: Model)
    requires m.source.Iso?
    ensures SaysInstaller(NormalBody(SourceItems(m)), m.installer)
  {
    if m.installer == [] {
      NoInstaller(m);
      NormalNames(SourceItems(m), "http_content");
    } else {
      IsoParts(m);
      InstallerSays(m.installer);
    }
  }

  lemma IsoParts(m: Model)
    requires m.source.Iso?
    ensures var body := NormalBody(SourceItems(m));
      && PartOf(NormalBody(DiskItems(m.source.diskGb, m.source.bootWait)), body)
      && PartOf(NormalBody(HttpItems(m.source.httpPort, BootCommand(m))), body)
      && PartOf(NormalBody(InstallerItems(m.installer)), body)
  {
    var disk, http := DiskItems(m.source.diskGb, m.source.bootWait), HttpItems(m.source.httpPort, BootCommand(m));
    SourceParts(m);
    NormalAppend(disk + http, InstallerItems(m.installer));
    NormalAppend(disk, http);
  }

  lemma IsoSays(m: Model)
    requires m.source.Iso?
    ensures SaysIso(NormalBody(SourceItems(m)), m)
  {
    IsoParts(m);
    BootSays(m.source.diskGb, m.source.bootWait);
    HttpSays(m.source.httpPort, BootCommand(m));
    DisksSay(m);
    InstallerPartSays(m);
  }

  lemma NetworkPartSays(m: Model)
    ensures SaysNetwork(Blocks(NormalBody(SourceItems(m)), "network_adapters"), m.source.common)
  {
    NetworkBlocks(m);
    BlocksNormal(SourceItems(m), "network_adapters");
    OneNormal(NetworkItem(m.source.common));
    NetworkSays(m.source.common);
  }

  lemma KeyPartSays(m: Model)
    requires Accepted(m) && !EndsInBreak(m.source.common.sshKeyName)
    ensures SaysKey(NormalBody(SourceItems(m)), m.source.common.sshKeyName)
  {
    if m.source.common.sshKeyName == "" {
      NoKey(m);
      NormalNames(SourceItems(m), "ssh_private_key_file");
    } else {
      SourceParts(m);
      KeySays(m.source.common.sshKeyName);
    }
  }

  lemma FieldsSay(m: Model, body: seq<Item>)
    requires PartOf(NormalBody(ConnectionItems()), body) && PartOf(NormalBody(MachineItems(m)), body)
    requires PartOf(NormalBody(LoginItems(m.source.common)), body)
    ensures SaysConnection(body) && SaysMachine(body, m) && SaysLogin(body, m.source.common)
  {
    ConnectionSays();
    MachineSays(m);
    LoginSays(m.source.common);
  }

  lemma LastSays(m: Model)
    ensures var body := NormalBody(SourceItems(m));
      if m.source.Clone? then SaysClone(body, m.source.template, m.source.fullClone) else SaysIso(body, m)
  {
    if m.source.Iso? {
      IsoSays(m);
    } else {
      SourceParts(m);
      CloneSays(m.source.template, m.source.fullClone);
    }
  }

  lemma SourceSays(m: Model)
    requires Accepted(m) && !EndsInBreak(m.source.common.sshKeyName)
    ensures SaysSource(NormalBody(SourceItems(m)), m)
  {
    UniqueSource(m);
    UniqueNormal(SourceItems(m));
    SourceParts(m);
    FieldsSay(m, NormalBody(SourceItems(m)));
    NetworkPartSays(m);
    KeyPartSays(m);
    LastSays(m);
  }


  // --------------------------------------------------------------- provisioners

  lemma OneLabelStays(t: string)
    requires Plain(t)
    ensures NormalLabels([CodePoints(t)]) == [CodePoints(t)]
  {
    PlainStays(t);
    assert [CodePoints(t)][1..] == [];
  }

  lemma VarsSay(vars: seq<(Str, Str)>)
    ensures SaysVars(AllSaid(ExtraArguments(vars)), vars)
  {
    ArgumentCount(vars);
    forall i | 0 <= i < |vars| ensures SaysVar(AllSaid(ExtraArguments(vars)), 2 * i, vars[i]) { VarAt(vars, i); }
  }

  lemma {:induction false} ArgumentCount(vars: seq<(Str, Str)>)
    ensures |ExtraArguments(vars)| == 2 * |vars|
  {
    if vars != [] { ArgumentCount(vars[1..]); }
  }

  lemma ArgumentsCons(vars: seq<(Str, Str)>)
    requires vars != []
    ensures ExtraArguments(vars)
         == [CodePoints("--extra-vars"), vars[0].0 + CodePoints("=") + vars[0].1] + ExtraArguments(vars[1..])
  {
  }

  lemma {:induction false} VarAt(vars: seq<(Str, Str)>, i: nat)
    requires i < |vars|
    ensures SaysVar(AllSaid(ExtraArguments(vars)), 2 * i, vars[i])
  {
    var a, b, tail := CodePoints("--extra-vars"), vars[0].0 + CodePoints("=") + vars[0].1, ExtraArguments(vars[1..]);
    ArgumentsCons(vars);
    if i == 0 {
      VarHere(tail, vars[0]);
    } else {
      VarAt(vars[1..], i - 1);
      VarLater(a, b, tail, 2 * (i - 1), vars[i]);
    }
  }

  lemma VarHere(tail: seq<Str>, v: (Str, Str))
    ensures SaysVar(AllSaid([CodePoints("--extra-vars"), v.0 + CodePoints("=") + v.1] + tail), 0, v)
  {
    PlainStays("--extra-vars");
  }

  lemma VarLater(a: Str, b: Str, tail: seq<Str>, k: nat, v: (Str, Str))
    requires SaysVar(AllSaid(tail), k, v)
    ensures SaysVar(AllSaid([a, b] + tail), k + 2, v)
  {
    var all := AllSaid([a, b] + tail);
    assert all[k + 2] == AllSaid(tail)[k] && all[k + 3] == AllSaid(tail)[k + 1];
  }

  lemma ScriptSays(script: Str, content: Str)
    ensures SaysProvisioner(NormalItem(ProvisionerItem(ShellScript(script, content))), ShellScript(script, content))
  {
    var it := ProvisionerItem(ShellScript(script, content));
    OneLabelStays("shell");
    Carries(it.body, "script", Lit(CodePoints("files/") + script));
    UniqueNormal(it.body);
  }

  lemma InlineSays(lines: seq<Str>)
    ensures SaysProvisioner(NormalItem(ProvisionerItem(ShellInline(lines))), ShellInline(lines))
  {
    var it := ProvisionerItem(ShellInline(lines));
    OneLabelStays("shell");
    Carries(it.body, "inline", List(Lits(lines)));
    NormalLits(lines);
    UniqueNormal(it.body);
  }

  lemma FileCopySays(source: Str, content: Str, destination: Str)
    ensures var p := FileCopy(source, content, destination); SaysProvisioner(NormalItem(ProvisionerItem(p)), p)
  {
    var it := ProvisionerItem(FileCopy(source, content, destination));
    OneLabelStays("file");
    Carries(it.body, "source", Lit(CodePoints("files/") + source));
    Carries(it.body, "destination", Lit(destination));
    UniqueNormal(it.body);
  }

  lemma ArgumentsSay(body: seq<Item>, vars: seq<(Str, Str)>)
    requires Attr("extra_arguments", List(Lits(ExtraArguments(vars)))) in body
    ensures exists vs :: Attr("extra_arguments", List(vs)) in NormalBody(body) && SaysVars(vs, vars)
  {
    Carries(body, "extra_arguments", List(Lits(ExtraArguments(vars))));
    NormalLits(ExtraArguments(vars));
    VarsSay(vars);
    assert Attr("extra_arguments", List(AllSaid(ExtraArguments(vars)))) in NormalBody(body);
  }

  lemma AnsibleBodySays(body: seq<Item>, playbook: Str, vars: seq<(Str, Str)>)
    requires body == [Attr("playbook_file", Lit(CodePoints("files/") + playbook))]
      + (if vars == [] then [] else [Attr("extra_arguments", List(Lits(ExtraArguments(vars))))])
    ensures var b := NormalBody(body);
      && Unique(b) && Attr("playbook_file", Said(CodePoints("files/") + playbook)) in b
      && (vars == [] ==> |b| == 1)
      && (vars != [] ==> exists vs :: Attr("extra_arguments", List(vs)) in b && SaysVars(vs, vars))
  {
    NormalAt(body);
    Carries(body, "playbook_file", Lit(CodePoints("files/") + playbook));
    UniqueNormal(body);
    if vars != [] {
      assert body[1] == Attr("extra_arguments", List(Lits(ExtraArguments(vars))));
      ArgumentsSay(body, vars);
    }
  }

  lemma AnsibleSays(playbook: Str, content: Str, vars: seq<(Str, Str)>)
    ensures var p := Ansible(playbook, content, vars); SaysProvisioner(NormalItem(ProvisionerItem(p)), p)
  {
    OneLabelStays("ansible");
    AnsibleBodySays(ProvisionerItem(Ansible(playbook, content, vars)).body, playbook, vars);
  }

  lemma ProvisionerSays(p: Provisioner)
    ensures SaysProvisioner(NormalItem(ProvisionerItem(p)), p)
  {
    match p
    case ShellScript(script, content) => ScriptSays(script, content);
    case ShellInline(lines) => InlineSays(lines);
    case FileCopy(source, content, destination) => FileCopySays(source, content, destination);
    case Ansible(playbook, content, vars) => AnsibleSays(playbook, content, vars);
  }

  lemma ProvisionersSay(ps: seq<Provisioner>)
    ensures SaysProvisioners(NormalBody(ProvisionerItems(ps)), ps)
  {
    NormalAt(ProvisionerItems(ps));
    forall i | 0 <= i < |ps| ensures SaysProvisioner(NormalBody(ProvisionerItems(ps))[i], ps[i]) {
      ProvisionerSays(ps[i]);
    }
  }

  // ------------------------------------------------------------------ whole files

  lemma CodePointsJoin(a: string, b: string)
    ensures CodePoints(a) + CodePoints(b) == CodePoints(a + b)
  {
  }

  lemma PlainType(m: Model)
    ensures Plain(TypeName(m)) && Plain("source.") && Plain(".builder") && Plain("builder")
    ensures SourceType(m) == CodePoints(TypeName(m))
  {
  }

  lemma PlainJoin(a: string, b: string)
    requires Plain(a) && Plain(b)
    ensures Plain(a + b)
  {
  }

  lemma OneElement(t: string)
    requires Plain(t)
    ensures NormalValue(List([Lit(CodePoints(t))])) == List([Lit(CodePoints(t))])
  {
    PlainStays(t);
    NormalLits([CodePoints(t)]);
    assert Lits([CodePoints(t)]) == [Lit(CodePoints(t))];
    assert AllSaid([CodePoints(t)]) == [Lit(CodePoints(t))];
  }

  lemma SourceNameSays(m: Model)
    ensures NormalValue(List([Lit(CodePoints("source.") + SourceType(m) + CodePoints(".builder"))]))
         == List([Lit(CodePoints("source." + TypeName(m) + ".builder"))])
  {
    PlainType(m);
    CodePointsJoin("source.", TypeName(m));
    CodePointsJoin("source." + TypeName(m), ".builder");
    PlainJoin("source.", TypeName(m));
    PlainJoin("source." + TypeName(m), ".builder");
    OneElement("source." + TypeName(m) + ".builder");
  }

  function BuildHead(m: Model): seq<Item>
  {
    [Attr("name", Lit(m.id)),
     Attr("sources", List([Lit(CodePoints("source.") + SourceType(m) + CodePoints(".builder"))]))]
  }

  lemma BuildHeadSays(m: Model)
    ensures var body := NormalBody(BuildHead(m));
      && Attr("name", Said(m.id)) in body
      && Attr("sources", List([Lit(CodePoints("source." + TypeName(m) + ".builder"))])) in body
    ensures Unique(BuildHead(m)) && Within(BuildHead(m), {"name", "sources"})
    ensures Blocks(BuildHead(m), "provisioner") == []
  {
    var head := BuildHead(m);
    Carries(head, "name", Lit(m.id));
    Carries(head, "sources", List([Lit(CodePoints("source.") + SourceType(m) + CodePoints(".builder"))]));
    SourceNameSays(m);
    NoBlocks(head, "provisioner");
  }

  lemma BuildSays(m: Model)
    ensures var body := NormalBody(BuildItem(m).body);
      && Unique(body) && Attr("name", Said(m.id)) in body
      && Attr("sources", List([Lit(CodePoints("source." + TypeName(m) + ".builder"))])) in body
      && SaysProvisioners(Blocks(body, "provisioner"), m.provisioners)
  {
    BuildHeadSays(m);
    assert BuildItem(m).body == BuildHead(m) + ProvisionerItems(m.provisioners);
    HeadAndProvisioners(BuildHead(m), m.provisioners);
  }

  lemma UniqueBuild(head: seq<Item>, blocks: seq<Item>)
    requires Unique(head) && Within(head, {"name", "sources"}) && forall it <- blocks :: it.Block?
    ensures Unique(NormalBody(head + blocks))
  {
    assert forall i :: 0 <= i < |blocks| ==> blocks[i] in blocks;
    UniqueAppend(head, blocks, {"name", "sources"}, {});
    UniqueNormal(head + blocks);
  }

  lemma BuildBlocks(head: seq<Item>, blocks: seq<Item>)
    requires Blocks(head, "provisioner") == [] && Blocks(blocks, "provisioner") == blocks
    ensures Blocks(NormalBody(head + blocks), "provisioner") == NormalBody(blocks)
  {
    BlocksAppend(head, blocks, "provisioner");
    assert [] + blocks == blocks;
    BlocksNormal(head + blocks, "provisioner");
  }

  lemma ProvisionerKinds(ps: seq<Provisioner>)
    ensures forall it <- ProvisionerItems(ps) :: it.Block? && it.kind == "provisioner"
  {
  }

  lemma HeadAndProvisioners(head: seq<Item>, ps: seq<Provisioner>)
    requires Unique(head) && Within(head, {"name", "sources"}) && Blocks(head, "provisioner") == []
    ensures var body := NormalBody(head + ProvisionerItems(ps));
      Unique(body) && PartOf(NormalBody(head), body) && SaysProvisioners(Blocks(body, "provisioner"), ps)
  {
    var blocks := ProvisionerItems(ps);
    NormalAppend(head, blocks);
    ProvisionerKinds(ps);
    OnlyBlocks(blocks, "provisioner");
    UniqueBuild(head, blocks);
    BuildBlocks(head, blocks);
    ProvisionersSay(ps);
  }

  lemma BlocksOfFour(plugin: Item, variables: seq<Item>, source: Item, build: Item, kind: string)
    requires plugin.Block? && source.Block? && build.Block? && plugin.kind != kind
    ensures Blocks([plugin] + variables + [source] + [build], kind)
         == Blocks(variables, kind) + ((if source.kind == kind then [source] else [])
                                       + (if build.kind == kind then [build] else []))
  {
    assert [plugin] + variables + [source] + [build] == [plugin] + (variables + ([source] + [build]));
    BlocksCons(plugin, variables + ([source] + [build]), kind);
    BlocksAppend(variables, [source] + [build], kind);
    BlocksCons(source, [build], kind);
    BlocksCons(build, [], kind);
    assert [build] + [] == [build];
  }

  lemma VariableKinds(m: Model)
    ensures forall it <- VariableBlocks(m) :: it.Block? && it.kind == "variable"
  {
  }

  lemma TopBlocks(m: Model)
    ensures Blocks(TopItems(m), "variable") == VariableBlocks(m)
    ensures Blocks(TopItems(m), "source") == [SourceItem(m)] && Blocks(TopItems(m), "build") == [BuildItem(m)]
  {
    var variables := VariableBlocks(m);
    VariableKinds(m);
    BlocksOfFour(PluginItem(), variables, SourceItem(m), BuildItem(m), "variable");
    BlocksOfFour(PluginItem(), variables, SourceItem(m), BuildItem(m), "source");
    BlocksOfFour(PluginItem(), variables, SourceItem(m), BuildItem(m), "build");
    OnlyBlocks(variables, "variable");
    NoBlocks(variables, "source");
    NoBlocks(variables, "build");
  }

  // ------------------------------------------------------------------ the variables

  /** What the generator is given for the default of a variable. */
  function ValuesOf(default: Default): seq<Value>
  {
    match default case Required => [] case Given(text) => [U(text)]
  }

  predicate PlainDefault(default: Default)
  {
    default.Given? ==> Plain(default.text)
  }

  lemma UniqueVariable(name: string, default: Default, sensitive: bool)
    ensures Unique(VariableBlock(name, ValuesOf(default), sensitive).body)
  {
  }

  lemma DefaultSays(name: string, default: Default, sensitive: bool)
    requires PlainDefault(default)
    ensures var body := NormalBody(VariableBlock(name, ValuesOf(default), sensitive).body);
      match default
      case Required => forall it <- body :: it.Attr? ==> it.key != "default"
      case Given(text) => Attr("default", Lit(CodePoints(text))) in body
  {
    var items := VariableBlock(name, ValuesOf(default), sensitive).body;
    if default.Given? { CarriesText(items, "default", default.text); } else { NormalNames(items, "default"); }
  }

  lemma SensitiveSays(name: string, default: Default, sensitive: bool)
    ensures Attr("sensitive", Bool(true)) in NormalBody(VariableBlock(name, ValuesOf(default), sensitive).body)
       <==> sensitive
  {
    var items := VariableBlock(name, ValuesOf(default), sensitive).body;
    if sensitive { Carries(items, "sensitive", Bool(true)); }
    else { NormalNames(items, "sensitive"); }
  }

  lemma VariableSays(name: string, default: Default, sensitive: bool)
    requires Plain(name) && PlainDefault(default)
    ensures SaysVariable(NormalItem(VariableBlock(name, ValuesOf(default), sensitive)), (name, sensitive, default))
  {
    OneLabelStays(name);
    DefaultSays(name, default, sensitive);
    SensitiveSays(name, default, sensitive);
    UniqueVariable(name, default, sensitive);
    UniqueNormal(VariableBlock(name, ValuesOf(default), sensitive).body);
  }

  predicate SayEach(blocks: seq<Item>, vs: seq<(string, bool, Default)>)
  {
    |blocks| == |vs| && forall i :: 0 <= i < |vs| ==> SaysVariable(NormalItem(blocks[i]), vs[i])
  }

  lemma SayEachAppend(a: seq<Item>, b: seq<Item>, x: seq<(string, bool, Default)>, y: seq<(string, bool, Default)>)
    requires SayEach(a, x) && SayEach(b, y)
    ensures SayEach(a + b, x + y)
  {
  }

  /** A variable block stands where its name does. */
  lemma Stands(blocks: seq<Item>, i: nat, name: string, default: Default, sensitive: bool)
    requires i < |blocks| && blocks[i] == VariableBlock(name, ValuesOf(default), sensitive)
    requires Plain(name) && PlainDefault(default)
    requires i < |VARIABLES| && VARIABLES[i] == (name, sensitive, default)
    ensures SaysVariable(NormalItem(blocks[i]), VARIABLES[i])
  {
    VariableSays(name, default, sensitive);
  }

  lemma ApiVariableSays(m: Model, i: nat)
    requires i < 5
    ensures SaysVariable(NormalItem(VariableBlocks(m)[i]), VARIABLES[i])
  {
    ApiNames();
    match i
    case 0 => Stands(VariableBlocks(m), 0, "proxmox_api_url", Required, false);
    case 1 => Stands(VariableBlocks(m), 1, "proxmox_api_token_id", Given(""), false);
    case 2 => Stands(VariableBlocks(m), 2, "proxmox_api_token_secret", Given(""), true);
    case 3 => Stands(VariableBlocks(m), 3, "proxmox_api_user", Given(""), false);
    case 4 => Stands(VariableBlocks(m), 4, "proxmox_api_password", Given(""), true);
  }

  lemma TargetVariableSays(m: Model, i: nat)
    requires 5 <= i < 10
    ensures SaysVariable(NormalItem(VariableBlocks(m)[i]), VARIABLES[i])
  {
    MachineNames();
    match i
    case 5 => Stands(VariableBlocks(m), 5, "vm_id", Required, false);
    case 6 => Stands(VariableBlocks(m), 6, "vm_name", Required, false);
    case 7 => Stands(VariableBlocks(m), 7, "node", Required, false);
    case 8 => Stands(VariableBlocks(m), 8, "storage_pool", Given("local-lvm"), false);
    case 9 => Stands(VariableBlocks(m), 9, "packer_http_ip", Given(""), false);
  }

  lemma IsoVariableSays(m: Model)
    ensures SayEach(VariableBlocks(m)[10..], if m.source.Iso? then [("iso_file", false, Required)] else [])
  {
    MachineNames();
    VariableSays("iso_file", Required, false);
  }

  lemma VariablesSay(m: Model)
    ensures SaysVariables(NormalBody(VariableBlocks(m)), m.source.Iso?)
  {
    var blocks, iso := VariableBlocks(m), if m.source.Iso? then [("iso_file", false, Required)] else [];
    IsoVariableSays(m);
    forall i | 0 <= i < 10 ensures SaysVariable(NormalItem(blocks[i]), VARIABLES[i]) {
      if i < 5 { ApiVariableSays(m, i); } else { TargetVariableSays(m, i); }
    }
    FirstOnes(blocks, VARIABLES);
    SayEachAppend(blocks[..10], blocks[10..], VARIABLES, iso);
    assert blocks == blocks[..10] + blocks[10..];
    NormalAt(blocks);
  }

  lemma FirstOnes(blocks: seq<Item>, vs: seq<(string, bool, Default)>)
    requires |vs| <= |blocks| && forall i :: 0 <= i < |vs| ==> SaysVariable(NormalItem(blocks[i]), vs[i])
    ensures SayEach(blocks[..|vs|], vs)
  {
  }

  // ---------------------------------------------------------------- the whole file

  lemma LabelsSay(m: Model)
    ensures NormalLabels([SourceType(m), CodePoints("builder")]) == [CodePoints(TypeName(m)), CodePoints("builder")]
  {
    PlainType(m);
    PlainStays(TypeName(m));
    OneLabelStays("builder");
    var labels := [CodePoints(TypeName(m)), CodePoints("builder")];
    assert labels[1..] == [CodePoints("builder")];
  }

  lemma TreeDescribes(m: Model)
    requires Accepted(m) && !EndsInBreak(m.source.common.sshKeyName)
    ensures Describes(NormalBody(TopItems(m)), m)
  {
    TopBlocks(m);
    BlocksNormal(TopItems(m), "variable");
    BlocksNormal(TopItems(m), "source");
    BlocksNormal(TopItems(m), "build");
    OneNormal(SourceItem(m));
    OneNormal(BuildItem(m));
    VariablesSay(m);
    LabelsSay(m);
    SourceSays(m);
    BuildSays(m);
  }

  /** Whatever can be read of the generated text describes the model: the attribute of
      each name carries the field that is meant, in the one block of its kind, and the
      provisioners stand in their order. */
  lemma GeneratedTextDescribes(d: Dialect, m: Model)
    requires Accepted(m) && ReadDocument(d, Document(TopItems(m))).Done?
    ensures Describes(ReadDocument(d, Document(TopItems(m))).value, m)
  {
    GeneratedFileReadsBackIff(d, m);
    TreeDescribes(m);
  }

  // --------------------------------------------------------- the default key strokes

  predicate StandsAt(line: Str, i: nat, address: string)
  {
    i + |address| <= |line| && line[i..i + |address|] == CodePoints(address)
  }

  predicate Tells(line: Str, address: string)
  {
    exists i: nat | i <= |line| :: StandsAt(line, i, address)
  }

  lemma TellsBetween(before: string, address: string, after: string)
    ensures Tells(CodePoints(before + address + after), address)
  {
    var line := before + address + after;
    assert line[|before|..|before| + |address|] == address;
    SliceOfPoints(line, |before|, |before| + |address|);
    assert StandsAt(CodePoints(line), |before|, address);
  }

  lemma SliceOfPoints(t: string, i: nat, j: nat)
    requires i <= j <= |t|
    ensures CodePoints(t)[i..j] == CodePoints(t[i..j])
  {
  }

  lemma TellsFile(before: string, root: string, file: string, after: string, end: string)
    requires end == file + after
    ensures Tells(CodePoints(before + root + end), root + file)
  {
    assert before + root + end == before + (root + file) + after;
    TellsBetween(before, root + file, after);
  }

  lemma PreseedFetches()
    ensures Tells(DefaultBootCommand(DebianPreseed)[4], HTTP_ROOT + "preseed.cfg")
  {
    TellsFile("preseed/url=", HTTP_ROOT, "preseed.cfg", " ", "preseed.cfg ");
  }

  lemma KickstartFetches()
    ensures Tells(DefaultBootCommand(RhelKickstart)[2], HTTP_ROOT + "kickstart.cfg")
  {
    TellsFile(" inst.text inst.ks=", HTTP_ROOT, "kickstart.cfg", "", "kickstart.cfg");
  }

  lemma NocloudFetches()
    ensures Tells(DefaultBootCommand(UbuntuAutoinstall)[1], HTTP_ROOT)
  {
    TellsBetween("linux /casper/vmlinuz autoinstall ds=\"nocloud-net;s=", HTTP_ROOT, "\"<enter><wait>");
  }

  /** The address under which the files of a profile are served: that of its one file,
      or the directory of both. */
  function Address(p: Profile): string
  {
    match p
    case DebianPreseed => HTTP_ROOT + "preseed.cfg"
    case RhelKickstart => HTTP_ROOT + "kickstart.cfg"
    case UbuntuAutoinstall => HTTP_ROOT
  }

  /** It is told to the installer in one of the default key strokes. */
  lemma KeyStrokesFetch(p: Profile)
    ensures exists line <- DefaultBootCommand(p) :: Tells(line, Address(p))
  {
    var lines := DefaultBootCommand(p);
    match p
    case DebianPreseed => PreseedFetches(); assert lines[4] in lines;
    case RhelKickstart => KickstartFetches(); assert lines[2] in lines;
    case UbuntuAutoinstall => NocloudFetches(); assert lines[1] in lines;
  }

  /** `stack_to_hcl`. The raw override is returned verbatim, any other text describes the
      model in whichever dialect it can be read; the files are built in either case. */
  method Generate(m: Model, installerText: Str) returns (text: string, files: map<Path, Str>)
    requires Accepted(m)
    ensures m.hclOverride && !Blank(m.hclContent) ==> text == m.hclContent
    ensures !(m.hclOverride && !Blank(m.hclContent)) ==>
      forall d: Dialect :: ReadDocument(d, text).Done? ==> Describes(ReadDocument(d, text).value, m)
    ensures Holds(files, m, installerText)
  {
    files := BuildSideFiles(m, installerText);
    text := StackToHcl(m);
    if !(m.hclOverride && !Blank(m.hclContent)) {
      forall d: Dialect | ReadDocument(d, text).Done? ensures Describes(ReadDocument(d, text).value, m) {
        GeneratedTextDescribes(d, m);
      }
    }
  }

}
