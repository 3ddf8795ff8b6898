/** `_build_side_files`: the files that are stored beside a generated text, and which
    of the places that name a file find what was meant for them. */
module SideFiles {
  import opened JsonString
  import opened Options
  import opened Sets
  import opened Transpile

  /** A file of the definition, in its directory "files" or "http". */
  datatype Path = Files(name: Str) | Http(served: string)

  /** The name and the content of the file that a provisioner brings. */
  function Brings(p: Provisioner): Option<(Str, Str)>
  {
    match p
    case ShellScript(script, content) => if script != [] then Some((script, content)) else None
    case ShellInline(_) => None
    case FileCopy(source, content, _) => Some((source, content))
    case Ansible(playbook, content, _) => Some((playbook, content))
  }

  predicate Writes(p: Provisioner, name: Str)
  {
    Brings(p).Some? && Brings(p).value.0 == name
  }

  predicate Written(ps: seq<Provisioner>, name: Str)
  {
    exists i :: 0 <= i < |ps| && Writes(ps[i], name)
  }

  /** The last of the provisioners that bring a file of this name. */
  predicate LastWriter(ps: seq<Provisioner>, name: Str, i: nat)
  {
    i < |ps| && Writes(ps[i], name) && forall j :: i < j < |ps| ==> !Writes(ps[j], name)
  }

  /** The files that the installer fetches. */
  function Fetched(m: Model): seq<string>
  {
    if m.source.Iso? && m.installer != [] then InstallerNames(m.installer[0]) else []
  }

  /** A provisioner's file goes over a free one, and a later provisioner's over an
      earlier one's. */
  ghost predicate HoldsFiles(files: map<Path, Str>, free: map<Str, Str>, ps: seq<Provisioner>)
  {
    && (forall name: Str :: Files(name) in files <==> name in free || Written(ps, name))
    && (forall name: Str, i: nat :: LastWriter(ps, name, i) ==> files[Files(name)] == Brings(ps[i]).value.1)
    && (forall name <- free :: !Written(ps, name) ==> files[Files(name)] == free[name])
  }

  /** The installer's first file has its text, any other is empty. */
  ghost predicate HoldsFetched(files: map<Path, Str>, names: seq<string>, text: Str)
  {
    && (forall k :: 0 <= k < |names| ==>
          Http(names[k]) in files && files[Http(names[k])] == if k == 0 then text else [])
    && (forall served: string :: Http(served) in files ==> served in names)
  }

  /** What is stored for a model. */
  ghost predicate Holds(files: map<Path, Str>, m: Model, text: Str)
  {
    HoldsFiles(files, m.sideFiles, m.provisioners) && HoldsFetched(files, Fetched(m), text)
  }

  // ------------------------------------------------------------------- the building

  lemma {:induction false} SomeLastWriter(ps: seq<Provisioner>, name: Str) returns (i: nat)
    requires Written(ps, name)
    ensures LastWriter(ps, name, i)
  {
    var n := |ps| - 1;
    if Writes(ps[n], name) {
      i := n;
    } else {
      var j :| 0 <= j < |ps| && Writes(ps[j], name);
      assert ps[..n][j] == ps[j];
      i := SomeLastWriter(ps[..n], name);
    }
  }

  lemma OneLastWriter(ps: seq<Provisioner>, name: Str, i: nat, j: nat)
    requires LastWriter(ps, name, i) && LastWriter(ps, name, j)
    ensures i == j
  {
  }

  /** The free files but those still to come. */
  ghost predicate Stored(files: map<Path, Str>, free: map<Str, Str>, todo: set<Str>)
  {
    && (forall name: Str :: Files(name) in files <==> name in free && name !in todo)
    && (forall name <- free :: name !in todo ==> files[Files(name)] == free[name])
    && (forall served: string :: Http(served) !in files)
  }

  /** The free files come first. */
  method FreeFiles(free: map<Str, Str>) returns (files: map<Path, Str>)
    ensures Stored(files, free, {})
  {
    files := map[];
    var todo := free.Keys;
    while todo != {}
      invariant todo <= free.Keys && Stored(files, free, todo)
      decreases todo
    {
      var name := Pick(todo);
      files := files[Files(name) := free[name]];
      todo := todo - {name};
    }
  }

  /** The installer's files are apart from them. */
  method FetchedFiles(start: map<Path, Str>, free: map<Str, Str>, names: seq<string>, text: Str)
    returns (files: map<Path, Str>)
    requires HoldsFiles(start, free, []) && HoldsFetched(start, [], text)
    requires forall j, k :: 0 <= j < k < |names| ==> names[j] != names[k]
    ensures HoldsFiles(files, free, []) && HoldsFetched(files, names, text)
  {
    files := start;
    for k := 0 to |names|
      invariant HoldsFiles(files, free, [])
      invariant HoldsFetched(files, names[..k], text)
    {
      FetchedMore(files, names, k, text);
      files := files[Http(names[k]) := if k == 0 then text else []];
    }
    assert names[..|names|] == names;
  }

  lemma FetchedMore(files: map<Path, Str>, names: seq<string>, k: nat, text: Str)
    requires k < |names| && forall j :: 0 <= j < k ==> names[j] != names[k]
    requires HoldsFetched(files, names[..k], text)
    ensures HoldsFetched(files[Http(names[k]) := if k == 0 then text else []], names[..k + 1], text)
  {
    assert names[..k + 1] == names[..k] + [names[k]];
    assert forall j :: 0 <= j < k ==> names[..k][j] == names[j];
  }

  lemma WrittenMore(ps: seq<Provisioner>, p: Provisioner, name: Str)
    ensures Written(ps + [p], name) <==> Written(ps, name) || Writes(p, name)
  {
    if Written(ps, name) {
      var i := SomeLastWriter(ps, name);
      assert (ps + [p])[i] == ps[i];
    }
    if Writes(p, name) { assert (ps + [p])[|ps|] == p; }
  }

  lemma LastWriterMore(ps: seq<Provisioner>, p: Provisioner, name: Str, i: nat)
    requires LastWriter(ps + [p], name, i)
    ensures if i == |ps| then Writes(p, name) else LastWriter(ps, name, i) && !Writes(p, name)
  {
    assert (ps + [p])[|ps|] == p;
    if i < |ps| { assert forall j :: 0 <= j < |ps| ==> (ps + [p])[j] == ps[j]; }
  }

  function WithFile(files: map<Path, Str>, brings: Option<(Str, Str)>): map<Path, Str>
  {
    if brings.Some? then files[Files(brings.value.0) := brings.value.1] else files
  }

  /** One provisioner more. */
  lemma FileWritten(files: map<Path, Str>, free: map<Str, Str>, ps: seq<Provisioner>, p: Provisioner)
    requires HoldsFiles(files, free, ps)
    ensures HoldsFiles(WithFile(files, Brings(p)), free, ps + [p])
  {
    var after := WithFile(files, Brings(p));
    forall name: Str ensures Written(ps + [p], name) <==> Written(ps, name) || Writes(p, name) {
      WrittenMore(ps, p, name);
    }
    forall name: Str, i: nat | LastWriter(ps + [p], name, i)
      ensures after[Files(name)] == Brings((ps + [p])[i]).value.1
    {
      LastWriterMore(ps, p, name, i);
    }
  }

  /** `_build_side_files`; `text` is that of the installer's first file. */
  method BuildSideFiles(m: Model, text: Str) returns (files: map<Path, Str>)
    ensures Holds(files, m, text)
  {
    files := FreeFiles(m.sideFiles);
    files := FetchedFiles(files, m.sideFiles, Fetched(m), text);
    files := ProvisionerFiles(files, m.sideFiles, m.provisioners, Fetched(m), text);
  }

  method ProvisionerFiles(start: map<Path, Str>, free: map<Str, Str>, ps: seq<Provisioner>,
    ghost names: seq<string>, ghost text: Str) returns (files: map<Path, Str>)
    requires HoldsFiles(start, free, []) && HoldsFetched(start, names, text)
    ensures HoldsFiles(files, free, ps) && HoldsFetched(files, names, text)
  {
    files := start;
    for i := 0 to |ps|
      invariant HoldsFiles(files, free, ps[..i]) && HoldsFetched(files, names, text)
    {
      FileWritten(files, free, ps[..i], ps[i]);
      assert ps[..i + 1] == ps[..i] + [ps[i]];
      var brings := Brings(ps[i]);
      if brings.Some? {
        var (name, content) := brings.value;
        files := files[Files(name) := content];
      }
    }
    assert ps[..|ps|] == ps;
  }

  // ---------------------------------------------------------- who finds what it meant

  /** Every path of these directories that the text refers to is there: each
      provisioner's and the installer's. */
  lemma ReferencedAreThere(files: map<Path, Str>, m: Model, text: Str)
    requires Holds(files, m, text)
    ensures forall p <- m.provisioners :: Brings(p).Some? ==> Files(Brings(p).value.0) in files
    ensures forall served <- Fetched(m) :: Http(served) in files
  {
    forall p | p in m.provisioners && Brings(p).Some? ensures Files(Brings(p).value.0) in files {
      var i :| 0 <= i < |m.provisioners| && m.provisioners[i] == p;
      assert Writes(m.provisioners[i], Brings(p).value.0);
    }
  }

  /** A provisioner finds its own content exactly if the last one that brings a file of
      this name brings the same. */
  lemma OwnContentIff(files: map<Path, Str>, m: Model, text: Str, i: nat, last: nat)
    requires Holds(files, m, text) && i < |m.provisioners| && Brings(m.provisioners[i]).Some?
    requires LastWriter(m.provisioners, Brings(m.provisioners[i]).value.0, last)
    ensures var (name, content) := Brings(m.provisioners[i]).value;
      Files(name) in files && (files[Files(name)] == content <==> Brings(m.provisioners[last]).value.1 == content)
  {
  }

  /** No two provisioners bring different contents under one name. */
  predicate Agree(ps: seq<Provisioner>)
  {
    forall i, j :: 0 <= i < j < |ps| && Brings(ps[i]).Some? && Brings(ps[j]).Some? ==>
      Brings(ps[i]).value.0 == Brings(ps[j]).value.0 ==> Brings(ps[i]).value.1 == Brings(ps[j]).value.1
  }

  predicate FindsOwn(files: map<Path, Str>, p: Provisioner)
  {
    Brings(p).Some? ==>
      Files(Brings(p).value.0) in files && files[Files(Brings(p).value.0)] == Brings(p).value.1
  }

  /** All provisioners find their own content exactly if no two of them disagree on a name. */
  lemma AllOwnIff(files: map<Path, Str>, m: Model, text: Str)
    requires Holds(files, m, text)
    ensures Agree(m.provisioners) <==> forall p <- m.provisioners :: FindsOwn(files, p)
  {
    var ps := m.provisioners;
    if Agree(ps) {
      forall i | 0 <= i < |ps| ensures FindsOwn(files, ps[i]) {
        if Brings(ps[i]).Some? {
          assert Writes(ps[i], Brings(ps[i]).value.0);
          var last := SomeLastWriter(ps, Brings(ps[i]).value.0);
          OwnContentIff(files, m, text, i, last);
        }
      }
    }
    if forall p <- ps :: FindsOwn(files, p) {
      assert forall i :: 0 <= i < |ps| ==> FindsOwn(files, ps[i]);
    }
  }

  /** The key file that the source block names is there exactly if the user or a
      provisioner brings it, and it is the user's exactly if no provisioner brings a
      different one. */
  lemma KeyFileIff(files: map<Path, Str>, m: Model, text: Str)
    requires Holds(files, m, text)
    ensures var key, ps := CodePoints(m.source.common.sshKeyName), m.provisioners;
      && (Files(key) in files <==> key in m.sideFiles || Written(ps, key))
      && (key in m.sideFiles ==>
            (files[Files(key)] == m.sideFiles[key] <==>
             forall i: nat :: LastWriter(ps, key, i) ==> Brings(ps[i]).value.1 == m.sideFiles[key]))
  {
    var key := CodePoints(m.source.common.sshKeyName);
    if Written(m.provisioners, key) {
      var last := SomeLastWriter(m.provisioners, key);
      forall i: nat | LastWriter(m.provisioners, key, i) ensures i == last {
        OneLastWriter(m.provisioners, key, i, last);
      }
    }
  }

  /** Two scripts of one name: the first provisioner runs the second one's script. */
  lemma ScriptOverwritten(files: map<Path, Str>, m: Model, text: Str, name: Str, first: Str, second: Str)
    requires Holds(files, m, text) && m.provisioners == [ShellScript(name, first), ShellScript(name, second)]
    requires name != [] && first != second
    ensures Files(name) in files && files[Files(name)] == second
  {
    assert Writes(m.provisioners[1], name);
    assert LastWriter(m.provisioners, name, 1);
  }

  lemma MapsEqual<K, V>(a: map<K, V>, b: map<K, V>)
    requires forall k :: (k in a <==> k in b) && (k in a ==> a[k] == b[k])
    ensures a == b
  {
    assert a.Keys == b.Keys;
  }

  /** The contents are determined: two collections for one model are the same. */
  lemma HeldOnce(a: map<Path, Str>, b: map<Path, Str>, m: Model, text: Str)
    requires Holds(a, m, text) && Holds(b, m, text)
    ensures a == b
  {
    forall path: Path
      ensures path in a <==> path in b
      ensures path in a ==> a[path] == b[path]
    {
      match path
      case Http(_) =>
      case Files(name) =>
        if Written(m.provisioners, name) { var i := SomeLastWriter(m.provisioners, name); }
    }
    MapsEqual(a, b);
  }
}
