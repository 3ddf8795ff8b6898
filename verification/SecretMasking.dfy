/** Splitting a payload into a masked public part and its secrets, and merging it back. */
module SecretMasking {
  import opened Options
  import opened Sets
  import opened Text

  /** A JSON value; booleans and nested values are opaque. */
  datatype Val = Null | Str(text: string) | Num(value: int) | Other(token: int)

  type Payload = map<string, Val>

  /** A field of `meta.yaml`. */
  datatype Meta = Meta(id: string, kind: string, sensitive: bool)

  const MASKED: Val := Str("__secret__")

  const WORDS: seq<string> :=
    ["password", "passwd", "kennwort", "passwort", "ssh_key", "private_key", "token", "secret", "geheim"]

  predicate SensitiveKind(kind: string)
  {
    kind == "password" || kind == "ssh_key" || kind == "secret"
  }

  predicate NamesSecret(name: string)
  {
    exists word <- WORDS :: Contains(Lower(name), word)
  }

  /** `_is_sensitive_field` */
  predicate Sensitive(name: string, meta: Option<Meta>)
  {
    NamesSecret(name) || (meta.Some? && (SensitiveKind(meta.value.kind) || meta.value.sensitive))
  }

  /** The last field of a name counts; fields without a name do not. */
  function MetaOf(fields: seq<Meta>, name: string): Option<Meta>
  {
    if fields == [] || name == "" then None
    else if fields[|fields| - 1].id == name then Some(fields[|fields| - 1])
    else MetaOf(fields[..|fields| - 1], name)
  }

  predicate Hidden(name: string, value: Val, fields: seq<Meta>)
  {
    Sensitive(name, MetaOf(fields, name)) && value != Null && value != Str("")
  }

  function PublicPart(p: Payload, fields: seq<Meta>): Payload
  {
    map k <- p :: if Hidden(k, p[k], fields) then MASKED else p[k]
  }

  function SecretPart(p: Payload, fields: seq<Meta>): Payload
  {
    map k <- p | Hidden(k, p[k], fields) :: p[k]
  }

  /** `split_payload` */
  method SplitPayload(p: Payload, fields: seq<Meta>) returns (visible: Payload, secrets: Payload)
    ensures visible == PublicPart(p, fields) && secrets == SecretPart(p, fields)
  {
    visible, secrets := map[], map[];
    var todo := p.Keys;
    while todo != {}
      invariant todo <= p.Keys
      invariant visible.Keys == p.Keys - todo && secrets.Keys <= p.Keys - todo
      invariant forall k <- visible :: visible[k] == if Hidden(k, p[k], fields) then MASKED else p[k]
      invariant forall k <- p.Keys - todo :: k in secrets <==> Hidden(k, p[k], fields)
      invariant forall k <- secrets :: secrets[k] == p[k]
      decreases todo
    {
      var k := Pick(todo);
      todo := todo - {k};
      if Hidden(k, p[k], fields) {
        visible, secrets := visible[k := MASKED], secrets[k := p[k]];
      } else {
        visible := visible[k := p[k]];
      }
    }
  }

  /** The last field of a name. */
  predicate LastOf(fields: seq<Meta>, i: nat, name: string)
  {
    i < |fields| && fields[i].id == name && forall j: nat :: i < j < |fields| ==> fields[j].id != name
  }

  lemma {:induction false} MetaOfIsLast(fields: seq<Meta>, name: string)
    ensures name == "" ==> MetaOf(fields, name) == None
    ensures forall i: nat :: name != "" && LastOf(fields, i, name) ==> MetaOf(fields, name) == Some(fields[i])
    ensures MetaOf(fields, name).Some? ==> exists i: nat :: LastOf(fields, i, name)
  {
    if fields != [] && name != "" {
      var n := |fields| - 1;
      if fields[n].id == name {
        assert LastOf(fields, n, name);
        forall i: nat | LastOf(fields, i, name) ensures i == n { }
      } else {
        MetaOfIsLast(fields[..n], name);
        forall i: nat | LastOf(fields, i, name) ensures LastOf(fields[..n], i, name) { }
        if MetaOf(fields[..n], name).Some? {
          var i: nat :| LastOf(fields[..n], i, name);
          assert LastOf(fields, i, name);
        }
      }
    }
  }

  /** A name that gives a secret away. */
  predicate TellingName(name: string)
  {
    var lower := Lower(name);
    Contains(lower, "password") || Contains(lower, "passwd") || Contains(lower, "kennwort")
    || Contains(lower, "passwort") || Contains(lower, "ssh_key") || Contains(lower, "private_key")
    || Contains(lower, "token") || Contains(lower, "secret") || Contains(lower, "geheim")
  }

  predicate SaysSecret(field: Meta)
  {
    field.sensitive || field.kind == "password" || field.kind == "ssh_key" || field.kind == "secret"
  }

  /** A field that the metadata declares secret, by its type or by a flag of its own. */
  predicate DeclaredSecret(fields: seq<Meta>, name: string)
  {
    name != "" && exists i :: 0 <= i < |fields| && LastOf(fields, i, name) && SaysSecret(fields[i])
  }

  lemma AnyOfNine(words: seq<string>, f: string -> bool)
    requires |words| == 9
    ensures (exists word <- words :: f(word)) <==>
      f(words[0]) || f(words[1]) || f(words[2]) || f(words[3]) || f(words[4]) || f(words[5]) || f(words[6])
      || f(words[7]) || f(words[8])
  {
  }

  function In(text: string): string -> bool
  {
    (word: string) => Contains(text, word)
  }

  lemma TellingNameIff(name: string)
    ensures NamesSecret(name) <==> TellingName(name)
  {
    AnyOfNine(WORDS, In(Lower(name)));
    assert NamesSecret(name) <==> exists word <- WORDS :: In(Lower(name))(word);
  }

  /** Exactly the non-empty values of telling or declared names are taken out of the
      public part, where the mask stands for them. */
  lemma MaskedIff(p: Payload, fields: seq<Meta>, k: string)
    requires k in p
    ensures k in SecretPart(p, fields) <==>
      p[k] != Null && p[k] != Str("") && (TellingName(k) || DeclaredSecret(fields, k))
    ensures PublicPart(p, fields)[k] == if k in SecretPart(p, fields) then Str("__secret__") else p[k]
    ensures k in SecretPart(p, fields) ==> SecretPart(p, fields)[k] == p[k]
  {
    TellingNameIff(k);
    MetaOfIsLast(fields, k);
  }

  /** `merge_payload` */
  function Merge(visible: Payload, secrets: Payload): Payload
  {
    visible + secrets
  }

  /** Merging what was split gives the payload back, whatever the field metadata. */
  lemma SplitThenMerge(p: Payload, fields: seq<Meta>)
    ensures Merge(PublicPart(p, fields), SecretPart(p, fields)) == p
  {
    var m := Merge(PublicPart(p, fields), SecretPart(p, fields));
    assert m.Keys == p.Keys;
  }

  /** `encrypt_secrets` and `decrypt_secrets`: the key inverts, and an empty
      dictionary has no blob. */
  function Encrypt(secrets: Payload): Option<Payload>
  {
    if secrets == map[] then None else Some(secrets)
  }

  function Decrypt(blob: Option<Payload>): Payload
  {
    if blob.Some? then blob.value else map[]
  }

  /** What a handler is given for a stored public payload and blob. */
  function Full(visible: Payload, blob: Option<Payload>): Payload
  {
    Merge(visible, Decrypt(blob))
  }

  lemma StoredIsFull(p: Payload, fields: seq<Meta>)
    ensures Full(PublicPart(p, fields), Encrypt(SecretPart(p, fields))) == p
  {
    SplitThenMerge(p, fields);
  }

  /** Without its blob a payload is the submitted one exactly if every secret was
      itself the mask. */
  lemma WithoutBlobIff(p: Payload, fields: seq<Meta>)
    ensures Full(PublicPart(p, fields), None) == p
       <==> forall k <- p :: Hidden(k, p[k], fields) ==> p[k] == MASKED
  {
    var m := Full(PublicPart(p, fields), None);
    assert m == PublicPart(p, fields);
    if forall k <- p :: Hidden(k, p[k], fields) ==> p[k] == MASKED {
      assert m.Keys == p.Keys;
    } else {
      var k :| k in p && Hidden(k, p[k], fields) && p[k] != MASKED;
      assert m[k] == MASKED;
    }
  }
}
