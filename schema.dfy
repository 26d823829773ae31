/** The schema store of lib/schema.js: dialect configuration, the store of processed
    schema resources and their aliases, `add` with its recursive `processSchema` walk,
    and `get`, which turns a URL into a frozen view of a stored resource and follows
    references. Fetching a resource that is not stored is not part of this model: such a
    `get` fails with `RetrievalFailed`. */
module Schema {
  import opened Base
  import opened Common
  import Url
  import JsonPointer

  /** A stored, processed resource (a `schemaStore` entry). */
  datatype StoredSchema = StoredSchema(
    id: string,
    schemaVersion: string,
    schema: Json,
    anchors: map<string, string>,
    recursiveAnchors: map<string, string>,
    vocabulary: Json,
    validated: bool)

  /** The four module-level tables. */
  datatype Tables = Tables(
    config: map<string, map<string, Json>>,
    configAlias: map<string, string>,
    resources: map<string, StoredSchema>,
    aliases: map<string, string>)

  /** A frozen schema view (`doc`). `None` stands for an `undefined` field of `nil`. */
  datatype View = View(
    id: string,
    schemaVersion: Option<string>,
    vocabulary: Option<Json>,
    pointer: string,
    schema: Option<Json>,
    recursiveAnchors: map<string, string>,
    validated: bool)

  /** The `nil` view: no id, no pointer, no schema. */
  const Nil := View("", None, None, "", None, map[], false)

  // ---------------------------------------------------------------- configuration

  /** `getConfig(schemaVersion, key)`: the dialect's setting, read through `configAlias`;
      `None` for `undefined`. */
  function GetConfig(t: Tables, schemaVersion: string, key: string): (r: Option<Json>)
    ensures schemaVersion !in t.configAlias && schemaVersion in t.config && key in t.config[schemaVersion]
      ==> r == Some(t.config[schemaVersion][key])
    ensures schemaVersion !in t.configAlias && !(schemaVersion in t.config && key in t.config[schemaVersion]) ==> r == None
    ensures schemaVersion in t.configAlias && t.configAlias[schemaVersion] in t.config
            && key in t.config[t.configAlias[schemaVersion]]
      ==> r == Some(t.config[t.configAlias[schemaVersion]][key])
    ensures schemaVersion in t.configAlias
      && !(t.configAlias[schemaVersion] in t.config && key in t.config[t.configAlias[schemaVersion]])
      ==> r == None
    ensures r.Some? ==> exists v :: v in t.config && key in t.config[v] && r.value == t.config[v][key]
  {
    var configVersion := if schemaVersion in t.configAlias then t.configAlias[schemaVersion] else schemaVersion;
    if configVersion in t.config && key in t.config[configVersion] then Some(t.config[configVersion][key])
    else None
  }

  /** A token setting used as a property name (`schema[idToken]`): an unset token reads
      the property named "undefined". */
  function Token(t: Tables, schemaVersion: string, key: string): string {
    match GetConfig(t, schemaVersion, key)
    case Some(JStr(s)) => s
    case _ => "undefined"
  }

  // ---------------------------------------------------------------- URLs

  /** `safeResolveUrl(contextUrl, url)`: resolves, but refuses a `file` URL reached from a
      non-empty context whose scheme is not `file`. */
  function SafeResolveUrl(contextUrl: string, url: string): (r: Result<string>)
    ensures r.Err? <==> (StripFragment(contextUrl) != "" && Url.GetScheme(Url.Resolve(contextUrl, url)) == "file"
                         && Url.GetScheme(StripFragment(contextUrl)) != "file")
    ensures r.Ok? ==> r.value == Url.Resolve(contextUrl, url)
    ensures r.Err? ==> r.error == FileContextViolation(Url.Resolve(contextUrl, url), contextUrl)
  {
    var resolvedUrl := Url.Resolve(contextUrl, url);
    var contextId := SplitUrl(contextUrl).0;
    if contextId != "" && Url.GetScheme(resolvedUrl) == "file" && Url.GetScheme(contextId) != "file" then
      Err(FileContextViolation(resolvedUrl, contextUrl))
    else Ok(resolvedUrl)
  }

  /** Without a context resource there is nothing to protect: resolution never fails. */
  lemma SafeResolveEmptyContext(contextUrl: string, url: string)
    requires StripFragment(contextUrl) == ""
    ensures SafeResolveUrl(contextUrl, url) == Ok(Url.Resolve(contextUrl, url))
  {
  }

  /** A fragment-only reference never leaves the context resource, so it never fails and
      lands in the same resource with the given fragment. */
  lemma {:induction false} SafeResolveFragment(id: string, fragment: string)
    requires '#' !in id
    ensures SafeResolveUrl(id, "#" + fragment).Ok?
    ensures SplitUrl(SafeResolveUrl(id, "#" + fragment).value) == (id, fragment)
  {
    Url.ResolveFragmentOnly(id, fragment);
    assert SplitUrl(id) == (id, "");
    var r := Url.Resolve(id, "#" + fragment);
    assert r == id + "#" + fragment by {
      assert ("#" + fragment)[0] == '#' && !Url.IsAlpha(("#" + fragment)[0]);
    }
    if id != "" && Url.GetScheme(r) == "file" {
      Url.SchemeOfFragmentExtension(id, fragment);
    }
  }

  // ---------------------------------------------------------------- identification

  /** The `$schema` value, or the default dialect when it is absent or empty, without its
      fragment. */
  function DeclaredVersion(schema: Json, defaultSchemaVersion: string): (v: string)
    ensures '#' !in v
    ensures schema.JObj? && LookupString(schema.props, "$schema").Some? && LookupString(schema.props, "$schema").value != ""
      ==> v == StripFragment(LookupString(schema.props, "$schema").value)
    ensures !(schema.JObj? && LookupString(schema.props, "$schema").Some? && LookupString(schema.props, "$schema").value != "")
      ==> v == StripFragment(defaultSchemaVersion)
  {
    var declared := match schema
      case JObj(props) => (match LookupString(props, "$schema")
                           case Some(s) => if s != "" then s else defaultSchemaVersion
                           case None => defaultSchemaVersion)
      case _ => defaultSchemaVersion;
    StripFragment(declared)
  }

  /** The body's own identifier (`schema[idToken] || ""`). */
  function BodyId(schema: Json, idToken: string): string {
    match schema
    case JObj(props) => (match LookupString(props, idToken) case Some(s) => s case None => "")
    case _ => ""
  }

  /** The external id (the URL the schema was added under, without fragment) and the
      stored id (the body's id resolved against it, without fragment). */
  function IdentifierOf(schema: Json, url: string, idToken: string): (r: Result<(string, string)>)
    ensures r.Err? && r.error == IdentifierUndetermined <==>
      StripFragment(url) == "" && StripFragment(BodyId(schema, idToken)) == ""
    ensures r.Ok? ==> r.value.0 == StripFragment(url) && '#' !in r.value.1
    ensures r.Ok? ==> r.value.1 == StripFragment(Url.Resolve(StripFragment(url), BodyId(schema, idToken)))
  {
    var externalId := StripFragment(url);
    var bodyId := BodyId(schema, idToken);
    if externalId == "" && StripFragment(bodyId) == "" then Err(IdentifierUndetermined)
    else
      var internalUrl :- SafeResolveUrl(externalId, bodyId);
      Ok((externalId, StripFragment(internalUrl)))
  }

  /** A schema without an id of its own is stored under the URL it was added with. */
  lemma IdentifierWithoutBodyId(schema: Json, url: string, idToken: string)
    requires BodyId(schema, idToken) == "" && StripFragment(url) != ""
    ensures IdentifierOf(schema, url, idToken) == Ok((StripFragment(url), StripFragment(url)))
  {
    Url.ResolveEmpty(StripFragment(url));
  }

  /** An id and a URL that are both fragments identify nothing: `{"$id": "#/foo"}` added
      under "#/bar" is refused. */
  lemma IdentifierOfFragmentsOnly()
    ensures IdentifierOf(JObj([("$id", JStr("#/foo"))]), "#/bar", "$id") == Err(IdentifierUndetermined)
  {
    assert SplitUrl("#/bar").0 == "" by { assert "#/bar"[0] == '#'; }
    assert SplitUrl("#/foo").0 == "" by { assert "#/foo"[0] == '#'; }
    assert LookupString([("$id", JStr("#/foo"))], "$id") == Some("#/foo");
  }

  // ---------------------------------------------------------------- processSchema, one node

  /** What `processSchema` does to one object before it descends: either the object is an
      embedded resource (to be added under `target` and replaced by a placeholder for
      `ref`), or it stays with its id, recursive-anchor and anchor keywords consumed. */
  datatype NodeStep =
    | NodeFail(error: Error)
    | Embed(subject: Props, target: string, ref: string)
    | Keep(props: Props, anchor: Option<string>, recursiveAnchor: Option<string>)

  /** The id keyword: resolved against the current resource and deleted; with a combined
      id/anchor keyword, a fragment comes back as the anchor `#fragment`. */
  function IdStep(props: Props, id: string, idToken: string, anchorToken: string): (r: NodeStep)
    ensures r.Keep? ==> r.anchor == None && r.recursiveAnchor == None
    ensures LookupString(props, idToken) == None ==> r == Keep(props, None, None)
    ensures r.Embed? <==>
      LookupString(props, idToken).Some? && SafeResolveUrl(id, LookupString(props, idToken).value).Ok?
      && SplitUrl(SafeResolveUrl(id, LookupString(props, idToken).value).value).0 != id
      && SafeResolveUrl(id, SplitUrl(SafeResolveUrl(id, LookupString(props, idToken).value).value).0).Ok?
    ensures r.Embed? ==>
      r.ref == LookupString(props, idToken).value
      && Ok(r.target) == SafeResolveUrl(id, SplitUrl(SafeResolveUrl(id, r.ref).value).0)
      && (idToken != anchorToken ==> LookupString(r.subject, idToken) == None)
    ensures r.Keep? && LookupString(props, idToken).Some? ==>
      SafeResolveUrl(id, LookupString(props, idToken).value).Ok?
      && SplitUrl(SafeResolveUrl(id, LookupString(props, idToken).value).value).0 == id
  {
    match LookupString(props, idToken)
    case None => Keep(props, None, None)
    case Some(ref) =>
      match SafeResolveUrl(id, ref)
      case Err(e) => NodeFail(e)
      case Ok(resolvedUrl) =>
        var (schemaId, fragment) := SplitUrl(resolvedUrl);
        var deleted := Delete(props, idToken);
        var p := if fragment != "" && idToken == anchorToken then Assign(deleted, anchorToken, JStr("#" + fragment))
                 else deleted;
        if schemaId != id then
          match SafeResolveUrl(id, schemaId)
          case Err(e) => NodeFail(e)
          case Ok(target) => Embed(p, target, ref)
        else Keep(p, None, None)
  }

  /** `$recursiveAnchor`: a string names a recursive anchor `#name` and becomes the anchor;
      in the boolean style, `true` at the resource root registers `#`. */
  function RecursiveAnchorStep(props: Props, pointer: string, anchorToken: string, recursiveAnchorType: Option<Json>)
    : (r: (Props, Option<string>))
  {
    if recursiveAnchorType == Some(JStr("string")) then
      match LookupString(props, "$recursiveAnchor")
      case Some(name) => (Delete(Assign(props, anchorToken, JStr(name)), "$recursiveAnchor"), Some("#" + name))
      case None => (props, None)
    else if pointer == JsonPointer.Nil && Lookup(props, "$recursiveAnchor") == Some(JBool(true)) then
      (Delete(props, "$recursiveAnchor"), Some("#"))
    else (props, None)
  }

  /** The anchor keyword: recorded under its name (without the `#` when it shares the id
      keyword) and deleted. */
  function AnchorStep(props: Props, idToken: string, anchorToken: string): (r: (Props, Option<string>))
    ensures LookupString(r.0, anchorToken) == None
    ensures LookupString(props, idToken) == None && idToken != anchorToken ==> LookupString(r.0, idToken) == None
    ensures r.1.Some? <==> LookupString(props, anchorToken).Some?
  {
    match LookupString(props, anchorToken)
    case Some(a) => (Delete(props, anchorToken), Some(if anchorToken != idToken then a else if a == "" then "" else a[1..]))
    case None => (props, None)
  }

  /** The whole per-node step, in the order the engine performs it. */
  function NodeStepOf(props: Props, id: string, pointer: string, idToken: string, anchorToken: string,
                      recursiveAnchorType: Option<Json>): NodeStep
  {
    match IdStep(props, id, idToken, anchorToken)
    case Keep(p1, _, _) =>
      var (p2, recursiveAnchor) := RecursiveAnchorStep(p1, pointer, anchorToken, recursiveAnchorType);
      var (p3, anchor) := AnchorStep(p2, idToken, anchorToken);
      Keep(p3, anchor, recursiveAnchor)
    case other => other
  }

  /** A node that stays in its resource leaves neither an id string nor an anchor string
      behind; an anchor is recorded exactly when one remained after the id step. */
  lemma NodeStepConsumesKeywords(props: Props, id: string, pointer: string, idToken: string, anchorToken: string,
                                 recursiveAnchorType: Option<Json>)
    requires NodeStepOf(props, id, pointer, idToken, anchorToken, recursiveAnchorType).Keep?
    ensures var s := NodeStepOf(props, id, pointer, idToken, anchorToken, recursiveAnchorType);
      LookupString(s.props, anchorToken) == None && LookupString(s.props, idToken) == None
  {
    var p1 := IdStep(props, id, idToken, anchorToken).props;
    assert LookupString(p1, idToken) == None || idToken == anchorToken;
    var (p2, _) := RecursiveAnchorStep(p1, pointer, anchorToken, recursiveAnchorType);
    if idToken != anchorToken {
      assert LookupString(p2, idToken) == None;
    }
  }

  /** A fragment-only combined id stays in its resource and is rewritten as `#fragment`. */
  lemma CombinedIdStep(props: Props, id: string, token: string, name: string)
    requires '#' !in id && name != ""
    requires LookupString(props, token) == Some("#" + name)
    ensures IdStep(props, id, token, token) == Keep(Assign(Delete(props, token), token, JStr("#" + name)), None, None)
  {
    SafeResolveFragment(id, name);
  }

  /** The recursive-anchor step leaves a string-valued keyword other than
      `$recursiveAnchor` where it is, unless `$recursiveAnchor` itself names the anchor. */
  lemma RecursiveAnchorKeepsString(props: Props, pointer: string, token: string, recursiveAnchorType: Option<Json>)
    requires LookupString(props, token).Some? && recursiveAnchorType != Some(JStr("string"))
    ensures LookupString(RecursiveAnchorStep(props, pointer, token, recursiveAnchorType).0, token) == LookupString(props, token)
  {
    if pointer == JsonPointer.Nil && Lookup(props, "$recursiveAnchor") == Some(JBool(true)) {
      assert token != "$recursiveAnchor";
    }
  }

  /** With a combined id/anchor keyword, `"$id": "#foo"` records the anchor `foo`. */
  lemma CombinedIdAnchor(props: Props, id: string, pointer: string, token: string, name: string,
                         recursiveAnchorType: Option<Json>)
    requires '#' !in id && name != ""
    requires LookupString(props, token) == Some("#" + name)
    requires recursiveAnchorType != Some(JStr("string"))
    ensures NodeStepOf(props, id, pointer, token, token, recursiveAnchorType).Keep?
    ensures NodeStepOf(props, id, pointer, token, token, recursiveAnchorType).anchor == Some(name)
  {
    CombinedIdStep(props, id, token, name);
    var p1 := Assign(Delete(props, token), token, JStr("#" + name));
    RecursiveAnchorKeepsString(p1, pointer, token, recursiveAnchorType);
    var p2 := RecursiveAnchorStep(p1, pointer, token, recursiveAnchorType).0;
    assert ("#" + name)[1..] == name;
    assert AnchorStep(p2, token, token).1 == Some(name);
  }

  /** With separate keywords, the anchor keyword's value is the anchor's name. */
  lemma SeparateAnchor(props: Props, idToken: string, anchorToken: string, name: string)
    requires idToken != anchorToken && LookupString(props, anchorToken) == Some(name)
    ensures AnchorStep(props, idToken, anchorToken).1 == Some(name)
  {
  }

  // ---------------------------------------------------------------- sizes (termination)

  /** Every value of `q` weighs less than `bound`. */
  predicate ValuesBelow(q: Props, bound: nat) {
    forall i :: 0 <= i < |q| ==> Size(q[i].1) < bound
  }

  lemma {:induction false} ValuesBelowDelete(q: Props, key: string, bound: nat)
    requires ValuesBelow(q, bound)
    ensures ValuesBelow(Delete(q, key), bound)
  {
    if q != [] {
      ValuesBelowDelete(q[1..], key, bound);
      assert ValuesBelow(q[1..], bound) by {
        forall i | 0 <= i < |q[1..]| ensures Size(q[1..][i].1) < bound { assert q[1..][i] == q[i + 1]; }
      }
    }
  }

  lemma {:induction false} ValuesBelowAssign(q: Props, key: string, v: Json, bound: nat)
    requires ValuesBelow(q, bound) && Size(v) < bound
    ensures ValuesBelow(Assign(q, key, v), bound)
  {
    if q != [] && q[0].0 != key {
      assert ValuesBelow(q[1..], bound) by {
        forall i | 0 <= i < |q[1..]| ensures Size(q[1..][i].1) < bound { assert q[1..][i] == q[i + 1]; }
      }
      ValuesBelowAssign(q[1..], key, v, bound);
    } else if q != [] {
      assert ValuesBelow(q[1..], bound) by {
        forall i | 0 <= i < |q[1..]| ensures Size(q[1..][i].1) < bound { assert q[1..][i] == q[i + 1]; }
      }
    }
  }

  lemma ValuesBelowObject(props: Props)
    ensures ValuesBelow(props, Size(JObj(props)))
  {
    forall i | 0 <= i < |props| ensures Size(props[i].1) < Size(JObj(props)) {
      SizePropsElement(props, i);
    }
  }

  lemma LookupNonEmpty(props: Props, key: string)
    requires Lookup(props, key).Some?
    ensures |props| > 0 && Size(JObj(props)) >= 3
  {
    SizeNonEmpty(props);
  }

  lemma SizeNonEmpty(props: Props)
    requires |props| > 0
    ensures Size(JObj(props)) >= 3
  {
    assert props[0] in props;
    assert SizeProps(props) == 1 + Size(props[0].1) + SizeProps(props[1..]);
  }

  /** The id step leaves only children lighter than the original object. */
  lemma IdStepKeepBounded(props: Props, id: string, idToken: string, anchorToken: string)
    requires IdStep(props, id, idToken, anchorToken).Keep?
    ensures ValuesBelow(IdStep(props, id, idToken, anchorToken).props, Size(JObj(props)))
  {
    var bound := Size(JObj(props));
    ValuesBelowObject(props);
    if LookupString(props, idToken).Some? {
      LookupNonEmpty(props, idToken);
      ValuesBelowDelete(props, idToken, bound);
      ValuesBelowAssign(Delete(props, idToken), anchorToken, JStr("#" + SplitUrl(Url.Resolve(id, LookupString(props, idToken).value)).1), bound);
    }
  }

  /** The recursive-anchor step keeps every child below a bound that exceeds a string's size. */
  lemma RecursiveAnchorStepBounded(props: Props, pointer: string, anchorToken: string,
                                   recursiveAnchorType: Option<Json>, bound: nat)
    requires ValuesBelow(props, bound) && bound >= 3
    ensures ValuesBelow(RecursiveAnchorStep(props, pointer, anchorToken, recursiveAnchorType).0, bound)
  {
    if recursiveAnchorType == Some(JStr("string")) {
      match LookupString(props, "$recursiveAnchor")
      case Some(name) =>
        ValuesBelowAssign(props, anchorToken, JStr(name), bound);
        ValuesBelowDelete(Assign(props, anchorToken, JStr(name)), "$recursiveAnchor", bound);
      case None =>
    } else {
      ValuesBelowDelete(props, "$recursiveAnchor", bound);
    }
  }

  /** The object that stays behind has only children lighter than the original object. */
  lemma NodeStepKeepBounded(props: Props, id: string, pointer: string, idToken: string, anchorToken: string,
                            recursiveAnchorType: Option<Json>)
    requires NodeStepOf(props, id, pointer, idToken, anchorToken, recursiveAnchorType).Keep?
    ensures ValuesBelow(NodeStepOf(props, id, pointer, idToken, anchorToken, recursiveAnchorType).props,
                        Size(JObj(props)))
  {
    var bound := Size(JObj(props));
    IdStepKeepBounded(props, id, idToken, anchorToken);
    var p1 := IdStep(props, id, idToken, anchorToken).props;
    var (p2, _) := RecursiveAnchorStep(p1, pointer, anchorToken, recursiveAnchorType);
    if props == [] {
      assert p1 == [] && p2 == [];
    } else {
      SizeNonEmpty(props);
      RecursiveAnchorStepBounded(p1, pointer, anchorToken, recursiveAnchorType, bound);
    }
    ValuesBelowDelete(p2, anchorToken, bound);
  }

  /** An embedded resource, with its id keyword consumed, is lighter than the object it
      was found in. */
  lemma NodeStepEmbedLighter(props: Props, id: string, pointer: string, idToken: string, anchorToken: string,
                             recursiveAnchorType: Option<Json>)
    requires '#' !in id
    requires NodeStepOf(props, id, pointer, idToken, anchorToken, recursiveAnchorType).Embed?
    ensures Size(JObj(NodeStepOf(props, id, pointer, idToken, anchorToken, recursiveAnchorType).subject))
            < Size(JObj(props))
  {
    var s := IdStep(props, id, idToken, anchorToken);
    assert s.Embed?;
    IdStepEmbedLighter(props, id, idToken, anchorToken);
  }

  lemma IdStepEmbedLighter(props: Props, id: string, idToken: string, anchorToken: string)
    requires '#' !in id
    requires IdStep(props, id, idToken, anchorToken).Embed?
    ensures Size(JObj(IdStep(props, id, idToken, anchorToken).subject)) < Size(JObj(props))
  {
    var ref := LookupString(props, idToken).value;
    var resolvedUrl := SafeResolveUrl(id, ref).value;
    var fragment := SplitUrl(resolvedUrl).1;
    RefLeavesResource(id, ref);
    EmbedSubjectLighter(props, idToken, anchorToken, ref, fragment);
  }

  /** Deleting a two-weight id and adding back at most a one-weight `#fragment` anchor
      makes an object lighter. */
  lemma EmbedSubjectLighter(props: Props, idToken: string, anchorToken: string, ref: string, fragment: string)
    requires LookupString(props, idToken) == Some(ref) && ref != "" && ref[0] != '#'
    ensures var deleted := Delete(props, idToken);
      Size(JObj(if fragment != "" && idToken == anchorToken then Assign(deleted, anchorToken, JStr("#" + fragment))
                else deleted)) < Size(JObj(props))
  {
    assert Lookup(props, idToken) == Some(JStr(ref));
    assert Size(JStr(ref)) == 2;
    var deleted := Delete(props, idToken);
    SizeDelete(props, idToken);
    if fragment != "" && idToken == anchorToken {
      SizeAssignFresh(deleted, anchorToken, JStr("#" + fragment));
    }
  }

  /** A reference that leaves the current resource is neither empty nor fragment-only. */
  lemma RefLeavesResource(id: string, ref: string)
    requires '#' !in id
    requires SafeResolveUrl(id, ref).Ok? && SplitUrl(SafeResolveUrl(id, ref).value).0 != id
    ensures ref != "" && ref[0] != '#'
  {
    assert SplitUrl(id) == (id, "");
    if ref == "" {
      Url.ResolveEmpty(id);
    } else if ref[0] == '#' {
      assert "#" + ref[1..] == ref;
      SafeResolveFragment(id, ref[1..]);
    }
  }

  /** `p` lies at or below `pointer`. */
  predicate Within(p: string, pointer: string) {
    p == pointer || Url.StartsWith(p, pointer + "/")
  }

  /** What lies below a child's pointer lies below the parent's pointer. */
  lemma WithinChild(p: string, key: string, pointer: string)
    requires Within(p, JsonPointer.Append(key, pointer))
    ensures Within(p, pointer) && p != pointer
  {
    var c := JsonPointer.Append(key, pointer);
    assert c[..|pointer| + 1] == pointer + "/";
    if p != c {
      assert p[..|c|] == c;
      assert p[..|pointer| + 1] == c[..|pointer| + 1];
    }
  }

  /** Same keys, and the same values are strings: string lookups agree. */
  lemma {:induction false} LookupStringAlike(q: Props, p: Props, key: string)
    requires |q| == |p|
    requires forall j :: 0 <= j < |q| ==> q[j].0 == p[j].0 && (q[j].1.JStr? <==> p[j].1.JStr?)
    ensures LookupString(q, key).None? <==> LookupString(p, key).None?
  {
    if q != [] && q[0].0 != key {
      LookupStringAlike(q[1..], p[1..], key);
    }
  }

  /** The per-node step under the store's current configuration. */
  function StepAt(t: Tables, props: Props, id: string, schemaVersion: string, pointer: string): NodeStep {
    NodeStepOf(props, id, pointer, Token(t, schemaVersion, "idToken"), Token(t, schemaVersion, "anchorToken"),
               GetConfig(t, schemaVersion, "recursiveAnchorType"))
  }

  /** The anchor table only grows, and what changed points at or below `pointer`. */
  predicate AnchorsGrown(before: map<string, string>, after: map<string, string>, pointer: string) {
    before.Keys <= after.Keys &&
    forall a :: a in after ==> (a in before && after[a] == before[a]) || Within(after[a], pointer)
  }

  /** The recursive-anchor table only grows, and what changed names the resource `id`. */
  predicate RecursiveAnchorsGrown(before: map<string, string>, after: map<string, string>, id: string) {
    before.Keys <= after.Keys &&
    forall k :: k in after ==> (k in before && after[k] == before[k]) || after[k] == id
  }

  lemma GrownTwice(a0: map<string, string>, a1: map<string, string>, a2: map<string, string>, pointer: string)
    requires AnchorsGrown(a0, a1, pointer) && AnchorsGrown(a1, a2, pointer)
    ensures AnchorsGrown(a0, a2, pointer)
  {
  }

  lemma RecursiveGrownTwice(a0: map<string, string>, a1: map<string, string>, a2: map<string, string>, id: string)
    requires RecursiveAnchorsGrown(a0, a1, id) && RecursiveAnchorsGrown(a1, a2, id)
    ensures RecursiveAnchorsGrown(a0, a2, id)
  {
  }

  /** What a child records lies below the parent. */
  lemma GrownUnderChild(a0: map<string, string>, a1: map<string, string>, a2: map<string, string>,
                        key: string, pointer: string)
    requires AnchorsGrown(a0, a1, pointer) && AnchorsGrown(a1, a2, JsonPointer.Append(key, pointer))
    ensures AnchorsGrown(a0, a2, pointer)
  {
    forall a | a in a2 && !(a in a1 && a2[a] == a1[a])
      ensures Within(a2[a], pointer)
    {
      WithinChild(a2[a], key, pointer);
    }
  }

  lemma {:induction false} KeysAlike(q: Props, p: Props)
    requires |q| == |p|
    requires forall j :: 0 <= j < |q| ==> q[j].0 == p[j].0
    ensures Keys(q) == Keys(p)
  {
  }

  /** What `processSchema` promises about one object node: an embedded resource becomes
      its placeholder and leaves the tables alone; a node that stays keeps its keys in
      order, loses its id and anchor strings, and has its anchors recorded. */
  predicate NodeOutcome(step: NodeStep, idToken: string, anchorToken: string, id: string, pointer: string,
                        anchors: map<string, string>, recursiveAnchors: map<string, string>,
                        result: (Json, map<string, string>, map<string, string>))
  {
    match step
    case NodeFail(_) => false
    case Embed(_, _, ref) => result == (JRef(ref), anchors, recursiveAnchors)
    case Keep(p, anchor, recursiveAnchor) =>
      result.0.JObj? && Keys(result.0.props) == Keys(p)
      && LookupString(result.0.props, idToken) == None && LookupString(result.0.props, anchorToken) == None
      && (anchor.Some? ==> anchor.value in result.1 && Within(result.1[anchor.value], pointer))
      && (recursiveAnchor.Some? ==> recursiveAnchor.value in result.2 && result.2[recursiveAnchor.value] == id)
  }

  // ---------------------------------------------------------------- stored schemas

  /** `hasStoredSchema(id)`: the id names a stored resource or an alias. Every id that
      can be read is known, and while no alias dangles every known id can be read. */
  predicate HasStoredSchema(t: Tables, id: string): (r: bool)
    ensures GetStoredSchema(t, id).Ok? ==> r
    ensures r && AliasesWithin(t, {}) ==> GetStoredSchema(t, id).Ok?
    ensures !r ==> id !in t.resources && id !in t.aliases
  {
    id in t.resources || id in t.aliases
  }

  /** `getStoredSchema(id)`: the alias target when the id is an alias of a stored
      resource, else the resource stored under the id itself. */
  function GetStoredSchema(t: Tables, id: string): (r: Result<StoredSchema>)
    ensures r.Ok? <==> (id in t.aliases && t.aliases[id] in t.resources) || id in t.resources
    ensures id in t.aliases && t.aliases[id] in t.resources ==> r == Ok(t.resources[t.aliases[id]])
    ensures id !in t.aliases && id in t.resources ==> r == Ok(t.resources[id])
    ensures r.Err? ==> r.error == DanglingAlias(id)
  {
    if id in t.aliases && t.aliases[id] in t.resources then Ok(t.resources[t.aliases[id]])
    else if id in t.resources then Ok(t.resources[id])
    else Err(DanglingAlias(id))
  }

  /** `getStoredSchema` as written: `schemaStoreAlias[id]` is `undefined` for an id that
      is not an alias, and the store is then read at the key "undefined". */
  function GetStoredSchemaAsWritten(t: Tables, id: string): Result<StoredSchema> {
    var target := if id in t.aliases then t.aliases[id] else "undefined";
    if target in t.resources then Ok(t.resources[target])
    else if id in t.resources then Ok(t.resources[id])
    else Err(DanglingAlias(id))
  }

  /** Once some resource is stored under the id "undefined", every id that is not an
      alias reads that resource instead of its own. */
  lemma GetStoredSchemaAsWrittenMisreads(a: StoredSchema, b: StoredSchema)
    requires a != b
    ensures var t := Tables(map[], map[], map["http://example.com/a" := a, "undefined" := b], map[]);
      GetStoredSchemaAsWritten(t, "http://example.com/a") == Ok(b)
      && GetStoredSchema(t, "http://example.com/a") == Ok(a)
  {
  }

  /** Where no resource is stored under "undefined", both readings agree. */
  lemma GetStoredSchemaAgrees(t: Tables, id: string)
    requires "undefined" !in t.resources
    ensures GetStoredSchemaAsWritten(t, id) == GetStoredSchema(t, id)
  {
  }

  /** Every alias points at a stored resource or at one of `pending`. */
  predicate AliasesWithin(t: Tables, pending: set<string>) {
    forall a :: a in t.aliases ==> t.aliases[a] in t.resources || t.aliases[a] in pending
  }

  /** The configuration stays, and no stored resource or alias disappears. */
  predicate Extends(before: Tables, after: Tables) {
    after.config == before.config && before.resources.Keys <= after.resources.Keys
    && before.aliases.Keys <= after.aliases.Keys
  }

  /** Every alias recorded or changed since `before` points at a stored resource. */
  predicate Settled(before: Tables, after: Tables) {
    forall a :: a in after.aliases ==>
      (a in before.aliases && after.aliases[a] == before.aliases[a]) || after.aliases[a] in after.resources
  }

  /** Every resource is stored under its own id, which has no fragment. */
  predicate StoredUnderOwnIds(t: Tables) {
    forall k :: k in t.resources ==> t.resources[k].id == k && '#' !in k
  }

  lemma SettledTwice(t0: Tables, t1: Tables, t2: Tables)
    requires Settled(t0, t1) && Settled(t1, t2) && Extends(t1, t2)
    ensures Settled(t0, t2)
  {
  }

  /** The vocabulary step of `add`: whether the schema declares its own `$vocabulary`
      (which makes the id a dialect of `schemaVersion`), the vocabulary recorded, and the
      schema left to walk. Without a declaration, a meta-schema that is its own dialect
      uses that dialect's vocabulary and any other schema none. */
  function VocabularyOf(t: Tables, schemaVersion: string, id: string, body: Json): (r: (bool, Json, Json))
    ensures r.0 <==> TruthyValue(GetConfig(t, schemaVersion, "vocabulary")) && body.JObj? && HasKey(body.props, "$vocabulary")
    ensures r.0 ==> Some(r.1) == Lookup(body.props, "$vocabulary") && r.2 == WithoutKey(body, "$vocabulary")
    ensures Size(r.2) <= Size(body)
    ensures !r.0 ==> r.2 == body && r.1 == JObj(if id == schemaVersion then [(schemaVersion, JBool(true))] else [])
  {
    if TruthyValue(GetConfig(t, schemaVersion, "vocabulary")) && body.JObj? && HasKey(body.props, "$vocabulary") then
      (true, Lookup(body.props, "$vocabulary").value, WithoutKey(body, "$vocabulary"))
    else if id == schemaVersion then (false, JObj([(schemaVersion, JBool(true))]), body)
    else (false, JObj([]), body)
  }

  /** `delete schema[key]` on a copy; only objects have keys to delete. */
  function WithoutKey(schema: Json, key: string): (r: Json)
    ensures Size(r) <= Size(schema)
    ensures r.JObj? <==> schema.JObj?
    ensures r.JObj? ==> !HasKey(r.props, key) && forall k :: k != key ==> Lookup(r.props, k) == Lookup(schema.props, k)
  {
    match schema
    case JObj(props) => SizeDelete(props, key); JObj(Delete(props, key))
    case _ => schema
  }

  // ---------------------------------------------------------------- add, as a function of the tables

  type Anchors = map<string, string>

  /** The identifiers `add` settles before it changes anything: the external id (the URL
      it was given, without fragment) and the stored id. Fails like `add` when the
      dialect or the identifier cannot be determined, or when the schema is `null`. */
  function AddIdent(t: Tables, schema: Json, url: string, defaultSchemaVersion: string): (r: Result<(string, string)>)
    ensures schema == JNull ==> r == Err(NullSchema)
    ensures schema != JNull && DeclaredVersion(schema, defaultSchemaVersion) == "" ==> r == Err(VersionUndetermined)
    ensures r.Ok? ==> schema != JNull && DeclaredVersion(schema, defaultSchemaVersion) != "" && '#' !in r.value.1
  {
    var version := DeclaredVersion(schema, defaultSchemaVersion);
    if schema == JNull then Err(NullSchema)
    else if version == "" then Err(VersionUndetermined)
    else IdentifierOf(WithoutKey(schema, "$schema"), url, Token(t, version, "idToken"))
  }

  /** `add(schema, url, defaultSchemaVersion)` as a function of the tables: the tables
      afterwards, and the stored id or the failure. The alias is recorded before the
      resource is walked, so it stays when the walk fails. */
  function AddOf(t: Tables, schema: Json, url: string, defaultSchemaVersion: string): (r: (Tables, Result<string>))
    decreases Size(schema), 3, 0
    ensures Extends(t, r.0)
    ensures r.1.Ok? ==> Settled(t, r.0)
    ensures StoredUnderOwnIds(t) ==> StoredUnderOwnIds(r.0)
    ensures AddIdent(t, schema, url, defaultSchemaVersion).Err? ==>
      r == (t, Err(AddIdent(t, schema, url, defaultSchemaVersion).error))
    ensures AddIdent(t, schema, url, defaultSchemaVersion).Ok? ==>
      var externalId := AddIdent(t, schema, url, defaultSchemaVersion).value.0;
      var id := AddIdent(t, schema, url, defaultSchemaVersion).value.1;
      (externalId != "" ==> externalId in r.0.aliases)
      && (r.1.Ok? ==>
            r.1.value == id && id in r.0.resources && r.0.resources[id].id == id
            && r.0.resources[id].schemaVersion == DeclaredVersion(schema, defaultSchemaVersion)
            && !r.0.resources[id].validated
            && (externalId != "" ==> r.0.aliases[externalId] in r.0.resources))
  {
    match AddIdent(t, schema, url, defaultSchemaVersion)
    case Err(e) => (t, Err(e))
    case Ok((externalId, id)) =>
      var t1 := if externalId != "" then t.(aliases := t.aliases[externalId := id]) else t;
      AddResourceOf(t1, WithoutKey(schema, "$schema"), id, DeclaredVersion(schema, defaultSchemaVersion))
  }

  /** The second half of `add`: the vocabulary step, the walk from the resource root with
      no anchors found yet, and the unvalidated record stored under the id. */
  function AddResourceOf(t: Tables, body: Json, id: string, schemaVersion: string): (r: (Tables, Result<string>))
    requires '#' !in id
    decreases Size(body), 2, 0
    ensures Extends(t, r.0)
    ensures r.1.Ok? ==> Settled(t, r.0)
    ensures StoredUnderOwnIds(t) ==> StoredUnderOwnIds(r.0)
    ensures r.1.Ok? ==>
      r.1.value == id && id in r.0.resources
      && r.0.resources[id].id == id && r.0.resources[id].schemaVersion == schemaVersion
      && !r.0.resources[id].validated
      && r.0.resources[id].vocabulary == VocabularyOf(t, schemaVersion, id, body).1
      && (forall a :: a in r.0.resources[id].anchors ==> Within(r.0.resources[id].anchors[a], JsonPointer.Nil))
      && (forall a :: a in r.0.resources[id].recursiveAnchors ==> r.0.resources[id].recursiveAnchors[a] == id)
  {
    var (declared, vocabulary, rest) := VocabularyOf(t, schemaVersion, id, body);
    var t1 := if declared then t.(configAlias := t.configAlias[id := schemaVersion]) else t;
    var (t2, walked) := WalkOf(t1, rest, id, schemaVersion, JsonPointer.Nil, map[], map[]);
    match walked
    case Err(e) => (t2, Err(e))
    case Ok((tree, anchors, recursiveAnchors)) =>
      var stored := StoredSchema(id, schemaVersion, tree, anchors, recursiveAnchors, vocabulary, false);
      StoreSettles(t, t2, stored);
      (t2.(resources := t2.resources[id := stored]), Ok(id))
  }

  /** Storing a record under its own id after a settled walk leaves the tables settled. */
  lemma StoreSettles(t: Tables, t2: Tables, stored: StoredSchema)
    requires Extends(t, t2) && Settled(t, t2) && '#' !in stored.id
    ensures var t3 := t2.(resources := t2.resources[stored.id := stored]);
      Extends(t, t3) && Settled(t, t3) && (StoredUnderOwnIds(t2) ==> StoredUnderOwnIds(t3))
  {
  }

  /** A boolean (or other non-object, non-array) schema body is stored as it is, with no
      anchors, and nothing else changes. */
  lemma AddResourceScalar(t: Tables, body: Json, id: string, schemaVersion: string)
    requires '#' !in id && !IsObject(body) && !body.JArr?
    ensures AddResourceOf(t, body, id, schemaVersion)
         == (t.(resources := t.resources[id := StoredSchema(id, schemaVersion, body, map[], map[],
                                                             VocabularyOf(t, schemaVersion, id, body).1, false)]),
             Ok(id))
  {
  }

  /** `processSchema(subject, id, schemaVersion, pointer, anchors, recursiveAnchors)` as a
      function of the tables: the tables afterwards, and the processed subject with the
      two anchor tables, or the failure. */
  function WalkOf(t: Tables, subject: Json, id: string, schemaVersion: string, pointer: string,
                  anchors: Anchors, recursiveAnchors: Anchors): (r: (Tables, Result<(Json, Anchors, Anchors)>))
    requires '#' !in id
    decreases Size(subject), 1, 1
    ensures Extends(t, r.0)
    ensures r.1.Ok? ==> Settled(t, r.0)
    ensures StoredUnderOwnIds(t) ==> StoredUnderOwnIds(r.0)
    ensures !IsObject(subject) && !subject.JArr? ==> r == (t, Ok((subject, anchors, recursiveAnchors)))
    ensures subject.JRef? ==> r == (t, Ok((JObj([]), anchors, recursiveAnchors)))
    ensures r.1.Ok? ==> (r.1.value.0.JStr? <==> subject.JStr?)
    ensures r.1.Ok? && subject.JArr? ==> r.1.value.0.JArr? && |r.1.value.0.items| == |subject.items|
    ensures r.1.Ok? ==>
      AnchorsGrown(anchors, r.1.value.1, pointer) && RecursiveAnchorsGrown(recursiveAnchors, r.1.value.2, id)
    ensures r.1.Ok? && subject.JObj? ==>
      NodeOutcome(StepAt(t, subject.props, id, schemaVersion, pointer),
                  Token(t, schemaVersion, "idToken"), Token(t, schemaVersion, "anchorToken"),
                  id, pointer, anchors, recursiveAnchors, r.1.value)
    ensures r.1.Ok? && subject.JObj? && StepAt(t, subject.props, id, schemaVersion, pointer).Embed? ==>
      var step := StepAt(t, subject.props, id, schemaVersion, pointer);
      var ident := AddIdent(t, JObj(step.subject), step.target, schemaVersion);
      ident.Ok? && ident.value.1 in r.0.resources && r.0.resources[ident.value.1].id == ident.value.1
  {
    match subject
    case JObj(props) => WalkObjectOf(t, props, id, schemaVersion, pointer, anchors, recursiveAnchors)
    case JArr(items) =>
      var (t1, walked) := WalkItemsOf(t, items, 0, [], id, schemaVersion, pointer, anchors, recursiveAnchors);
      (t1, match walked case Err(e) => Err(e) case Ok((acc, a, ra)) => Ok((JArr(acc), a, ra)))
    case JRef(_) => (t, Ok((JObj([]), anchors, recursiveAnchors)))
    case _ => (t, Ok((subject, anchors, recursiveAnchors)))
  }

  /** The object case of `processSchema`: an embedded resource is added and replaced by
      its placeholder; a node that stays records its anchors and has its entries walked. */
  function WalkObjectOf(t: Tables, props: Props, id: string, schemaVersion: string, pointer: string,
                        anchors: Anchors, recursiveAnchors: Anchors): (r: (Tables, Result<(Json, Anchors, Anchors)>))
    requires '#' !in id
    decreases Size(JObj(props)), 1, 0
    ensures Extends(t, r.0)
    ensures r.1.Ok? ==> Settled(t, r.0)
    ensures StoredUnderOwnIds(t) ==> StoredUnderOwnIds(r.0)
    ensures r.1.Ok? ==> !r.1.value.0.JStr?
    ensures r.1.Ok? ==>
      AnchorsGrown(anchors, r.1.value.1, pointer) && RecursiveAnchorsGrown(recursiveAnchors, r.1.value.2, id)
    ensures r.1.Ok? ==>
      NodeOutcome(StepAt(t, props, id, schemaVersion, pointer),
                  Token(t, schemaVersion, "idToken"), Token(t, schemaVersion, "anchorToken"),
                  id, pointer, anchors, recursiveAnchors, r.1.value)
    ensures r.1.Ok? && StepAt(t, props, id, schemaVersion, pointer).Embed? ==>
      var step := StepAt(t, props, id, schemaVersion, pointer);
      var ident := AddIdent(t, JObj(step.subject), step.target, schemaVersion);
      ident.Ok? && ident.value.1 in r.0.resources && r.0.resources[ident.value.1].id == ident.value.1
  {
    var idToken := Token(t, schemaVersion, "idToken");
    var anchorToken := Token(t, schemaVersion, "anchorToken");
    var recursiveAnchorType := GetConfig(t, schemaVersion, "recursiveAnchorType");
    match NodeStepOf(props, id, pointer, idToken, anchorToken, recursiveAnchorType)
    case NodeFail(e) => (t, Err(e))
    case Embed(embedded, target, ref) =>
      NodeStepEmbedLighter(props, id, pointer, idToken, anchorToken, recursiveAnchorType);
      EmbedOf(t, embedded, target, ref, schemaVersion, anchors, recursiveAnchors)
    case Keep(kept, anchor, recursiveAnchor) =>
      NodeStepKeepBounded(props, id, pointer, idToken, anchorToken, recursiveAnchorType);
      NodeStepConsumesKeywords(props, id, pointer, idToken, anchorToken, recursiveAnchorType);
      KeepOf(t, NodeStepOf(props, id, pointer, idToken, anchorToken, recursiveAnchorType), Size(JObj(props)),
             idToken, anchorToken, id, schemaVersion, pointer, anchors, recursiveAnchors)
  }

  /** The case of `processSchema` where the node stays in its resource: its anchors are
      recorded, then its entries are walked. */
  function KeepOf(t: Tables, step: NodeStep, bound: nat, idToken: string, anchorToken: string, id: string,
                  schemaVersion: string, pointer: string, anchors: Anchors, recursiveAnchors: Anchors)
    : (r: (Tables, Result<(Json, Anchors, Anchors)>))
    requires '#' !in id && step.Keep? && ValuesBelow(step.props, bound)
    requires LookupString(step.props, anchorToken) == None && LookupString(step.props, idToken) == None
    decreases bound, 0, |step.props| + 1
    ensures Extends(t, r.0)
    ensures r.1.Ok? ==> Settled(t, r.0)
    ensures StoredUnderOwnIds(t) ==> StoredUnderOwnIds(r.0)
    ensures r.1.Ok? ==> NodeOutcome(step, idToken, anchorToken, id, pointer, anchors, recursiveAnchors, r.1.value)
    ensures r.1.Ok? ==>
      AnchorsGrown(anchors, r.1.value.1, pointer) && RecursiveAnchorsGrown(recursiveAnchors, r.1.value.2, id)
  {
    var foundRecursive := if step.recursiveAnchor.Some? then recursiveAnchors[step.recursiveAnchor.value := id] else recursiveAnchors;
    var foundAnchors := if step.anchor.Some? then anchors[step.anchor.value := pointer] else anchors;
    var (t1, walked) := WalkEntriesOf(t, step.props, bound, 0, [], id, schemaVersion, pointer, foundAnchors, foundRecursive);
    match walked
    case Err(e) => (t1, Err(e))
    case Ok((acc, afterAnchors, afterRecursive)) =>
      KeptOutcome(step, idToken, anchorToken, id, pointer, anchors, recursiveAnchors, foundAnchors, foundRecursive,
                  acc, afterAnchors, afterRecursive);
      (t1, Ok((JObj(acc), afterAnchors, afterRecursive)))
  }

  /** A node that stays, once its entries are walked, has the outcome `processSchema`
      promises for it. */
  lemma KeptOutcome(step: NodeStep, idToken: string, anchorToken: string, id: string, pointer: string,
                    anchors: Anchors, recursiveAnchors: Anchors, foundAnchors: Anchors, foundRecursive: Anchors,
                    acc: Props, afterAnchors: Anchors, afterRecursive: Anchors)
    requires step.Keep?
    requires LookupString(step.props, anchorToken) == None && LookupString(step.props, idToken) == None
    requires foundAnchors == if step.anchor.Some? then anchors[step.anchor.value := pointer] else anchors
    requires foundRecursive == if step.recursiveAnchor.Some? then recursiveAnchors[step.recursiveAnchor.value := id] else recursiveAnchors
    requires |acc| == |step.props|
    requires forall j :: 0 <= j < |step.props| ==> acc[j].0 == step.props[j].0 && (acc[j].1.JStr? <==> step.props[j].1.JStr?)
    requires AnchorsGrown(foundAnchors, afterAnchors, pointer) && RecursiveAnchorsGrown(foundRecursive, afterRecursive, id)
    ensures NodeOutcome(step, idToken, anchorToken, id, pointer, anchors, recursiveAnchors, (JObj(acc), afterAnchors, afterRecursive))
    ensures AnchorsGrown(anchors, afterAnchors, pointer) && RecursiveAnchorsGrown(recursiveAnchors, afterRecursive, id)
  {
    LookupStringAlike(acc, step.props, idToken);
    LookupStringAlike(acc, step.props, anchorToken);
    KeysAlike(acc, step.props);
    GrownTwice(anchors, foundAnchors, afterAnchors, pointer);
    RecursiveGrownTwice(recursiveAnchors, foundRecursive, afterRecursive, id);
  }

  /** The embedded-resource case of `processSchema`: the subschema is added as a resource
      of its own under the resolved id, and the node becomes a reference to it. */
  function EmbedOf(t: Tables, embedded: Props, target: string, ref: string, schemaVersion: string,
                   anchors: Anchors, recursiveAnchors: Anchors): (r: (Tables, Result<(Json, Anchors, Anchors)>))
    decreases Size(JObj(embedded)), 4, 0
    ensures Extends(t, r.0)
    ensures r.1.Ok? ==> Settled(t, r.0)
    ensures StoredUnderOwnIds(t) ==> StoredUnderOwnIds(r.0)
    ensures r.1.Ok? ==> r.1.value == (JRef(ref), anchors, recursiveAnchors)
    ensures r.1.Ok? ==>
      var ident := AddIdent(t, JObj(embedded), target, schemaVersion);
      ident.Ok? && ident.value.1 in r.0.resources && r.0.resources[ident.value.1].id == ident.value.1
  {
    var (t1, added) := AddOf(t, JObj(embedded), target, schemaVersion);
    (t1, if added.Err? then Err(added.error) else Ok((JRef(ref), anchors, recursiveAnchors)))
  }

  /** The `Object.entries(subject).reduce(...)` of `processSchema`, from entry `i` on, with
      `acc` the entries processed before it: each entry is walked one level down, in key
      order, threading the tables and the anchor tables. */
  function WalkEntriesOf(t: Tables, kept: Props, bound: nat, i: nat, acc: Props, id: string, schemaVersion: string,
                         pointer: string, anchors: Anchors, recursiveAnchors: Anchors)
    : (r: (Tables, Result<(Props, Anchors, Anchors)>))
    requires '#' !in id && ValuesBelow(kept, bound) && i <= |kept| && |acc| == i
    decreases bound, 0, |kept| - i
    ensures Extends(t, r.0)
    ensures r.1.Ok? ==> Settled(t, r.0)
    ensures StoredUnderOwnIds(t) ==> StoredUnderOwnIds(r.0)
    ensures r.1.Ok? ==> |r.1.value.0| == |kept| && r.1.value.0[..i] == acc
    ensures r.1.Ok? ==> forall j :: i <= j < |kept| ==>
      r.1.value.0[j].0 == kept[j].0 && (r.1.value.0[j].1.JStr? <==> kept[j].1.JStr?)
    ensures r.1.Ok? ==>
      AnchorsGrown(anchors, r.1.value.1, pointer) && RecursiveAnchorsGrown(recursiveAnchors, r.1.value.2, id)
  {
    if i == |kept| then (t, Ok((acc, anchors, recursiveAnchors)))
    else
      var key := kept[i].0;
      var (t1, child) := WalkOf(t, kept[i].1, id, schemaVersion, JsonPointer.Append(key, pointer), anchors, recursiveAnchors);
      match child
      case Err(e) => (t1, Err(e))
      case Ok((value, childAnchors, childRecursive)) =>
        GrownUnderChild(anchors, anchors, childAnchors, key, pointer);
        var rest := WalkEntriesOf(t1, kept, bound, i + 1, acc + [(key, value)], id, schemaVersion, pointer,
                                  childAnchors, childRecursive);
        if rest.1.Err? then rest
        else
          SettledTwice(t, t1, rest.0);
          GrownTwice(anchors, childAnchors, rest.1.value.1, pointer);
          RecursiveGrownTwice(recursiveAnchors, childRecursive, rest.1.value.2, id);
          assert rest.1.value.0[..i + 1] == acc + [(key, value)];
          assert rest.1.value.0[..i] == (rest.1.value.0[..i + 1])[..i];
          rest
  }

  /** The `subject.map(...)` of `processSchema`, from item `i` on: each item is walked one
      level down under its index. */
  function WalkItemsOf(t: Tables, items: seq<Json>, i: nat, acc: seq<Json>, id: string, schemaVersion: string,
                       pointer: string, anchors: Anchors, recursiveAnchors: Anchors)
    : (r: (Tables, Result<(seq<Json>, Anchors, Anchors)>))
    requires '#' !in id && i <= |items| && |acc| == i
    decreases Size(JArr(items)), 0, |items| - i
    ensures Extends(t, r.0)
    ensures r.1.Ok? ==> Settled(t, r.0)
    ensures StoredUnderOwnIds(t) ==> StoredUnderOwnIds(r.0)
    ensures r.1.Ok? ==> |r.1.value.0| == |items| && r.1.value.0[..i] == acc
    ensures r.1.Ok? ==>
      AnchorsGrown(anchors, r.1.value.1, pointer) && RecursiveAnchorsGrown(recursiveAnchors, r.1.value.2, id)
  {
    if i == |items| then (t, Ok((acc, anchors, recursiveAnchors)))
    else
      SizeItemsElement(items, i);
      var key := JsonPointer.NatToString(i);
      var (t1, child) := WalkOf(t, items[i], id, schemaVersion, JsonPointer.Append(key, pointer), anchors, recursiveAnchors);
      match child
      case Err(e) => (t1, Err(e))
      case Ok((value, childAnchors, childRecursive)) =>
        GrownUnderChild(anchors, anchors, childAnchors, key, pointer);
        var rest := WalkItemsOf(t1, items, i + 1, acc + [value], id, schemaVersion, pointer, childAnchors, childRecursive);
        if rest.1.Err? then rest
        else
          SettledTwice(t, t1, rest.0);
          GrownTwice(anchors, childAnchors, rest.1.value.1, pointer);
          RecursiveGrownTwice(recursiveAnchors, childRecursive, rest.1.value.2, id);
          assert rest.1.value.0[..i] == (rest.1.value.0[..i + 1])[..i];
          rest
  }

  // ---------------------------------------------------------------- what add promises

  /** A successful `add` introduces no dangling alias: aliases that pointed at stored
      resources (or at the ids in `pending`) still do. */
  lemma AddKeepsAliasesWithin(t: Tables, schema: Json, url: string, defaultSchemaVersion: string, pending: set<string>)
    requires AliasesWithin(t, pending) && AddOf(t, schema, url, defaultSchemaVersion).1.Ok?
    ensures AliasesWithin(AddOf(t, schema, url, defaultSchemaVersion).0, pending)
  {
    var r := AddOf(t, schema, url, defaultSchemaVersion).0;
    forall a | a in r.aliases
      ensures r.aliases[a] in r.resources || r.aliases[a] in pending
    {
      if a in t.aliases && r.aliases[a] == t.aliases[a] && t.aliases[a] in t.resources {
        assert t.aliases[a] in r.resources;
      }
    }
  }

  /** After a successful `add`, the URL it was given is an alias of a stored resource, so
      the store can read it back. */
  lemma AddAliasStored(t: Tables, schema: Json, url: string, defaultSchemaVersion: string)
    requires AddOf(t, schema, url, defaultSchemaVersion).1.Ok?
    requires AddIdent(t, schema, url, defaultSchemaVersion).value.0 != ""
    ensures var externalId := AddIdent(t, schema, url, defaultSchemaVersion).value.0;
      var r := AddOf(t, schema, url, defaultSchemaVersion).0;
      HasStoredSchema(r, externalId) && GetStoredSchema(r, externalId) == Ok(r.resources[r.aliases[externalId]])
  {
  }

  /** After a successful `add` under a URL with a scheme, getting that URL gives the root
      view of the resource it aliases, unless that root is itself a reference. */
  lemma AddThenGet(t: Tables, schema: Json, url: string, defaultSchemaVersion: string, fuel: nat)
    requires StoredUnderOwnIds(t)
    requires AddOf(t, schema, url, defaultSchemaVersion).1.Ok?
    requires Url.HasScheme(AddIdent(t, schema, url, defaultSchemaVersion).value.0)
    requires var r := AddOf(t, schema, url, defaultSchemaVersion).0;
      var externalId := AddIdent(t, schema, url, defaultSchemaVersion).value.0;
      Follow(r, RootView(r.resources[r.aliases[externalId]])) == None
    ensures var r := AddOf(t, schema, url, defaultSchemaVersion).0;
      var externalId := AddIdent(t, schema, url, defaultSchemaVersion).value.0;
      Get(r, externalId, Nil, false, fuel) == Ok(RootView(r.resources[r.aliases[externalId]]))
      && Uri(Get(r, externalId, Nil, false, fuel).value) == r.aliases[externalId] + "#"
  {
    var r := AddOf(t, schema, url, defaultSchemaVersion).0;
    var externalId := AddIdent(t, schema, url, defaultSchemaVersion).value.0;
    GetByAlias(r, externalId, fuel);
  }

  /** Whether walking `subject` meets neither an embedded resource nor an id it cannot
      resolve, under the tables' configuration. */
  predicate WithoutEmbedded(t: Tables, subject: Json, id: string, schemaVersion: string, pointer: string)
    decreases Size(subject), 1
  {
    match subject
    case JObj(props) =>
      (match StepAt(t, props, id, schemaVersion, pointer)
       case Keep(kept, _, _) =>
         NodeStepKeepBounded(props, id, pointer, Token(t, schemaVersion, "idToken"), Token(t, schemaVersion, "anchorToken"),
                             GetConfig(t, schemaVersion, "recursiveAnchorType"));
         EntriesWithoutEmbedded(t, kept, Size(subject), 0, id, schemaVersion, pointer)
       case _ => false)
    case JArr(items) => ItemsWithoutEmbedded(t, items, 0, id, schemaVersion, pointer)
    case _ => true
  }

  predicate EntriesWithoutEmbedded(t: Tables, kept: Props, bound: nat, i: nat, id: string, schemaVersion: string,
                                   pointer: string)
    requires ValuesBelow(kept, bound) && i <= |kept|
    decreases bound, 0, |kept| - i
  {
    i == |kept|
    || (WithoutEmbedded(t, kept[i].1, id, schemaVersion, JsonPointer.Append(kept[i].0, pointer))
        && EntriesWithoutEmbedded(t, kept, bound, i + 1, id, schemaVersion, pointer))
  }

  predicate ItemsWithoutEmbedded(t: Tables, items: seq<Json>, i: nat, id: string, schemaVersion: string, pointer: string)
    requires i <= |items|
    decreases Size(JArr(items)), 0, |items| - i
  {
    i == |items|
    || (SizeItemsElement(items, i);
        WithoutEmbedded(t, items[i], id, schemaVersion, JsonPointer.Append(JsonPointer.NatToString(i), pointer))
        && ItemsWithoutEmbedded(t, items, i + 1, id, schemaVersion, pointer))
  }

  /** A walk that meets no embedded resource succeeds and leaves the tables as they were. */
  lemma {:induction false} WalkWithoutEmbedded(t: Tables, subject: Json, id: string, schemaVersion: string, pointer: string,
                                               anchors: Anchors, recursiveAnchors: Anchors)
    requires '#' !in id && WithoutEmbedded(Configured(t), subject, id, schemaVersion, pointer)
    decreases Size(subject), 1, 1
    ensures WalkOf(t, subject, id, schemaVersion, pointer, anchors, recursiveAnchors).0 == t
    ensures WalkOf(t, subject, id, schemaVersion, pointer, anchors, recursiveAnchors).1.Ok?
  {
    match subject
    case JObj(props) =>
      ObjectWalkWithoutEmbedded(t, props, id, schemaVersion, pointer, anchors, recursiveAnchors);
    case JArr(items) =>
      ItemsWalkWithoutEmbedded(t, items, 0, [], id, schemaVersion, pointer, anchors, recursiveAnchors);
    case _ =>
  }

  lemma {:induction false} ObjectWalkWithoutEmbedded(t: Tables, props: Props, id: string, schemaVersion: string,
                                                     pointer: string, anchors: Anchors, recursiveAnchors: Anchors)
    requires '#' !in id && WithoutEmbedded(Configured(t), JObj(props), id, schemaVersion, pointer)
    decreases Size(JObj(props)), 1, 0
    ensures WalkObjectOf(t, props, id, schemaVersion, pointer, anchors, recursiveAnchors).0 == t
    ensures WalkObjectOf(t, props, id, schemaVersion, pointer, anchors, recursiveAnchors).1.Ok?
  {
    var idToken := Token(t, schemaVersion, "idToken");
    var anchorToken := Token(t, schemaVersion, "anchorToken");
    var recursiveAnchorType := GetConfig(t, schemaVersion, "recursiveAnchorType");
    var step := NodeStepOf(props, id, pointer, idToken, anchorToken, recursiveAnchorType);
    StepAtConfigured(t, props, id, schemaVersion, pointer);
    NodeStepKeepBounded(props, id, pointer, idToken, anchorToken, recursiveAnchorType);
    var foundRecursive := if step.recursiveAnchor.Some? then recursiveAnchors[step.recursiveAnchor.value := id] else recursiveAnchors;
    var foundAnchors := if step.anchor.Some? then anchors[step.anchor.value := pointer] else anchors;
    EntriesWalkWithoutEmbedded(t, step.props, Size(JObj(props)), 0, [], id, schemaVersion, pointer, foundAnchors, foundRecursive);
  }

  /** The per-node step reads only the configuration. */
  lemma StepAtConfigured(t: Tables, props: Props, id: string, schemaVersion: string, pointer: string)
    ensures StepAt(Configured(t), props, id, schemaVersion, pointer) == StepAt(t, props, id, schemaVersion, pointer)
  {
    assert GetConfig(Configured(t), schemaVersion, "idToken") == GetConfig(t, schemaVersion, "idToken");
    assert GetConfig(Configured(t), schemaVersion, "anchorToken") == GetConfig(t, schemaVersion, "anchorToken");
    assert GetConfig(Configured(t), schemaVersion, "recursiveAnchorType") == GetConfig(t, schemaVersion, "recursiveAnchorType");
  }

  lemma {:induction false} EntriesWalkWithoutEmbedded(t: Tables, kept: Props, bound: nat, i: nat, acc: Props, id: string,
                                                      schemaVersion: string, pointer: string,
                                                      anchors: Anchors, recursiveAnchors: Anchors)
    requires '#' !in id && ValuesBelow(kept, bound) && i <= |kept| && |acc| == i
    requires EntriesWithoutEmbedded(Configured(t), kept, bound, i, id, schemaVersion, pointer)
    decreases bound, 0, |kept| - i
    ensures WalkEntriesOf(t, kept, bound, i, acc, id, schemaVersion, pointer, anchors, recursiveAnchors).0 == t
    ensures WalkEntriesOf(t, kept, bound, i, acc, id, schemaVersion, pointer, anchors, recursiveAnchors).1.Ok?
  {
    if i < |kept| {
      var key := kept[i].0;
      var childPointer := JsonPointer.Append(key, pointer);
      WalkWithoutEmbedded(t, kept[i].1, id, schemaVersion, childPointer, anchors, recursiveAnchors);
      var child := WalkOf(t, kept[i].1, id, schemaVersion, childPointer, anchors, recursiveAnchors).1.value;
      EntriesWalkWithoutEmbedded(t, kept, bound, i + 1, acc + [(key, child.0)], id, schemaVersion, pointer, child.1, child.2);
    }
  }

  lemma {:induction false} ItemsWalkWithoutEmbedded(t: Tables, items: seq<Json>, i: nat, acc: seq<Json>, id: string,
                                                    schemaVersion: string, pointer: string,
                                                    anchors: Anchors, recursiveAnchors: Anchors)
    requires '#' !in id && i <= |items| && |acc| == i
    requires ItemsWithoutEmbedded(Configured(t), items, i, id, schemaVersion, pointer)
    decreases Size(JArr(items)), 0, |items| - i
    ensures WalkItemsOf(t, items, i, acc, id, schemaVersion, pointer, anchors, recursiveAnchors).0 == t
    ensures WalkItemsOf(t, items, i, acc, id, schemaVersion, pointer, anchors, recursiveAnchors).1.Ok?
  {
    if i < |items| {
      SizeItemsElement(items, i);
      var childPointer := JsonPointer.Append(JsonPointer.NatToString(i), pointer);
      WalkWithoutEmbedded(t, items[i], id, schemaVersion, childPointer, anchors, recursiveAnchors);
      var child := WalkOf(t, items[i], id, schemaVersion, childPointer, anchors, recursiveAnchors).1.value;
      ItemsWalkWithoutEmbedded(t, items, i + 1, acc + [child.0], id, schemaVersion, pointer, child.1, child.2);
    }
  }

  /** A resource body without embedded resources is stored on its own: only its id is
      added to the resources, and no alias changes. */
  lemma AddResourceWithoutEmbedded(t: Tables, body: Json, id: string, schemaVersion: string)
    requires '#' !in id
    requires var vocabularyStep := VocabularyOf(t, schemaVersion, id, body);
      WithoutEmbedded(Configured(if vocabularyStep.0 then t.(configAlias := t.configAlias[id := schemaVersion]) else t),
                      vocabularyStep.2, id, schemaVersion, JsonPointer.Nil)
    ensures var r := AddResourceOf(t, body, id, schemaVersion);
      r.1 == Ok(id) && r.0.resources.Keys == t.resources.Keys + {id} && r.0.aliases == t.aliases
  {
    var (declared, vocabulary, rest) := VocabularyOf(t, schemaVersion, id, body);
    var t1 := if declared then t.(configAlias := t.configAlias[id := schemaVersion]) else t;
    WalkWithoutEmbedded(t1, rest, id, schemaVersion, JsonPointer.Nil, map[], map[]);
  }

  /** A schema without embedded resources is stored on its own: `add` succeeds, the URL
      it was given becomes an alias of exactly its id, and no other alias or resource
      changes. */
  lemma AddWithoutEmbedded(t: Tables, schema: Json, url: string, defaultSchemaVersion: string)
    requires AddIdent(t, schema, url, defaultSchemaVersion).Ok?
    requires var version := DeclaredVersion(schema, defaultSchemaVersion);
      var id := AddIdent(t, schema, url, defaultSchemaVersion).value.1;
      var vocabularyStep := VocabularyOf(t, version, id, WithoutKey(schema, "$schema"));
      WithoutEmbedded(Configured(if vocabularyStep.0 then t.(configAlias := t.configAlias[id := version]) else t),
                      vocabularyStep.2, id, version, JsonPointer.Nil)
    ensures var externalId := AddIdent(t, schema, url, defaultSchemaVersion).value.0;
      var id := AddIdent(t, schema, url, defaultSchemaVersion).value.1;
      var r := AddOf(t, schema, url, defaultSchemaVersion);
      r.1 == Ok(id) && r.0.resources.Keys == t.resources.Keys + {id}
      && r.0.aliases == (if externalId != "" then t.aliases[externalId := id] else t.aliases)
  {
    var version := DeclaredVersion(schema, defaultSchemaVersion);
    var (externalId, id) := AddIdent(t, schema, url, defaultSchemaVersion).value;
    var t1 := if externalId != "" then t.(aliases := t.aliases[externalId := id]) else t;
    var body := WithoutKey(schema, "$schema");
    VocabularyConfigured(t1, t, version, id, body);
    var declared := VocabularyOf(t, version, id, body).0;
    assert Configured(if declared then t1.(configAlias := t1.configAlias[id := version]) else t1)
        == Configured(if declared then t.(configAlias := t.configAlias[id := version]) else t);
    AddResourceWithoutEmbedded(t1, body, id, version);
    assert AddOf(t, schema, url, defaultSchemaVersion) == AddResourceOf(t1, body, id, version);
  }

  /** The vocabulary step reads only the configuration. */
  lemma VocabularyConfigured(t: Tables, u: Tables, schemaVersion: string, id: string, body: Json)
    requires Configured(t) == Configured(u)
    ensures VocabularyOf(t, schemaVersion, id, body) == VocabularyOf(u, schemaVersion, id, body)
  {
    assert GetConfig(t, schemaVersion, "vocabulary") == GetConfig(u, schemaVersion, "vocabulary");
  }

  /** The part of the tables a walk's decisions read: the configuration only. */
  function Configured(t: Tables): Tables {
    Tables(t.config, t.configAlias, map[], map[])
  }

  // ---------------------------------------------------------------- add as written

  /** `add` exactly as written: `isObject` is imported from the helper module, which does
      not export it, so its first call (the vocabulary test, or the walk of the root)
      fails with a TypeError after the alias is recorded and before anything is stored. */
  function AddAsWritten(t: Tables, schema: Json, url: string, defaultSchemaVersion: string): (r: (Tables, Result<string>))
    ensures r.1.Err?
    ensures r.0.resources == t.resources && r.0.config == t.config && r.0.configAlias == t.configAlias
  {
    match AddIdent(t, schema, url, defaultSchemaVersion)
    case Err(e) => (t, Err(e))
    case Ok((externalId, id)) =>
      var t1 := if externalId != "" then t.(aliases := t.aliases[externalId := id]) else t;
      (t1, Err(NotAFunction("isObject")))
  }

  /** Adding as written under a URL leaves that URL aliased to an id that was never
      stored: the store reports the URL as present, but reading it fails. */
  lemma AddAsWrittenLeavesDanglingAlias(t: Tables, schema: Json, url: string, defaultSchemaVersion: string)
    requires AddIdent(t, schema, url, defaultSchemaVersion).Ok?
    requires var (externalId, id) := AddIdent(t, schema, url, defaultSchemaVersion).value;
      externalId != "" && externalId !in t.resources && id !in t.resources
    ensures var (externalId, id) := AddIdent(t, schema, url, defaultSchemaVersion).value;
      var r := AddAsWritten(t, schema, url, defaultSchemaVersion);
      r.1 == Err(NotAFunction("isObject")) && r.0.aliases[externalId] == id
      && HasStoredSchema(r.0, externalId) && GetStoredSchema(r.0, externalId) == Err(DanglingAlias(externalId))
  {
  }

  /** `get` exactly as written: once the view is built, the reference test calls the
      missing `isObject`, so no `get` returns a view. */
  function GetAsWritten(t: Tables, url: string, context: View, recursive: bool): (r: Result<View>)
    ensures r.Err?
    ensures ViewAt(t, url, context, recursive).Ok? ==> r == Err(NotAFunction("isObject"))
  {
    var doc :- ViewAt(t, url, context, recursive);
    Err(NotAFunction("isObject"))
  }

  // ---------------------------------------------------------------- views

  /** `uri(doc)`: the resource id, `#`, then the pointer (URI encoding is the identity here). */
  function Uri(doc: View): (u: string)
    ensures '#' !in doc.id ==> SplitUrl(u) == (doc.id, doc.pointer)
  {
    if '#' !in doc.id then SplitJoin(doc.id, doc.pointer); doc.id + "#" + doc.pointer
    else doc.id + "#" + doc.pointer
  }

  /** `value(doc)`: what the view's pointer denotes in its resource; `None` for `undefined`. */
  function Value(doc: View): (r: Option<Json>)
    ensures doc.schema.None? ==> r.None?
    ensures doc.pointer == "" ==> r == doc.schema
  {
    match doc.schema
    case Some(tree) => JsonPointer.Get(doc.pointer, tree)
    case None => None
  }

  /** `getAnchorPointer(storedSchema, fragment)`: the pointer an anchor was recorded at. */
  function GetAnchorPointer(stored: StoredSchema, fragment: string): (r: Result<string>)
    ensures r.Ok? <==> fragment in stored.anchors
    ensures r.Ok? ==> r.value == stored.anchors[fragment]
    ensures r.Err? ==> r.error == AnchorNotFound(stored.id, fragment)
  {
    if fragment !in stored.anchors then Err(AnchorNotFound(stored.id, fragment))
    else Ok(stored.anchors[fragment])
  }

  /** The URL `get` resolves against: the context's recursive anchor for `url` when
      following a recursive reference and one is recorded, else the context's uri. */
  function ContextUrl(url: string, context: View, recursive: bool): string {
    if recursive && url in context.recursiveAnchors && context.recursiveAnchors[url] != "" then
      context.recursiveAnchors[url]
    else Uri(context)
  }

  /** The view of a stored resource at a fragment, before any reference is followed: the
      resource the resolved URL names, at the fragment when it is a JSON pointer. */
  function ViewAt(t: Tables, url: string, context: View, recursive: bool): (r: Result<View>)
    ensures SafeResolveUrl(ContextUrl(url, context, recursive), url).Err? ==>
      r == Err(SafeResolveUrl(ContextUrl(url, context, recursive), url).error)
    ensures r.Ok? ==>
      var resolvedUrl := SafeResolveUrl(ContextUrl(url, context, recursive), url).value;
      var stored := GetStoredSchema(t, SplitUrl(resolvedUrl).0);
      var fragment := SplitUrl(resolvedUrl).1;
      stored.Ok? && r.value.id == stored.value.id && r.value.schema == Some(stored.value.schema)
      && r.value.schemaVersion == Some(stored.value.schemaVersion) && r.value.validated == stored.value.validated
      && (fragment == "" || fragment[0] == '/' ==> r.value.pointer == fragment)
    ensures r.Ok? ==> r.value.recursiveAnchors.Keys >= context.recursiveAnchors.Keys
    ensures r.Ok? ==> forall k :: k in context.recursiveAnchors ==>
      r.value.recursiveAnchors[k] == context.recursiveAnchors[k]
  {
    var resolvedUrl :- SafeResolveUrl(ContextUrl(url, context, recursive), url);
    var id := SplitUrl(resolvedUrl).0;
    var fragment := SplitUrl(resolvedUrl).1;
    if !HasStoredSchema(t, id) then Err(RetrievalFailed(id))
    else
      var stored :- GetStoredSchema(t, id);
      var pointer :- if fragment != "" && fragment[0] != '/' then GetAnchorPointer(stored, fragment) else Ok(fragment);
      Ok(View(stored.id, Some(stored.schemaVersion), Some(stored.vocabulary), pointer, Some(stored.schema),
              stored.recursiveAnchors + context.recursiveAnchors, stored.validated))
  }

  /** A dialect setting of the view's dialect. */
  function ViewConfig(t: Tables, doc: View, key: string): Option<Json> {
    GetConfig(t, match doc.schemaVersion case Some(v) => v case None => "undefined", key)
  }

  /** The reference a view stands for, if any: an embedded-resource placeholder, a `$ref`
      object (JSON Reference dialects), or a `$ref` / `$recursiveRef` keyword value
      (keyword-reference dialects). The flag says whether it is recursive. */
  function Follow(t: Tables, doc: View): Option<(string, bool)> {
    match Value(doc)
    case Some(JRef(href)) => Some((href, false))
    case Some(JObj(props)) =>
      if TruthyValue(ViewConfig(t, doc, "jsonReference")) && LookupString(props, "$ref").Some? then
        Some((LookupString(props, "$ref").value, false))
      else None
    case Some(JStr(s)) =>
      if TruthyValue(ViewConfig(t, doc, "keywordReference")) && Url.EndsWith(doc.pointer, "/$ref") then
        Some((s, false))
      else if TruthyValue(ViewConfig(t, doc, "keywordRecursiveReference")) && Url.EndsWith(doc.pointer, "/$recursiveRef") then
        Some((s, true))
      else None
    case _ => None
  }

  /** `get(url, contextDoc, recursive)`: the view `url` denotes, with references followed.
      The engine follows references without bound; here at most `fuel` of them. */
  function Get(t: Tables, url: string, context: View, recursive: bool, fuel: nat): (r: Result<View>)
    decreases fuel, 1
    ensures r.Ok? ==> Follow(t, r.value) == None
    ensures r.Ok? ==> forall k :: k in context.recursiveAnchors ==>
      k in r.value.recursiveAnchors && r.value.recursiveAnchors[k] == context.recursiveAnchors[k]
  {
    var doc :- ViewAt(t, url, context, recursive);
    Chase(t, doc, fuel)
  }

  /** The tail of `get`: `doc` when it stands for no reference, else `get` of its target
      in its own context. */
  function Chase(t: Tables, doc: View, fuel: nat): (r: Result<View>)
    decreases fuel, 0
    ensures Follow(t, doc) == None ==> r == Ok(doc)
    ensures Follow(t, doc).Some? && fuel == 0 ==> r == Err(ReferenceChainTooLong(Follow(t, doc).value.0))
    ensures Follow(t, doc).Some? && fuel > 0 ==>
      r == Get(t, Follow(t, doc).value.0, doc, Follow(t, doc).value.1, fuel - 1)
    ensures r.Ok? ==> Follow(t, r.value) == None
    ensures r.Ok? ==> forall k :: k in doc.recursiveAnchors ==>
      k in r.value.recursiveAnchors && r.value.recursiveAnchors[k] == doc.recursiveAnchors[k]
  {
    match Follow(t, doc)
    case None => Ok(doc)
    case Some(hop) =>
      if fuel == 0 then Err(ReferenceChainTooLong(hop.0))
      else Get(t, hop.0, doc, hop.1, fuel - 1)
  }

  /** `step(key, doc)`: the view one key further down, itself obtained through `get`. */
  function Step(t: Tables, key: string, doc: View, fuel: nat): Result<View> {
    Get(t, "#" + JsonPointer.Append(key, doc.pointer), doc, false, fuel)
  }

  /** `Object.keys(value(doc))`: an object's keys in order and an array's indices in
      order; a reference placeholder and a scalar have none, and `undefined` or `null`
      has no keys to take. */
  function KeysOf(doc: View): (r: Result<seq<string>>)
    ensures r.Err? <==> Value(doc) == None || Value(doc) == Some(JNull)
    ensures r.Err? ==> r.error == NoKeys(doc.pointer)
    ensures Value(doc).Some? && Value(doc).value.JObj? ==> r == Ok(Keys(Value(doc).value.props))
    ensures Value(doc).Some? && Value(doc).value.JArr? ==>
      r.Ok? && |r.value| == |Value(doc).value.items|
      && forall i :: 0 <= i < |r.value| ==> r.value[i] == JsonPointer.NatToString(i)
    ensures Value(doc).Some? && !(Value(doc).value.JObj? || Value(doc).value.JArr? || Value(doc).value.JNull?) ==> r == Ok([])
  {
    match Value(doc)
    case None => Err(NoKeys(doc.pointer))
    case Some(JNull) => Err(NoKeys(doc.pointer))
    case Some(JObj(props)) => Ok(Keys(props))
    case Some(JArr(items)) => Ok(seq(|items|, i requires 0 <= i < |items| => JsonPointer.NatToString(i)))
    case Some(_) => Ok([])
  }

  /** `Pact.all` over keyed results: every value when all succeed, else the first failure. */
  function All<T>(keys: seq<string>, results: seq<Result<T>>): (r: Result<seq<(string, T)>>)
    requires |keys| == |results|
    ensures r.Ok? <==> forall i :: 0 <= i < |results| ==> results[i].Ok?
    ensures r.Ok? ==> |r.value| == |keys|
    ensures r.Ok? ==> forall i :: 0 <= i < |keys| ==> r.value[i] == (keys[i], results[i].value)
    ensures r.Err? ==> exists i :: 0 <= i < |results| && results[i] == Err(r.error)
  {
    if keys == [] then Ok([])
    else
      var first :- results[0];
      var rest :- All(keys[1..], results[1..]);
      assert forall i :: 1 <= i < |keys| ==> keys[i] == keys[1..][i - 1] && results[i] == results[1..][i - 1];
      Ok([(keys[0], first)] + rest)
  }

  /** `entries(doc)`: each key of the view's value with the view one step down. */
  function Entries(t: Tables, doc: View, fuel: nat): (r: Result<seq<(string, View)>>)
    ensures KeysOf(doc).Err? ==> r == Err(KeysOf(doc).error)
    ensures r.Ok? <==> KeysOf(doc).Ok? && forall i :: 0 <= i < |KeysOf(doc).value| ==> Step(t, KeysOf(doc).value[i], doc, fuel).Ok?
    ensures r.Ok? ==> |r.value| == |KeysOf(doc).value|
    ensures r.Ok? ==> forall i :: 0 <= i < |r.value| ==>
      r.value[i].0 == KeysOf(doc).value[i] && Step(t, KeysOf(doc).value[i], doc, fuel) == Ok(r.value[i].1)
  {
    var keys :- KeysOf(doc);
    All(keys, seq(|keys|, i requires 0 <= i < |keys| => Step(t, keys[i], doc, fuel)))
  }

  /** A URL whose view stands for no reference is got as that view. */
  lemma GetNotReference(t: Tables, url: string, context: View, recursive: bool, fuel: nat)
    requires ViewAt(t, url, context, recursive).Ok? && Follow(t, ViewAt(t, url, context, recursive).value) == None
    ensures Get(t, url, context, recursive, fuel) == ViewAt(t, url, context, recursive)
  {
  }

  /** A URL whose view stands for a reference is got as the reference's target, resolved
      in that view. */
  lemma GetFollowsReference(t: Tables, url: string, context: View, recursive: bool, fuel: nat)
    requires ViewAt(t, url, context, recursive).Ok? && Follow(t, ViewAt(t, url, context, recursive).value).Some?
    ensures var doc := ViewAt(t, url, context, recursive).value;
      Get(t, url, context, recursive, fuel + 1) == Get(t, Follow(t, doc).value.0, doc, Follow(t, doc).value.1, fuel)
  {
  }

  /** The view's own recursive anchors: the resource's table overlaid with the context's. */
  lemma ViewAtOverlay(t: Tables, url: string, context: View, recursive: bool)
    requires ViewAt(t, url, context, recursive).Ok?
    ensures var id := SplitUrl(SafeResolveUrl(ContextUrl(url, context, recursive), url).value).0;
      ViewAt(t, url, context, recursive).value.recursiveAnchors
        == GetStoredSchema(t, id).value.recursiveAnchors + context.recursiveAnchors
  {
  }

  /** A URL whose resource is neither stored nor aliased cannot be retrieved here. */
  lemma GetNotStored(t: Tables, url: string, context: View, recursive: bool, fuel: nat)
    requires SafeResolveUrl(ContextUrl(url, context, recursive), url).Ok?
    requires !HasStoredSchema(t, StripFragment(SafeResolveUrl(ContextUrl(url, context, recursive), url).value))
    ensures Get(t, url, context, recursive, fuel)
      == Err(RetrievalFailed(StripFragment(SafeResolveUrl(ContextUrl(url, context, recursive), url).value)))
  {
  }

  /** A fragment that is not a JSON pointer names an anchor: unknown anchors fail, known
      ones give the view at the recorded pointer. */
  lemma ViewAtAnchor(t: Tables, url: string, context: View, recursive: bool)
    requires SafeResolveUrl(ContextUrl(url, context, recursive), url).Ok?
    requires var resolvedUrl := SafeResolveUrl(ContextUrl(url, context, recursive), url).value;
      var fragment := SplitUrl(resolvedUrl).1;
      fragment != "" && fragment[0] != '/' && GetStoredSchema(t, SplitUrl(resolvedUrl).0).Ok?
    ensures var resolvedUrl := SafeResolveUrl(ContextUrl(url, context, recursive), url).value;
      var fragment := SplitUrl(resolvedUrl).1;
      var stored := GetStoredSchema(t, SplitUrl(resolvedUrl).0).value;
      (fragment !in stored.anchors ==> ViewAt(t, url, context, recursive) == Err(AnchorNotFound(stored.id, fragment)))
      && (fragment in stored.anchors ==>
            ViewAt(t, url, context, recursive).Ok?
            && ViewAt(t, url, context, recursive).value.pointer == stored.anchors[fragment])
  {
  }

  /** The view of a stored resource's root. */
  function RootView(stored: StoredSchema): View {
    View(stored.id, Some(stored.schemaVersion), Some(stored.vocabulary), JsonPointer.Nil, Some(stored.schema),
         stored.recursiveAnchors, stored.validated)
  }

  /** Getting a resource by the URL it was added under gives its root view, whose uri is
      the resource's own id followed by `#`. */
  lemma GetByAlias(t: Tables, externalId: string, fuel: nat)
    requires Url.HasScheme(externalId) && '#' !in externalId
    requires externalId in t.aliases && t.aliases[externalId] in t.resources
    requires var stored := t.resources[t.aliases[externalId]];
      stored.id == t.aliases[externalId] && '#' !in stored.id && Follow(t, RootView(stored)) == None
    ensures Get(t, externalId, Nil, false, fuel) == Ok(RootView(t.resources[t.aliases[externalId]]))
    ensures Uri(Get(t, externalId, Nil, false, fuel).value) == t.aliases[externalId] + "#"
  {
    var stored := t.resources[t.aliases[externalId]];
    assert Uri(Nil) == "#";
    assert SplitUrl("#").0 == "" by { assert "#"[0] == '#'; }
    assert Url.Resolve("#", externalId) == externalId;
    assert SplitUrl(externalId) == (externalId, "");
    assert stored.recursiveAnchors + map[] == stored.recursiveAnchors;
  }

  /** A `$recursiveRef` keyword resolves against the recursive anchor the context has for
      it, when there is one. */
  lemma RecursiveRefUsesAnchor(t: Tables, doc: View, s: string)
    requires Value(doc) == Some(JStr(s)) && Url.EndsWith(doc.pointer, "/$recursiveRef")
    requires TruthyValue(ViewConfig(t, doc, "keywordRecursiveReference"))
    requires s in doc.recursiveAnchors && doc.recursiveAnchors[s] != ""
    ensures Follow(t, doc) == Some((s, true))
    ensures ContextUrl(s, doc, true) == doc.recursiveAnchors[s]
  {
    assert !Url.EndsWith(doc.pointer, "/$ref") by {
      var n := |doc.pointer|;
      var tail := doc.pointer[n - 14..];
      assert tail == "/$recursiveRef";
      assert doc.pointer[n - 5..] == tail[9..] == "veRef";
    }
  }

  /** `step` stays in the view's resource: its target is the extended pointer there. */
  lemma StepTarget(key: string, doc: View)
    requires '#' !in doc.id
    ensures SplitUrl(Url.Resolve(Uri(doc), "#" + JsonPointer.Append(key, doc.pointer)))
         == (doc.id, JsonPointer.Append(key, doc.pointer))
  {
    Url.ResolveFragmentOnly(Uri(doc), JsonPointer.Append(key, doc.pointer));
  }

  // ---------------------------------------------------------------- the store

  class Store {
    var config: map<string, map<string, Json>>
    var configAlias: map<string, string>
    var resources: map<string, StoredSchema>
    var aliases: map<string, string>

    function Snapshot(): Tables
      reads this
    {
      Tables(config, configAlias, resources, aliases)
    }

    constructor ()
      ensures config == map[] && configAlias == map[] && resources == map[] && aliases == map[]
    {
      config := map[];
      configAlias := map[];
      resources := map[];
      aliases := map[];
    }

    /** `setConfig(schemaVersion, key, value)`: one setting of one dialect. */
    method SetConfig(schemaVersion: string, key: string, value: Json)
      modifies this
      ensures config == old(config)[schemaVersion :=
        (if schemaVersion in old(config) then old(config)[schemaVersion] else map[])[key := value]]
      ensures configAlias == old(configAlias) && resources == old(resources) && aliases == old(aliases)
      ensures schemaVersion !in configAlias ==> GetConfig(Snapshot(), schemaVersion, key) == Some(value)
      ensures forall k :: k != key ==> GetConfig(Snapshot(), schemaVersion, k) == GetConfig(old(Snapshot()), schemaVersion, k)
    {
      if schemaVersion !in config {
        config := config[schemaVersion := map[]];
      }
      config := config[schemaVersion := config[schemaVersion][key := value]];
    }

    /** `markValidated(id)`: the stored resource is flagged as meta-validated. */
    method MarkValidated(id: string) returns (r: Result<()>)
      modifies this
      ensures r.Ok? <==> id in old(resources)
      ensures r.Ok? ==> resources == old(resources)[id := old(resources)[id].(validated := true)]
      ensures r.Err? ==> resources == old(resources) && r.error == NotStored(id)
      ensures config == old(config) && configAlias == old(configAlias) && aliases == old(aliases)
    {
      if id !in resources {
        return Err(NotStored(id));
      }
      resources := resources[id := resources[id].(validated := true)];
      return Ok(());
    }

    /** `add(schema, url, defaultSchemaVersion)`: determines the dialect and the id,
        records the alias, walks the schema and stores the result. Returns the stored id. */
    method Add(schema: Json, url: string, defaultSchemaVersion: string) returns (r: Result<string>)
      modifies this
      decreases Size(schema), 3
      ensures (Snapshot(), r) == AddOf(old(Snapshot()), schema, url, defaultSchemaVersion)
    {
      if schema == JNull {
        return Err(NullSchema);
      }
      var schemaVersion := DeclaredVersion(schema, defaultSchemaVersion);
      if schemaVersion == "" {
        return Err(VersionUndetermined);
      }
      var body := WithoutKey(schema, "$schema");
      var idToken := Token(Snapshot(), schemaVersion, "idToken");
      var ident := IdentifierOf(body, url, idToken);
      if ident.Err? {
        return Err(ident.error);
      }
      var (externalId, id) := ident.value;
      if externalId != "" {
        aliases := aliases[externalId := id];
      }
      r := AddResource(body, id, schemaVersion);
    }

    /** The second half of `add`: splits off the vocabulary, walks the resource from its
        root with no anchors found yet, and stores it unvalidated under its id. */
    method AddResource(body: Json, id: string, schemaVersion: string) returns (r: Result<string>)
      requires '#' !in id
      modifies this
      decreases Size(body), 2
      ensures (Snapshot(), r) == AddResourceOf(old(Snapshot()), body, id, schemaVersion)
    {
      var (declared, vocabulary, rest) := VocabularyOf(Snapshot(), schemaVersion, id, body);
      if declared {
        configAlias := configAlias[id := schemaVersion];
      }
      var processed := ProcessSchema(rest, id, schemaVersion, JsonPointer.Nil, map[], map[]);
      if processed.Err? {
        return Err(processed.error);
      }
      var (tree, anchors, recursiveAnchors) := processed.value;
      resources := resources[id := StoredSchema(id, schemaVersion, tree, anchors, recursiveAnchors, vocabulary, false)];
      return Ok(id);
    }

    /** `processSchema(subject, id, schemaVersion, pointer, anchors, recursiveAnchors)`:
        returns the processed subject and the two accumulators after the walk. */
    method ProcessSchema(subject: Json, id: string, schemaVersion: string, pointer: string,
                         anchors: Anchors, recursiveAnchors: Anchors)
      returns (r: Result<(Json, Anchors, Anchors)>)
      requires '#' !in id
      modifies this
      decreases Size(subject), 1
      ensures (Snapshot(), r) == WalkOf(old(Snapshot()), subject, id, schemaVersion, pointer, anchors, recursiveAnchors)
    {
      match subject {
        case JObj(props) =>
          var tables := Snapshot();
          var idToken := Token(tables, schemaVersion, "idToken");
          var anchorToken := Token(tables, schemaVersion, "anchorToken");
          var recursiveAnchorType := GetConfig(tables, schemaVersion, "recursiveAnchorType");
          match NodeStepOf(props, id, pointer, idToken, anchorToken, recursiveAnchorType) {
            case NodeFail(e) =>
              return Err(e);
            case Embed(embedded, target, ref) =>
              NodeStepEmbedLighter(props, id, pointer, idToken, anchorToken, recursiveAnchorType);
              assert WalkOf(tables, subject, id, schemaVersion, pointer, anchors, recursiveAnchors)
                  == EmbedOf(tables, embedded, target, ref, schemaVersion, anchors, recursiveAnchors);
              var added := Add(JObj(embedded), target, schemaVersion);
              if added.Err? {
                return Err(added.error);
              }
              return Ok((JRef(ref), anchors, recursiveAnchors));
            case Keep(kept, anchor, recursiveAnchor) =>
              NodeStepKeepBounded(props, id, pointer, idToken, anchorToken, recursiveAnchorType);
              NodeStepConsumesKeywords(props, id, pointer, idToken, anchorToken, recursiveAnchorType);
              assert WalkOf(tables, subject, id, schemaVersion, pointer, anchors, recursiveAnchors)
                  == KeepOf(tables, NodeStepOf(props, id, pointer, idToken, anchorToken, recursiveAnchorType), Size(subject),
                            idToken, anchorToken, id, schemaVersion, pointer, anchors, recursiveAnchors);
              var foundAnchors := anchors;
              var foundRecursive := recursiveAnchors;
              if recursiveAnchor.Some? {
                foundRecursive := foundRecursive[recursiveAnchor.value := id];
              }
              if anchor.Some? {
                foundAnchors := foundAnchors[anchor.value := pointer];
              }
              var entries := ProcessEntries(kept, Size(subject), id, schemaVersion, pointer, foundAnchors, foundRecursive);
              if entries.Err? {
                return Err(entries.error);
              }
              return Ok((JObj(entries.value.0), entries.value.1, entries.value.2));
          }
        case JArr(items) =>
          var processed := ProcessItems(items, id, schemaVersion, pointer, anchors, recursiveAnchors);
          if processed.Err? {
            return Err(processed.error);
          }
          return Ok((JArr(processed.value.0), processed.value.1, processed.value.2));
        case JRef(_) =>
          return Ok((JObj([]), anchors, recursiveAnchors));
        case _ =>
          return Ok((subject, anchors, recursiveAnchors));
      }
    }

    /** The `subject.map(...)` of `processSchema`: every item of an array is processed one
        level down, under its index. */
    method ProcessItems(items: seq<Json>, id: string, schemaVersion: string, pointer: string,
                        anchors: Anchors, recursiveAnchors: Anchors)
      returns (r: Result<(seq<Json>, Anchors, Anchors)>)
      requires '#' !in id
      modifies this
      decreases Size(JArr(items)), 0
      ensures (Snapshot(), r) == WalkItemsOf(old(Snapshot()), items, 0, [], id, schemaVersion, pointer, anchors, recursiveAnchors)
    {
      var foundAnchors := anchors;
      var foundRecursive := recursiveAnchors;
      var acc: seq<Json> := [];
      var i := 0;
      while i < |items|
        invariant 0 <= i <= |items| && |acc| == i
        invariant WalkItemsOf(old(Snapshot()), items, 0, [], id, schemaVersion, pointer, anchors, recursiveAnchors)
               == WalkItemsOf(Snapshot(), items, i, acc, id, schemaVersion, pointer, foundAnchors, foundRecursive)
      {
        ghost var before := Snapshot();
        SizeItemsElement(items, i);
        var key := JsonPointer.NatToString(i);
        var child := ProcessSchema(items[i], id, schemaVersion, JsonPointer.Append(key, pointer),
                                   foundAnchors, foundRecursive);
        if child.Err? {
          return Err(child.error);
        }
        acc := acc + [child.value.0];
        foundAnchors := child.value.1;
        foundRecursive := child.value.2;
        i := i + 1;
      }
      return Ok((acc, foundAnchors, foundRecursive));
    }

    /** The `Object.entries(subject).reduce(...)` of `processSchema`: every entry of the
        node that stays is processed one level down, in key order. */
    method ProcessEntries(kept: Props, bound: nat, id: string, schemaVersion: string, pointer: string,
                          anchors: Anchors, recursiveAnchors: Anchors)
      returns (r: Result<(Props, Anchors, Anchors)>)
      requires '#' !in id
      requires ValuesBelow(kept, bound)
      modifies this
      decreases bound, 0
      ensures (Snapshot(), r) == WalkEntriesOf(old(Snapshot()), kept, bound, 0, [], id, schemaVersion, pointer,
                                              anchors, recursiveAnchors)
    {
      var foundAnchors := anchors;
      var foundRecursive := recursiveAnchors;
      var acc: Props := [];
      var i := 0;
      while i < |kept|
        invariant 0 <= i <= |kept| && |acc| == i
        invariant WalkEntriesOf(old(Snapshot()), kept, bound, 0, [], id, schemaVersion, pointer, anchors, recursiveAnchors)
               == WalkEntriesOf(Snapshot(), kept, bound, i, acc, id, schemaVersion, pointer, foundAnchors, foundRecursive)
      {
        ghost var before := Snapshot();
        var key := kept[i].0;
        var child := ProcessSchema(kept[i].1, id, schemaVersion, JsonPointer.Append(key, pointer),
                                   foundAnchors, foundRecursive);
        if child.Err? {
          return Err(child.error);
        }
        acc := acc + [(key, child.value.0)];
        foundAnchors := child.value.1;
        foundRecursive := child.value.2;
        i := i + 1;
      }
      return Ok((acc, foundAnchors, foundRecursive));
    }
  }
}
