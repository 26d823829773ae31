/** The `validate` keyword of lib/keywords/validate.js: compiling a schema view into the
    AST table, interpreting a compiled node against an instance, and collecting the
    property names a schema evaluates. */
module ValidateKeyword {
  import opened Base
  import opened Ast
  import Schema
  import Instance
  import Output
  import Url

  /** The dialect of a view as a template string prints it. */
  function VersionOf(schema: Schema.View): string {
    match schema.schemaVersion case Some(v) => v case None => "undefined"
  }

  /** `${schema.schemaVersion}#validate` */
  function ValidateId(schema: Schema.View): string {
    VersionOf(schema) + "#validate"
  }

  // ---------------------------------------------------------------- compile

  /** The pipeline's map and filter: each entry's key becomes `<version>#<key>`, and only
      ids with a handler, other than `validate` itself, are kept. */
  function Selected(keywords: Keywords, version: string, entries: seq<(string, Schema.View)>): (r: seq<(string, Schema.View)>)
    decreases |entries|
    ensures |r| <= |entries|
    ensures forall i :: 0 <= i < |r| ==> r[i].0 in keywords && r[i].0 != version + "#validate"
    ensures forall x :: x in r <==>
      (x.0 in keywords && x.0 != version + "#validate"
       && exists j :: 0 <= j < |entries| && x == (version + "#" + entries[j].0, entries[j].1))
  {
    if entries == [] then []
    else
      var id := version + "#" + entries[0].0;
      var rest := Selected(keywords, version, entries[1..]);
      assert forall j :: 1 <= j < |entries| ==> entries[j] == entries[1..][j - 1];
      if id in keywords && id != version + "#validate" then [(id, entries[0].1)] + rest else rest
  }

  /** The selection keeps key order: selecting from two runs of entries is selecting from
      the first, then from the second. */
  lemma {:induction false} SelectedConcat(keywords: Keywords, version: string, a: seq<(string, Schema.View)>, b: seq<(string, Schema.View)>)
    ensures Selected(keywords, version, a + b) == Selected(keywords, version, a) + Selected(keywords, version, b)
    decreases |a|
  {
    if a == [] {
      assert a + b == b;
    } else {
      assert (a + b)[0] == a[0];
      assert (a + b)[1..] == a[1..] + b;
      SelectedConcat(keywords, version, a[1..], b);
    }
  }

  /** What compiling one keyword yields: its AST and the subschemas compiled for it. A
      `validate` handler under another keyword id compiles the keyword schema itself and
      yields no AST. */
  function CompileKeyword(h: Handler, keywordSchema: Schema.View, parent: Schema.View): (Json, seq<Schema.View>) {
    match h
    case ValidateHandler => (JNull, [keywordSchema])
    case Keyword(compile, _, _) => compile(keywordSchema, parent)
  }

  /** The AST triple of one selected keyword. */
  function ChildOf(keywords: Keywords, parent: Schema.View, selected: (string, Schema.View)): Child
    requires selected.0 in keywords
  {
    Child(selected.0, Schema.Uri(selected.1), CompileKeyword(keywords[selected.0], selected.1, parent).0)
  }

  /** The keywords an object schema compiles, with their keyword schemas; none for a
      boolean schema. Fails when stepping into some key fails. */
  function Selection(t: Schema.Tables, fuel: nat, keywords: Keywords, schema: Schema.View): (r: Result<seq<(string, Schema.View)>>)
    ensures r.Ok? ==> forall i :: 0 <= i < |r.value| ==> r.value[i].0 in keywords
  {
    match Schema.Value(schema)
    case Some(JBool(_)) => Ok([])
    case _ =>
      match Schema.Entries(t, schema, fuel)
      case Err(e) => Err(e)
      case Ok(entries) => Ok(Selected(keywords, VersionOf(schema), entries))
  }

  /** The triples of the selected keywords, in selection order. */
  function ChildrenOf(keywords: Keywords, parent: Schema.View, sel: seq<(string, Schema.View)>): (r: seq<Child>)
    requires forall i :: 0 <= i < |sel| ==> sel[i].0 in keywords
    ensures |r| == |sel|
    ensures forall i :: 0 <= i < |sel| ==> r[i].keywordId == sel[i].0 && r[i].schemaUri == Schema.Uri(sel[i].1)
  {
    seq(|sel|, i requires 0 <= i < |sel| => ChildOf(keywords, parent, sel[i]))
  }

  /** The triples of one more selected keyword are those of the shorter prefix, then its own. */
  lemma ChildrenOfSnoc(keywords: Keywords, parent: Schema.View, sel: seq<(string, Schema.View)>, i: nat)
    requires i < |sel| && forall j :: 0 <= j < |sel| ==> sel[j].0 in keywords
    ensures ChildrenOf(keywords, parent, sel[..i + 1])
         == ChildrenOf(keywords, parent, sel[..i]) + [ChildOf(keywords, parent, sel[i])]
  {
    var longer, shorter := sel[..i + 1], sel[..i];
    var a := ChildrenOf(keywords, parent, longer);
    var b := ChildrenOf(keywords, parent, shorter) + [ChildOf(keywords, parent, sel[i])];
    forall j | 0 <= j < |a|
      ensures a[j] == b[j]
    {
      if j < i {
        assert longer[j] == shorter[j];
      }
    }
  }

  /** Whether every keyword a selection names has a handler. */
  predicate Registered(keywords: Keywords, selection: Result<seq<(string, Schema.View)>>) {
    selection.Ok? ==> forall i :: 0 <= i < |selection.value| ==> selection.value[i].0 in keywords
  }

  /** Whether a view's value is a boolean schema. */
  predicate IsBoolean(schema: Schema.View) {
    Schema.Value(schema).Some? && Schema.Value(schema).value.JBool?
  }

  /** The body `compile` stores for a schema, given its keyword selection: the boolean of
      a boolean schema, otherwise one triple per selected keyword, in key order. */
  function BodyFrom(keywords: Keywords, schema: Schema.View, selection: Result<seq<(string, Schema.View)>>): (r: Result<Body>)
    requires Registered(keywords, selection)
    ensures r.Ok? <==> IsBoolean(schema) || selection.Ok?
    ensures IsBoolean(schema) ==> r == Ok(Boolean(Schema.Value(schema).value.b))
    ensures !IsBoolean(schema) && r.Ok? ==> r.value == Children(ChildrenOf(keywords, schema, selection.value))
  {
    match Schema.Value(schema)
    case Some(JBool(b)) => Ok(Boolean(b))
    case _ =>
      var sel :- selection;
      Ok(Children(ChildrenOf(keywords, schema, sel)))
  }

  /** The body `compile` stores for a schema of the store `t`. */
  function BodyOf(t: Schema.Tables, fuel: nat, keywords: Keywords, schema: Schema.View): (r: Result<Body>)
    ensures r.Ok? <==> Selection(t, fuel, keywords, schema).Ok?
  {
    BodyFrom(keywords, schema, Selection(t, fuel, keywords, schema))
  }

  /** Every entry present before is still there, unchanged. */
  ghost predicate Grown(before: Table, after: Table) {
    forall k :: k in before ==> k in after && after[k] == before[k]
  }

  /** Every entry added since `before` is a finished node. */
  ghost predicate Finished(before: Table, after: Table) {
    forall k :: k in after && k !in before ==> after[k].Node?
  }

  /** The subschemas compiled so far stay compiled while the table grows. */
  lemma CoversNext(views: seq<Schema.View>, i: nat, before: Table, after: Table)
    requires i < |views| && Grown(before, after) && Schema.Uri(views[i]) in after
    requires forall j :: 0 <= j < i ==> Schema.Uri(views[j]) in before
    ensures forall j :: 0 <= j < i + 1 ==> Schema.Uri(views[j]) in after
  {
  }

  /** A table grown from a placeholder for a new uri has grown from the table before it. */
  lemma GrownPast(before: Table, url: string, after: Table)
    requires url !in before && Grown(before[url := Placeholder], after)
    ensures Grown(before, after)
  {
  }

  /** Growing twice is growing, and finishing twice is finishing. */
  lemma Chain(a: Table, b: Table, c: Table)
    requires Grown(a, b) && Grown(b, c)
    ensures Grown(a, c) && a.Keys <= b.Keys <= c.Keys
    ensures Finished(a, b) && Finished(b, c) ==> Finished(a, c)
  {
  }

  /** The subschemas of the selected keywords all have AST entries. */
  ghost predicate SubschemasIn(ast: Table, keywords: Keywords, parent: Schema.View, sel: seq<(string, Schema.View)>)
    requires forall i :: 0 <= i < |sel| ==> sel[i].0 in keywords
  {
    forall i, v :: 0 <= i < |sel| && v in CompileKeyword(keywords[sel[i].0], sel[i].1, parent).1 ==> Schema.Uri(v) in ast
  }

  /** Once one more keyword's subschemas have entries, a longer prefix of the selection
      has all its subschemas compiled. */
  lemma SubschemasExtend(before: Table, after: Table, keywords: Keywords, parent: Schema.View,
                         sel: seq<(string, Schema.View)>, i: nat)
    requires i < |sel| && forall j :: 0 <= j < |sel| ==> sel[j].0 in keywords
    requires SubschemasIn(before, keywords, parent, sel[..i]) && before.Keys <= after.Keys
    requires forall v :: v in CompileKeyword(keywords[sel[i].0], sel[i].1, parent).1 ==> Schema.Uri(v) in after
    ensures SubschemasIn(after, keywords, parent, sel[..i + 1])
  {
    var prefix := sel[..i + 1];
    forall j, v | 0 <= j < |prefix| && v in CompileKeyword(keywords[prefix[j].0], prefix[j].1, parent).1
      ensures Schema.Uri(v) in after
    {
      if j < i {
        assert sel[..i][j] == sel[j] == prefix[j];
        assert Schema.Uri(v) in before;
      }
    }
  }

  /** Taking more keys out of a finite set leaves no more of it. */
  lemma Remaining(u: set<string>, a: set<string>, b: set<string>)
    requires a <= b
    ensures |u - b| <= |u - a|
  {
    var d := (u - a) - (u - b);
    assert u - a == (u - b) + d;
    assert (u - b) !! d;
  }

  /** ... and strictly fewer once a key of it is newly taken. */
  lemma RemainingStrict(u: set<string>, a: set<string>, b: set<string>, x: string)
    requires a <= b && x in u && x in b && x !in a
    ensures |u - b| < |u - a|
  {
    var d := (u - a) - (u - b);
    assert u - a == (u - b) + d;
    assert (u - b) !! d;
    assert x in d;
  }

  /** The AST under construction for one `validate`/`compileSchema` run. `t`, `fuel` and
      `keywords` are the store, the reference-following budget and the keyword table at
      compile time; `universe` holds the uris of every view compilation can reach, and
      `select` is `Selection` over that store and keyword table. */
  /** The entry of `schema` in `ast` is the node its body calls for under `selection`,
      and every subschema the selected keywords compile has an entry. */
  ghost predicate NodeIn(ast: Table, keywords: Keywords, schema: Schema.View, selection: Result<seq<(string, Schema.View)>>)
    requires Registered(keywords, selection)
  {
    var url := Schema.Uri(schema);
    var body := BodyFrom(keywords, schema, selection);
    url in ast && body.Ok? && ast[url] == Node(ValidateId(schema), url, body.value)
    && (!IsBoolean(schema) ==> SubschemasIn(ast, keywords, schema, selection.value))
  }

  /** A node stays the node of its view while the table grows around it. */
  lemma NodeInLifts(before: Table, after: Table, keywords: Keywords, schema: Schema.View,
                    selection: Result<seq<(string, Schema.View)>>)
    requires Registered(keywords, selection) && NodeIn(before, keywords, schema, selection)
    requires before.Keys <= after.Keys && after[Schema.Uri(schema)] == before[Schema.Uri(schema)]
    ensures NodeIn(after, keywords, schema, selection)
  {
  }

  /** The views compiled earlier keep their uris. */
  ghost predicate ViewsGrown(before: map<string, Schema.View>, after: map<string, Schema.View>) {
    forall k :: k in before ==> k in after && after[k] == before[k]
  }

  /** Every entry added to the table since `before` is the node of the view `views`
      records under its uri, the keywords of that view being chosen by `select`. */
  ghost predicate Witnessed(keywords: Keywords, select: Schema.View -> Result<seq<(string, Schema.View)>>,
                            views: map<string, Schema.View>, before: Table, after: Table)
    requires forall s :: Registered(keywords, select(s))
  {
    forall k :: k in after && k !in before ==>
      k in views && Schema.Uri(views[k]) == k && NodeIn(after, keywords, views[k], select(views[k]))
  }

  /** Two stretches of compilation, the second growing the table and the recorded views,
      make one. */
  lemma WitnessedChain(keywords: Keywords, select: Schema.View -> Result<seq<(string, Schema.View)>>,
                       early: map<string, Schema.View>, late: map<string, Schema.View>, a: Table, b: Table, c: Table)
    requires forall s :: Registered(keywords, select(s))
    requires Witnessed(keywords, select, early, a, b) && Witnessed(keywords, select, late, b, c)
    requires ViewsGrown(early, late) && Grown(b, c)
    ensures Witnessed(keywords, select, late, a, c)
  {
    forall k | k in c && k !in a
      ensures k in late && Schema.Uri(late[k]) == k && NodeIn(c, keywords, late[k], select(late[k]))
    {
      if k in b {
        NodeInLifts(b, c, keywords, early[k], select(early[k]));
      }
    }
  }

  /** Finishing the node of `schema` over its placeholder: the entries its keywords added
      and its own node are all witnessed. */
  lemma WitnessedNode(keywords: Keywords, select: Schema.View -> Result<seq<(string, Schema.View)>>,
                      views: map<string, Schema.View>, before: Table, mid: Table, schema: Schema.View, node: Entry)
    requires forall s :: Registered(keywords, select(s))
    requires Schema.Uri(schema) !in before && Schema.Uri(schema) in mid
    requires Witnessed(keywords, select, views, before[Schema.Uri(schema) := Placeholder], mid)
    requires NodeIn(mid[Schema.Uri(schema) := node], keywords, schema, select(schema))
    ensures Witnessed(keywords, select, views[Schema.Uri(schema) := schema], before, mid[Schema.Uri(schema) := node])
  {
    var url := Schema.Uri(schema);
    var after := mid[url := node];
    var recorded := views[url := schema];
    forall k | k in after && k !in before
      ensures k in recorded && Schema.Uri(recorded[k]) == k && NodeIn(after, keywords, recorded[k], select(recorded[k]))
    {
      if k != url {
        NodeInLifts(mid, after, keywords, views[k], select(views[k]));
      }
    }
  }

  /** Putting the finished node of `schema` over its placeholder, and recording the view,
      completes one `compile`: the table and the views only grew, and every entry added
      is witnessed, the new node included. */
  lemma NodePlaced(keywords: Keywords, select: Schema.View -> Result<seq<(string, Schema.View)>>,
                   before: Table, mid: Table, beforeViews: map<string, Schema.View>, midViews: map<string, Schema.View>,
                   schema: Schema.View, node: Entry)
    requires forall s :: Registered(keywords, select(s))
    requires Schema.Uri(schema) !in before && beforeViews.Keys <= before.Keys
    requires Grown(before[Schema.Uri(schema) := Placeholder], mid) && Finished(before[Schema.Uri(schema) := Placeholder], mid)
    requires midViews.Keys <= mid.Keys && ViewsGrown(beforeViews, midViews)
    requires Witnessed(keywords, select, midViews, before[Schema.Uri(schema) := Placeholder], mid)
    requires NodeIn(mid[Schema.Uri(schema) := node], keywords, schema, select(schema))
    ensures var after := mid[Schema.Uri(schema) := node];
      var afterViews := midViews[Schema.Uri(schema) := schema];
      Grown(before, after) && Finished(before, after) && afterViews.Keys <= after.Keys
      && ViewsGrown(beforeViews, afterViews) && Witnessed(keywords, select, afterViews, before, after)
  {
    WitnessedNode(keywords, select, midViews, before, mid, schema, node);
  }

  /** `Selection` over one store and keyword table, as a function of the view. */
  function Selector(t: Schema.Tables, fuel: nat, keywords: Keywords): Schema.View -> Result<seq<(string, Schema.View)>> {
    s => Selection(t, fuel, keywords, s)
  }

  /** Every entry added since `before` is the node `compile` builds for the view recorded
      under its uri, over the store `t`. */
  ghost predicate Compiled(keywords: Keywords, t: Schema.Tables, fuel: nat, views: map<string, Schema.View>,
                           before: Table, after: Table)
  {
    Witnessed(keywords, Selector(t, fuel, keywords), views, before, after)
  }

  /** `v` is one of the subschemas that a keyword selected for `parent` asks to compile. */
  ghost predicate SubschemaOf(keywords: Keywords, select: Schema.View -> Result<seq<(string, Schema.View)>>,
                              parent: Schema.View, v: Schema.View)
    requires forall s :: Registered(keywords, select(s))
  {
    assert Registered(keywords, select(parent));
    select(parent).Ok?
    && exists n :: 0 <= n < |select(parent).value|
         && v in CompileKeyword(keywords[select(parent).value[n].0], select(parent).value[n].1, parent).1
  }

  /** The view begun `i`-th is a subschema asked for by a keyword of a view begun before it. */
  ghost predicate FromEarlier(keywords: Keywords, select: Schema.View -> Result<seq<(string, Schema.View)>>,
                              trail: seq<Schema.View>, i: nat)
    requires forall s :: Registered(keywords, select(s))
    requires i < |trail|
  {
    exists j :: 0 <= j < i && SubschemaOf(keywords, select, trail[j], trail[i])
  }

  /** The views whose compilation began, in the order it began: each after the first is
      a subschema asked for by a keyword of a view begun before it, and every recorded
      view is one of them. */
  ghost predicate Traced(keywords: Keywords, select: Schema.View -> Result<seq<(string, Schema.View)>>,
                         trail: seq<Schema.View>, views: map<string, Schema.View>)
    requires forall s :: Registered(keywords, select(s))
  {
    (forall i :: 0 < i < |trail| ==> FromEarlier(keywords, select, trail, i))
    && (forall k :: k in views ==> views[k] in trail)
  }

  /** The trail of a compilation from `root` over the store `t`: the root first, then
      only subschemas reached from views begun earlier. */
  ghost predicate Reached(keywords: Keywords, t: Schema.Tables, fuel: nat, root: Schema.View,
                          trail: seq<Schema.View>, views: map<string, Schema.View>)
  {
    (trail != [] ==> trail[0] == root) && Traced(keywords, Selector(t, fuel, keywords), trail, views)
  }

  /** Beginning the compilation of a subschema of a view already begun keeps the trail
      traced. */
  lemma TracedSnoc(keywords: Keywords, select: Schema.View -> Result<seq<(string, Schema.View)>>,
                   trail: seq<Schema.View>, views: map<string, Schema.View>, parent: Schema.View, v: Schema.View)
    requires forall s :: Registered(keywords, select(s))
    requires Traced(keywords, select, trail, views)
    requires trail == [] || (parent in trail && SubschemaOf(keywords, select, parent, v))
    ensures Traced(keywords, select, trail + [v], views)
  {
    var longer := trail + [v];
    forall i | 0 < i < |longer|
      ensures FromEarlier(keywords, select, longer, i)
    {
      if i < |trail| {
        assert FromEarlier(keywords, select, trail, i);
        var j :| 0 <= j < i && SubschemaOf(keywords, select, trail[j], trail[i]);
        assert longer[j] == trail[j] && longer[i] == trail[i];
      } else {
        var j :| 0 <= j < |trail| && trail[j] == parent;
        assert longer[j] == parent && longer[i] == v;
      }
    }
  }

  /** Recording a view already begun keeps the trail traced. */
  lemma TracedRecord(keywords: Keywords, select: Schema.View -> Result<seq<(string, Schema.View)>>,
                     trail: seq<Schema.View>, views: map<string, Schema.View>, url: string, v: Schema.View)
    requires forall s :: Registered(keywords, select(s))
    requires Traced(keywords, select, trail, views) && v in trail
    ensures Traced(keywords, select, trail, views[url := v])
  {
  }

  /** A view on the trail stays on it while the trail grows. */
  lemma StaysOnTrail(before: seq<Schema.View>, after: seq<Schema.View>, v: Schema.View)
    requires v in before && before <= after
    ensures v in after
  {
    var i :| 0 <= i < |before| && before[i] == v;
    assert after[i] == v;
  }

  /** Each subschema a selected keyword asks for is a subschema of the parent. */
  lemma SubschemasOfEntry(keywords: Keywords, select: Schema.View -> Result<seq<(string, Schema.View)>>,
                          parent: Schema.View, entry: (string, Schema.View))
    requires forall s :: Registered(keywords, select(s))
    requires select(parent).Ok? && entry in select(parent).value
    ensures entry.0 in keywords
    ensures forall v :: v in CompileKeyword(keywords[entry.0], entry.1, parent).1 ==> SubschemaOf(keywords, select, parent, v)
  {
    var n :| 0 <= n < |select(parent).value| && select(parent).value[n] == entry;
  }

  class Compiler {
    const keywords: Keywords
    const t: Schema.Tables
    const fuel: nat
    const universe: set<string>
    const select: Schema.View -> Result<seq<(string, Schema.View)>>
    var ast: Table
    /** The view each node this compiler finished was built for, by uri. */
    ghost var views: map<string, Schema.View>
    /** The views whose compilation began, in the order it began. */
    ghost var trail: seq<Schema.View>

    /** Every keyword a selection names has a handler, and a boolean schema selects none. */
    ghost predicate Selects() {
      forall s :: Registered(keywords, select(s)) && (IsBoolean(s) ==> select(s) == Ok([]))
    }

    constructor (keywords: Keywords, t: Schema.Tables, fuel: nat, universe: set<string>, ast: Table)
      ensures this.keywords == keywords && this.t == t && this.fuel == fuel
      ensures this.universe == universe && this.ast == ast && views == map[] && trail == []
      ensures select == Selector(t, fuel, keywords)
      ensures Selects()
    {
      this.keywords := keywords;
      this.t := t;
      this.fuel := fuel;
      this.universe := universe;
      this.select := Selector(t, fuel, keywords);
      this.ast := ast;
      views := map[];
      trail := [];
    }

    /** The trail so far is traced back to its first view, and holds every recorded view. */
    ghost predicate OnTrail()
      requires Selects()
      reads this
    {
      Traced(keywords, select, trail, views)
    }

    /** The entry of `schema` is the node its body calls for, and every subschema its
        keywords compiled has an entry. */
    ghost predicate Done(schema: Schema.View)
      requires Selects()
      reads this
    {
      NodeIn(ast, keywords, schema, select(schema))
    }

    /** `compile(schema, ast)`: nothing when the uri already has an entry (finished or
        in progress); otherwise a placeholder first, then the keywords' compilation,
        then the node. */
    method Compile(schema: Schema.View, ghost parent: Schema.View) returns (r: Result<()>)
      requires Selects() && views.Keys <= ast.Keys && OnTrail()
      requires trail == [] || (parent in trail && SubschemaOf(keywords, select, parent, schema))
      modifies this
      decreases |universe - ast.Keys|, 6
      ensures OnTrail() && old(trail) <= trail
      ensures |old(trail)| < |trail| ==> trail[|old(trail)|] == schema
      ensures Schema.Uri(schema) !in old(ast) && Schema.Uri(schema) in universe ==> |old(trail)| < |trail|
      ensures Grown(old(ast), ast)
      ensures views.Keys <= ast.Keys && ViewsGrown(old(views), views)
      ensures r.Ok? ==> Witnessed(keywords, select, views, old(ast), ast)
      ensures Schema.Uri(schema) in old(ast) ==> ast == old(ast) && r == Ok(())
      ensures r.Ok? ==> Schema.Uri(schema) in ast && Finished(old(ast), ast)
      ensures r.Ok? && Schema.Uri(schema) !in old(ast) ==> Done(schema)
      ensures Schema.Uri(schema) !in old(ast) && Schema.Uri(schema) !in universe ==>
        r == Err(RetrievalFailed(Schema.Uri(schema))) && ast == old(ast)
      ensures Schema.Uri(schema) !in old(ast) && Schema.Uri(schema) in universe
              && select(schema).Err? ==>
        r == Err(select(schema).error)
        && ast == old(ast)[Schema.Uri(schema) := Placeholder]
    {
      var url := Schema.Uri(schema);
      if url in ast {
        return Ok(());
      }
      if url !in universe {
        return Err(RetrievalFailed(url));
      }
      TracedSnoc(keywords, select, trail, views, parent, schema);
      trail := trail + [schema];
      ghost var begun := trail;
      r := CompileNew(schema);
      assert trail[|begun| - 1] == begun[|begun| - 1] == schema;
    }

    /** `compile` of a schema whose uri has no entry yet and whose compilation has begun
        on the trail: the placeholder, the keywords' compilation, then the node. */
    method CompileNew(schema: Schema.View) returns (r: Result<()>)
      requires Selects() && views.Keys <= ast.Keys && OnTrail() && schema in trail
      requires Schema.Uri(schema) !in ast && Schema.Uri(schema) in universe
      modifies this
      decreases |universe - ast.Keys|, 5
      ensures OnTrail() && old(trail) <= trail
      ensures Grown(old(ast), ast)
      ensures views.Keys <= ast.Keys && ViewsGrown(old(views), views)
      ensures r.Ok? ==> Witnessed(keywords, select, views, old(ast), ast)
      ensures r.Ok? ==> Schema.Uri(schema) in ast && Finished(old(ast), ast) && Done(schema)
      ensures select(schema).Err? ==>
        r == Err(select(schema).error) && ast == old(ast)[Schema.Uri(schema) := Placeholder]
    {
      var url := Schema.Uri(schema);
      ghost var before := ast;
      ghost var beforeViews := views;
      ghost var begun := trail;
      ast := ast[url := Placeholder];
      RemainingStrict(universe, before.Keys, ast.Keys, url);
      var node := CompileBody(schema, |universe - before.Keys|);
      StaysOnTrail(begun, trail, schema);
      if node.Err? {
        GrownPast(before, url, ast);
        return Err(node.error);
      }
      NodePlaced(keywords, select, before, ast, beforeViews, views, schema, node.value);
      TracedRecord(keywords, select, trail, views, url, schema);
      ast := ast[url := node.value];
      views := views[url := schema];
      return Ok(());
    }

    /** The node of a schema whose placeholder is in place: a boolean schema's verdict,
        or the compiled keyword pipeline of an object schema. */
    method CompileBody(schema: Schema.View, ghost bound: nat) returns (r: Result<Entry>)
      requires Selects() && views.Keys <= ast.Keys && OnTrail() && schema in trail
      requires Schema.Uri(schema) in ast && |universe - ast.Keys| < bound
      modifies this
      decreases bound, 4
      ensures OnTrail() && old(trail) <= trail
      ensures Grown(old(ast), ast)
      ensures views.Keys <= ast.Keys && ViewsGrown(old(views), views)
      ensures r.Ok? ==> Witnessed(keywords, select, views, old(ast), ast) && Finished(old(ast), ast)
      ensures r.Ok? ==> NodeIn(ast[Schema.Uri(schema) := r.value], keywords, schema, select(schema))
      ensures select(schema).Err? ==> r == Err(select(schema).error) && ast == old(ast)
    {
      var url := Schema.Uri(schema);
      if IsBoolean(schema) {
        r := Ok(Node(ValidateId(schema), url, Boolean(Schema.Value(schema).value.b)));
        assert NodeIn(ast[url := r.value], keywords, schema, select(schema));
        return;
      }
      var selection := select(schema);
      if selection.Err? {
        return Err(selection.error);
      }
      var selected := selection.value;
      var children := CompileChildren(schema, selected, bound);
      if children.Err? {
        return Err(children.error);
      }
      r := Ok(Node(ValidateId(schema), url, Children(children.value)));
      assert NodeIn(ast[url := r.value], keywords, schema, select(schema));
    }

    /** The keyword pipeline of one object schema: each selected keyword is compiled in
        key order, together with the subschemas it asks for. */
    method CompileChildren(schema: Schema.View, selected: seq<(string, Schema.View)>, ghost bound: nat)
      returns (r: Result<seq<Child>>)
      requires forall i :: 0 <= i < |selected| ==> selected[i].0 in keywords
      requires Selects() && |universe - ast.Keys| < bound && views.Keys <= ast.Keys
      requires OnTrail() && schema in trail && select(schema) == Ok(selected)
      modifies this
      decreases bound, 3
      ensures OnTrail() && old(trail) <= trail
      ensures Grown(old(ast), ast)
      ensures views.Keys <= ast.Keys && ViewsGrown(old(views), views)
      ensures r.Ok? ==> Witnessed(keywords, select, views, old(ast), ast)
      ensures r.Ok? ==> Finished(old(ast), ast)
      ensures r.Ok? ==> r.value == ChildrenOf(keywords, schema, selected)
      ensures r.Ok? ==> SubschemasIn(ast, keywords, schema, selected)
    {
      ghost var start := ast;
      ghost var startViews := views;
      ghost var startTrail := trail;
      var children: seq<Child> := [];
      var i := 0;
      while i < |selected|
        invariant 0 <= i <= |selected|
        invariant Grown(start, ast) && Finished(start, ast)
        invariant views.Keys <= ast.Keys && ViewsGrown(startViews, views)
        invariant Witnessed(keywords, select, views, start, ast)
        invariant |universe - ast.Keys| < bound
        invariant children == ChildrenOf(keywords, schema, selected[..i])
        invariant SubschemasIn(ast, keywords, schema, selected[..i])
        invariant OnTrail() && startTrail <= trail && schema in trail
      {
        ghost var mid := ast;
        ghost var midViews := views;
        var child := CompileEntry(schema, selected[i], bound);
        Chain(start, mid, ast);
        if child.Err? {
          return Err(child.error);
        }
        WitnessedChain(keywords, select, midViews, views, start, mid, ast);
        Remaining(universe, mid.Keys, ast.Keys);
        SubschemasExtend(mid, ast, keywords, schema, selected, i);
        ChildrenOfSnoc(keywords, schema, selected, i);
        children := children + [child.value];
        i := i + 1;
      }
      assert selected[..i] == selected;
      return Ok(children);
    }

    /** One step of the pipeline: the keyword's `compile`, with the subschemas it asks
        for, then its `[keywordId, uri, keywordAst]` triple. */
    method CompileEntry(schema: Schema.View, entry: (string, Schema.View), ghost bound: nat)
      returns (r: Result<Child>)
      requires entry.0 in keywords
      requires Selects() && |universe - ast.Keys| < bound && views.Keys <= ast.Keys
      requires OnTrail() && schema in trail && select(schema).Ok? && entry in select(schema).value
      modifies this
      decreases bound, 2
      ensures OnTrail() && old(trail) <= trail
      ensures Grown(old(ast), ast)
      ensures views.Keys <= ast.Keys && ViewsGrown(old(views), views)
      ensures r.Ok? ==> Witnessed(keywords, select, views, old(ast), ast)
      ensures r.Ok? ==> Finished(old(ast), ast)
      ensures r.Ok? ==> r.value == ChildOf(keywords, schema, entry)
      ensures r.Ok? ==> forall v :: v in CompileKeyword(keywords[entry.0], entry.1, schema).1 ==> Schema.Uri(v) in ast
    {
      var compiled := CompileKeyword(keywords[entry.0], entry.1, schema);
      SubschemasOfEntry(keywords, select, schema, entry);
      var res := CompileAll(schema, compiled.1, bound);
      if res.Err? {
        return Err(res.error);
      }
      return Ok(Child(entry.0, Schema.Uri(entry.1), compiled.0));
    }

    /** Compiles the subschemas one keyword asks for, in order, stopping at a failure. */
    method CompileAll(ghost parent: Schema.View, subschemas: seq<Schema.View>, ghost bound: nat) returns (r: Result<()>)
      requires Selects() && |universe - ast.Keys| < bound && views.Keys <= ast.Keys
      requires OnTrail() && parent in trail
      requires forall v :: v in subschemas ==> SubschemaOf(keywords, select, parent, v)
      modifies this
      decreases bound, 1
      ensures OnTrail() && old(trail) <= trail
      ensures Grown(old(ast), ast)
      ensures views.Keys <= ast.Keys && ViewsGrown(old(views), views)
      ensures r.Ok? ==> Witnessed(keywords, select, views, old(ast), ast)
      ensures r.Ok? ==> Finished(old(ast), ast)
      ensures r.Ok? ==> forall v :: v in subschemas ==> Schema.Uri(v) in ast
    {
      ghost var start := ast;
      ghost var startViews := views;
      ghost var startTrail := trail;
      var i := 0;
      while i < |subschemas|
        invariant 0 <= i <= |subschemas|
        invariant Grown(start, ast) && Finished(start, ast)
        invariant forall j :: 0 <= j < i ==> Schema.Uri(subschemas[j]) in ast
        invariant views.Keys <= ast.Keys && ViewsGrown(startViews, views)
        invariant Witnessed(keywords, select, views, start, ast)
        invariant OnTrail() && startTrail <= trail && parent in trail
      {
        Remaining(universe, start.Keys, ast.Keys);
        ghost var mid := ast;
        ghost var midViews := views;
        r := CompileView(subschemas[i], parent, bound);
        Chain(start, mid, ast);
        if r.Err? {
          return;
        }
        WitnessedChain(keywords, select, midViews, views, start, mid, ast);
        CoversNext(subschemas, i, mid, ast);
        i := i + 1;
      }
      return Ok(());
    }

    /** One subschema of a keyword, compiled through `validate`. */
    method CompileView(view: Schema.View, ghost parent: Schema.View, ghost bound: nat) returns (r: Result<()>)
      requires Selects() && |universe - ast.Keys| < bound && views.Keys <= ast.Keys
      requires OnTrail() && parent in trail && SubschemaOf(keywords, select, parent, view)
      modifies this
      decreases bound, 0
      ensures OnTrail() && old(trail) <= trail
      ensures Grown(old(ast), ast)
      ensures views.Keys <= ast.Keys && ViewsGrown(old(views), views)
      ensures r.Ok? ==> Witnessed(keywords, select, views, old(ast), ast)
      ensures r.Ok? ==> Schema.Uri(view) in ast && Finished(old(ast), ast)
    {
      r := Compile(view, parent);
    }
  }

  /** `compile(schema, ast)` run by a fresh compilation: the AST grows by the schema's
      entry and the entries of everything it reaches, each a finished node. */
  method CompileInto(keywords: Keywords, t: Schema.Tables, fuel: nat, universe: set<string>,
                     ast: Table, schema: Schema.View)
    returns (r: Result<Table>, ghost views: map<string, Schema.View>, ghost trail: seq<Schema.View>)
    ensures r.Ok? ==> Schema.Uri(schema) in r.value && Grown(ast, r.value) && Finished(ast, r.value)
    ensures r.Ok? ==> Compiled(keywords, t, fuel, views, ast, r.value)
    ensures Reached(keywords, t, fuel, schema, trail, views)
    ensures Schema.Uri(schema) !in ast && Schema.Uri(schema) in universe ==> trail != []
    ensures Schema.Uri(schema) in ast ==> r == Ok(ast)
    ensures r.Ok? && Schema.Uri(schema) !in ast ==> NodeIn(r.value, keywords, schema, Selection(t, fuel, keywords, schema))
    ensures Schema.Uri(schema) !in ast && Schema.Uri(schema) !in universe ==> r == Err(RetrievalFailed(Schema.Uri(schema)))
  {
    var compiler := new Compiler(keywords, t, fuel, universe, ast);
    var result := compiler.Compile(schema, schema);
    views := compiler.views;
    trail := compiler.trail;
    if result.Err? {
      return Err(result.error), views, trail;
    }
    return Ok(compiler.ast), views, trail;
  }

  // ---------------------------------------------------------------- interpret

  /** Interpreting one compiled keyword: the keyword's own events, then its result event. */
  function EvalChild(c: Child, instance: Instance.Instance, ast: Table, keywords: Keywords): (r: Result<(bool, seq<Output.Event>)>)
    ensures r.Ok? ==>
      r.value.1 != [] && r.value.1[|r.value.1| - 1] == Output.Event(c.keywordId, c.schemaUri, Instance.Uri(instance), r.value.0)
    ensures c.keywordId !in keywords ==> r == Err(UnknownKeyword(c.keywordId))
  {
    if c.keywordId !in keywords then Err(UnknownKeyword(c.keywordId))
    else match keywords[c.keywordId]
      case ValidateHandler => Err(NotCompiled("undefined"))
      case Keyword(_, interpret, _) =>
        var result := interpret(c.keywordAst, instance, ast);
        Ok((result.0, result.1 + [Output.Event(c.keywordId, c.schemaUri, Instance.Uri(instance), result.0)]))
  }

  predicate Passes(c: Child, instance: Instance.Instance, ast: Table, keywords: Keywords) {
    EvalChild(c, instance, ast, keywords).Ok? && EvalChild(c, instance, ast, keywords).value.0
  }

  /** `nodes.every(...)`: the children in order, stopping after the first invalid one. */
  function EvalChildren(children: seq<Child>, instance: Instance.Instance, ast: Table, keywords: Keywords): (r: Result<(bool, seq<Output.Event>)>)
    decreases |children|
    ensures r.Ok? ==> (r.value.0 <==> forall i :: 0 <= i < |children| ==> Passes(children[i], instance, ast, keywords))
    ensures r.Ok? && children != [] ==> r.value.1 != []
  {
    if children == [] then Ok((true, []))
    else
      var first :- EvalChild(children[0], instance, ast, keywords);
      if !first.0 then Ok((false, first.1))
      else
        var rest :- EvalChildren(children[1..], instance, ast, keywords);
        assert forall i :: 1 <= i < |children| ==> children[i] == children[1..][i - 1];
        Ok((rest.0, first.1 + rest.1))
  }

  /** `every` stopped at child `j`: all before it pass, and it fails unless it is the last. */
  ghost predicate StoppedAt(children: seq<Child>, j: int, instance: Instance.Instance, ast: Table, keywords: Keywords) {
    0 <= j < |children|
    && (forall i :: 0 <= i < j ==> Passes(children[i], instance, ast, keywords))
    && (j < |children| - 1 ==> !Passes(children[j], instance, ast, keywords))
  }

  /** The result event a child publishes. */
  function ResultEvent(c: Child, instance: Instance.Instance, ast: Table, keywords: Keywords): Output.Event {
    Output.Event(c.keywordId, c.schemaUri, Instance.Uri(instance), Passes(c, instance, ast, keywords))
  }

  lemma StoppedAtCons(children: seq<Child>, j: int, instance: Instance.Instance, ast: Table, keywords: Keywords)
    requires children != [] && Passes(children[0], instance, ast, keywords)
    requires StoppedAt(children[1..], j, instance, ast, keywords)
    ensures StoppedAt(children, j + 1, instance, ast, keywords) && children[j + 1] == children[1..][j]
  {
    forall i | 0 <= i < j + 1 ensures Passes(children[i], instance, ast, keywords) {
      if i > 0 {
        assert children[i] == children[1..][i - 1];
      }
    }
  }

  /** The last event of the children is the result event of the child where `every`
      stopped: the first invalid one, or the last one when all pass. */
  lemma {:induction false} EvalChildrenLast(children: seq<Child>, instance: Instance.Instance, ast: Table, keywords: Keywords)
    requires children != [] && EvalChildren(children, instance, ast, keywords).Ok?
    ensures var events := EvalChildren(children, instance, ast, keywords).value.1;
      exists j :: StoppedAt(children, j, instance, ast, keywords)
        && events[|events| - 1] == ResultEvent(children[j], instance, ast, keywords)
    decreases |children|
  {
    var first := EvalChild(children[0], instance, ast, keywords).value;
    var events := EvalChildren(children, instance, ast, keywords).value.1;
    if !first.0 || |children| == 1 {
      assert events[|events| - 1] == first.1[|first.1| - 1] by {
        if first.0 {
          assert EvalChildren(children[1..], instance, ast, keywords) == Ok((true, []));
          assert events == first.1 + [];
        }
      }
      assert StoppedAt(children, 0, instance, ast, keywords);
    } else {
      var rest := EvalChildren(children[1..], instance, ast, keywords).value;
      EvalChildrenLast(children[1..], instance, ast, keywords);
      var j :| StoppedAt(children[1..], j, instance, ast, keywords)
        && rest.1[|rest.1| - 1] == ResultEvent(children[1..][j], instance, ast, keywords);
      StoppedAtCons(children, j, instance, ast, keywords);
      assert events == first.1 + rest.1;
      assert events[|events| - 1] == rest.1[|rest.1| - 1];
    }
  }

  /** Children after the first invalid one are never interpreted: they change neither
      the result nor the events. */
  lemma {:induction false} EvalStopsAtFailure(children: seq<Child>, j: nat, instance: Instance.Instance, ast: Table, keywords: Keywords)
    requires j < |children|
    requires forall i :: 0 <= i < j ==> Passes(children[i], instance, ast, keywords)
    requires EvalChild(children[j], instance, ast, keywords).Ok? && !Passes(children[j], instance, ast, keywords)
    ensures EvalChildren(children, instance, ast, keywords) == EvalChildren(children[..j + 1], instance, ast, keywords)
    ensures EvalChildren(children, instance, ast, keywords).Ok?
    ensures !EvalChildren(children, instance, ast, keywords).value.0
    decreases j
  {
    var prefix := children[..j + 1];
    assert prefix[0] == children[0];
    if j > 0 {
      assert prefix[1..] == children[1..][..j];
      EvalStopsAtFailure(children[1..], j - 1, instance, ast, keywords);
    }
  }

  /** `interpret(uri, instance, ast)`: the node's validity, with the events it emits: one
      per interpreted keyword, then the node's own result. A missing or unfinished node
      fails as the engine's destructuring does. */
  function Interpret(uri: string, instance: Instance.Instance, ast: Table, keywords: Keywords): (r: Result<(bool, seq<Output.Event>)>)
    ensures (uri !in ast || ast[uri].Placeholder?) ==> r == Err(NotCompiled(uri))
    ensures r.Ok? ==> uri in ast && ast[uri].Node? && r.value.1 != []
    ensures r.Ok? ==>
      r.value.1[|r.value.1| - 1] == Output.Event(ast[uri].keywordId, ast[uri].schemaUri, Instance.Uri(instance), r.value.0)
    ensures r.Ok? && ast[uri].body.Boolean? ==> r.value.0 == ast[uri].body.value && |r.value.1| == 1
    ensures r.Ok? && ast[uri].body.Children? ==>
      (r.value.0 <==> forall i :: 0 <= i < |ast[uri].body.children| ==>
                        Passes(ast[uri].body.children[i], instance, ast, keywords))
  {
    if uri !in ast || ast[uri].Placeholder? then Err(NotCompiled(uri))
    else
      var node := ast[uri];
      var verdict :- match node.body
        case Boolean(b) => Ok((b, []))
        case Children(children) => EvalChildren(children, instance, ast, keywords);
      Ok((verdict.0, verdict.1 + [Output.Event(node.keywordId, node.schemaUri, Instance.Uri(instance), verdict.0)]))
  }

  // ---------------------------------------------------------------- collectEvaluatedProperties

  /** One keyword's evaluated property names; `None` stands for `false`. */
  function CollectChild(c: Child, instance: Instance.Instance, ast: Table, keywords: Keywords): Result<Option<seq<string>>> {
    if c.keywordId !in keywords then Err(UnknownKeyword(c.keywordId))
    else match keywords[c.keywordId]
      case ValidateHandler => Err(NotCompiled("undefined"))
      case Keyword(_, _, collect) => Ok(collect(c.keywordAst, instance, ast))
  }

  /** The names the children contribute when every one of them contributes some. */
  function Names(children: seq<Child>, instance: Instance.Instance, ast: Table, keywords: Keywords): seq<string>
    decreases |children|
  {
    if children == [] then []
    else
      (match CollectChild(children[0], instance, ast, keywords) case Ok(Some(ns)) => ns case _ => [])
      + Names(children[1..], instance, ast, keywords)
  }

  /** The reduce: `acc && collect(...)`, then `names && acc.concat(names)`. Once the
      accumulator is `false` no further keyword is consulted. */
  function Gather(children: seq<Child>, instance: Instance.Instance, ast: Table, keywords: Keywords, acc: Option<seq<string>>): (r: Result<Option<seq<string>>>)
    decreases |children|
    ensures acc.None? ==> r == Ok(None)
    ensures r.Ok? && r.value.Some? ==>
      acc.Some? && r.value.value == acc.value + Names(children, instance, ast, keywords)
      && forall i :: 0 <= i < |children| ==> CollectChild(children[i], instance, ast, keywords).Ok?
    ensures r.Ok? ==>
      (r.value.None? <==> acc.None? || exists i :: 0 <= i < |children| && CollectChild(children[i], instance, ast, keywords) == Ok(None))
  {
    if children == [] then Ok(acc)
    else if acc.None? then Gather(children[1..], instance, ast, keywords, None)
    else
      var names :- CollectChild(children[0], instance, ast, keywords);
      var next := match names case Some(ns) => Some(acc.value + ns) case None => None;
      assert forall i :: 1 <= i < |children| ==> children[i] == children[1..][i - 1];
      var r := Gather(children[1..], instance, ast, keywords, next);
      assert r.Ok? && r.value.None? && next.Some? ==>
        exists i :: 1 <= i < |children| && CollectChild(children[i], instance, ast, keywords) == Ok(None);
      r
  }

  /** The children the fold visits: with `isTop`, `unevaluatedProperties` keywords are skipped. */
  function Considered(children: seq<Child>, isTop: bool): (r: seq<Child>)
    decreases |children|
    ensures !isTop ==> r == children
    ensures forall c :: c in r <==> c in children && (!isTop || !Url.EndsWith(c.keywordId, "#unevaluatedProperties"))
  {
    if children == [] then []
    else
      var rest := Considered(children[1..], isTop);
      assert forall c :: c in children <==> c == children[0] || c in children[1..];
      if !isTop || !Url.EndsWith(children[0].keywordId, "#unevaluatedProperties") then [children[0]] + rest else rest
  }

  /** The filter keeps the keywords' order: considering two runs of children is
      considering the first, then the second. */
  lemma {:induction false} ConsideredConcat(a: seq<Child>, b: seq<Child>, isTop: bool)
    ensures Considered(a + b, isTop) == Considered(a, isTop) + Considered(b, isTop)
    decreases |a|
  {
    if a == [] {
      assert a + b == b;
    } else {
      assert (a + b)[0] == a[0];
      assert (a + b)[1..] == a[1..] + b;
      ConsideredConcat(a[1..], b, isTop);
    }
  }

  /** A single child is considered exactly when it is not a top-level
      `unevaluatedProperties` keyword. */
  lemma ConsideredOne(c: Child, isTop: bool)
    ensures Considered([c], isTop) == if !isTop || !Url.EndsWith(c.keywordId, "#unevaluatedProperties") then [c] else []
  {
    assert [c][1..] == [];
  }

  /** `collectEvaluatedProperties(uri, instance, ast, isTop)`: `[]` for a true schema,
      `false` (`None`) for a false one, otherwise the fold over the considered keywords. */
  function CollectEvaluatedProperties(uri: string, instance: Instance.Instance, ast: Table, keywords: Keywords, isTop: bool): (r: Result<Option<seq<string>>>)
    ensures (uri !in ast || ast[uri].Placeholder?) ==> r == Err(NotCompiled(uri))
    ensures uri in ast && ast[uri] .Node? && ast[uri].body == Boolean(true) ==> r == Ok(Some([]))
    ensures uri in ast && ast[uri] .Node? && ast[uri].body == Boolean(false) ==> r == Ok(None)
    ensures r.Ok? && r.value.Some? && ast[uri].body.Children? ==>
      r.value.value == Names(Considered(ast[uri].body.children, isTop), instance, ast, keywords)
  {
    if uri !in ast || ast[uri].Placeholder? then Err(NotCompiled(uri))
    else match ast[uri].body
      case Boolean(b) => Ok(if b then Some([]) else None)
      case Children(children) => Gather(Considered(children, isTop), instance, ast, keywords, Some([]))
  }

  /** A keyword that rejects makes the whole collection `false`, whatever follows it. */
  lemma {:induction false} GatherAbsorbs(children: seq<Child>, j: nat, instance: Instance.Instance, ast: Table, keywords: Keywords, acc: Option<seq<string>>)
    requires j < |children|
    requires forall i :: 0 <= i < j ==> CollectChild(children[i], instance, ast, keywords).Ok?
    requires CollectChild(children[j], instance, ast, keywords) == Ok(None)
    ensures Gather(children, instance, ast, keywords, acc) == Ok(None)
    decreases j
  {
    if acc.Some? && j > 0 {
      var names := CollectChild(children[0], instance, ast, keywords).value;
      var next := match names case Some(ns) => Some(acc.value + ns) case None => None;
      assert children[1..][j - 1] == children[j];
      GatherAbsorbs(children[1..], j - 1, instance, ast, keywords, next);
    }
  }
}
