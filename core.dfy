/** The engine of lib/core.js: the keyword and vocabulary tables, `compileSchema` with
    its version, vocabulary and meta-validation checks, `interpretSchema`, and
    `validate`, which feeds the interpreter's events to an output handler. */
module Core {
  import opened Base
  import opened Ast
  import Schema
  import Instance
  import Output
  import ValidateKeyword

  /** A vocabulary: its keyword names with their handlers, in declaration order. */
  type Vocabulary = seq<(string, Handler)>

  /** The ids `version#keyword` of a vocabulary's keywords. */
  function KeywordIds(version: string, vocabulary: Vocabulary): set<string> {
    set i | 0 <= i < |vocabulary| :: version + "#" + vocabulary[i].0
  }

  lemma KeywordIdsSnoc(version: string, vocabulary: Vocabulary)
    requires vocabulary != []
    ensures KeywordIds(version, vocabulary)
         == KeywordIds(version, vocabulary[..|vocabulary| - 1]) + {version + "#" + vocabulary[|vocabulary| - 1].0}
  {
    var init := vocabulary[..|vocabulary| - 1];
    forall id | id in KeywordIds(version, vocabulary)
      ensures id in KeywordIds(version, init) + {version + "#" + vocabulary[|vocabulary| - 1].0}
    {
      var i :| 0 <= i < |vocabulary| && id == version + "#" + vocabulary[i].0;
      if i < |init| {
        assert init[i] == vocabulary[i];
      }
    }
    forall id | id in KeywordIds(version, init)
      ensures id in KeywordIds(version, vocabulary)
    {
      var i :| 0 <= i < |init| && id == version + "#" + init[i].0;
      assert init[i] == vocabulary[i];
    }
  }

  /** `addKeyword` of `<version>#<keyword>` for each keyword of a vocabulary, in order. */
  function AddAll(keywords: Keywords, version: string, vocabulary: Vocabulary): (r: Keywords)
    decreases |vocabulary|
    ensures r.Keys == keywords.Keys + KeywordIds(version, vocabulary)
    ensures forall id :: id in keywords && id !in KeywordIds(version, vocabulary) ==> r[id] == keywords[id]
    ensures vocabulary != [] ==>
      r[version + "#" + vocabulary[|vocabulary| - 1].0] == vocabulary[|vocabulary| - 1].1
  {
    if vocabulary == [] then keywords
    else
      var last := vocabulary[|vocabulary| - 1];
      KeywordIdsSnoc(version, vocabulary);
      AddAll(keywords, version, vocabulary[..|vocabulary| - 1])[version + "#" + last.0 := last.1]
  }

  /** The keyword table after registering the vocabularies a meta-schema declares, and
      the failure that stopped it, if any. */
  datatype Registration = Registration(keywords: Keywords, failure: Option<Error>)

  /** The `forEach` over the declared vocabularies: a known one registers its keywords; an
      unknown one fails when it is required, which stops the walk where it is. */
  function Register(keywords: Keywords, vocabularies: map<string, Vocabulary>, version: string,
                    declared: seq<(string, Json)>): (r: Registration)
    decreases |declared|
    ensures keywords.Keys <= r.keywords.Keys
    ensures r.failure.None? <==>
      forall i :: 0 <= i < |declared| ==> declared[i].0 in vocabularies || !Truthy(declared[i].1)
    ensures r.failure.Some? ==>
      exists i :: 0 <= i < |declared| && r.failure.value == MissingVocabulary(declared[i].0)
        && declared[i].0 !in vocabularies && Truthy(declared[i].1)
        && forall k :: 0 <= k < i ==> declared[k].0 in vocabularies || !Truthy(declared[k].1)
  {
    if declared == [] then Registration(keywords, None)
    else
      var (vocabularyId, isRequired) := declared[0];
      assert forall i :: 1 <= i < |declared| ==> declared[i] == declared[1..][i - 1];
      if vocabularyId in vocabularies then
        Register(AddAll(keywords, version, vocabularies[vocabularyId]), vocabularies, version, declared[1..])
      else if Truthy(isRequired) then Registration(keywords, Some(MissingVocabulary(vocabularyId)))
      else Register(keywords, vocabularies, version, declared[1..])
  }

  /** When no required vocabulary is missing, every keyword of every known declared
      vocabulary ends up registered under the dialect. */
  lemma {:induction false} RegisterComplete(keywords: Keywords, vocabularies: map<string, Vocabulary>, version: string,
                                            declared: seq<(string, Json)>)
    requires Register(keywords, vocabularies, version, declared).failure.None?
    ensures forall i, j :: 0 <= i < |declared| && declared[i].0 in vocabularies && 0 <= j < |vocabularies[declared[i].0]| ==>
      version + "#" + vocabularies[declared[i].0][j].0 in Register(keywords, vocabularies, version, declared).keywords
    decreases |declared|
  {
    if declared != [] {
      var vocabularyId := declared[0].0;
      var next := if vocabularyId in vocabularies then AddAll(keywords, version, vocabularies[vocabularyId]) else keywords;
      RegisterComplete(next, vocabularies, version, declared[1..]);
      forall i, j | 0 <= i < |declared| && declared[i].0 in vocabularies && 0 <= j < |vocabularies[declared[i].0]|
        ensures version + "#" + vocabularies[declared[i].0][j].0 in Register(keywords, vocabularies, version, declared).keywords
      {
        if i > 0 {
          assert declared[i] == declared[1..][i - 1];
        } else {
          assert version + "#" + vocabularies[vocabularyId][j].0 in next;
        }
      }
    }
  }

  /** `Object.entries(vocabulary || {})` for a vocabulary object; no entries otherwise. */
  function Declared(vocabulary: Option<Json>): seq<(string, Json)> {
    match vocabulary case Some(JObj(props)) => props case _ => []
  }

  /** `getSchemaVocabulary(schema)`: the value at `#/$vocabulary`, `None` (undefined) when
      getting it fails. */
  function SchemaVocabulary(t: Schema.Tables, schema: Schema.View, fuel: nat): Option<Json> {
    match Schema.Get(t, "#/$vocabulary", schema, false, fuel)
    case Ok(doc) => Schema.Value(doc)
    case Err(_) => None
  }

  /** Whether meta-validation applies: the schema declares no vocabulary and is not its
      own meta-schema. */
  predicate MetaApplies(t: Schema.Tables, schema: Schema.View, fuel: nat) {
    !TruthyValue(SchemaVocabulary(t, schema, fuel)) && Some(schema.id) != schema.schemaVersion
  }

  /** The vocabularies the dialect's meta-schema declares, or why the meta-schema cannot
      be got. */
  function MetaDeclared(t: Schema.Tables, version: string, fuel: nat): Result<seq<(string, Json)>> {
    match Schema.Get(t, version, Schema.Nil, false, fuel)
    case Ok(meta) => Ok(Declared(SchemaVocabulary(t, meta, fuel)))
    case Err(e) => Err(e)
  }

  /** `interpretSchema(schemaUrl, instance, ast)`: dispatches to the handler of the
      node's keyword. */
  function InterpretSchema(uri: string, instance: Instance.Instance, ast: Table, keywords: Keywords): (r: Result<(bool, seq<Output.Event>)>)
    ensures (uri !in ast || ast[uri].Placeholder?) ==> r == Err(NotCompiled(uri))
    ensures r.Ok? ==> uri in ast && ast[uri].Node? && ast[uri].keywordId in keywords
    ensures r.Ok? && keywords[ast[uri].keywordId] == ValidateHandler ==>
      r == ValidateKeyword.Interpret(uri, instance, ast, keywords)
  {
    if uri !in ast || ast[uri].Placeholder? then Err(NotCompiled(uri))
    else
      var id := ast[uri].keywordId;
      if id !in keywords then Err(UnknownKeyword(id))
      else match keywords[id]
        case ValidateHandler => ValidateKeyword.Interpret(uri, instance, ast, keywords)
        case Keyword(_, interpret, _) => Ok(interpret(JStr(uri), instance, ast))
  }

  /** For a schema compiled by `validate`, the output the handler is left with is the
      schema's own result: its validity is the interpretation's verdict. */
  lemma ValidateVerdict(format: Output.Format, uri: string, instance: Instance.Instance, ast: Table, keywords: Keywords)
    requires InterpretSchema(uri, instance, ast, keywords).Ok?
    requires keywords[ast[uri].keywordId] == ValidateHandler
    ensures var (valid, events) := InterpretSchema(uri, instance, ast, keywords).value;
      var out := Output.Run(format, events).output;
      out.Some? && out.value.valid == valid && out.value.keyword == ast[uri].keywordId
      && out.value.absoluteKeywordLocation == ast[uri].schemaUri
      && out.value.instanceLocation == Instance.Uri(instance)
  {
    var events := InterpretSchema(uri, instance, ast, keywords).value.1;
    Output.OutputIsLast(format, events);
  }

  /** The output format a call asks for; FLAG when it names none. */
  function FormatName(outputFormat: Option<string>): string {
    match outputFormat case Some(name) => name case None => "FLAG"
  }

  /** The part of the engine's state that `compileSchema` reads and changes: the keyword
      table, the dialects whose meta-validator is built, and the schema store. */
  datatype EngineState = EngineState(keywords: Keywords, metaValidators: set<string>, tables: Schema.Tables)

  /** `markValidated(id)` on the state: the stored resource is flagged, or the call fails
      and nothing changes. */
  function MarkOf(s: EngineState, id: string): (r: (Result<()>, EngineState))
    ensures r.0.Ok? <==> id in s.tables.resources
    ensures r.0.Err? ==> r == (Err(NotStored(id)), s)
    ensures r.0.Ok? ==> r.1 == s.(tables := s.tables.(resources := s.tables.resources[id := s.tables.resources[id].(validated := true)]))
  {
    if id !in s.tables.resources then (Err(NotStored(id)), s)
    else (Ok(()), s.(tables := s.tables.(resources := s.tables.resources[id := s.tables.resources[id].(validated := true)])))
  }

  /** Running the dialect's meta-validator on the schema in the meta output format: the
      validator's `interpret` rejects a format outside the four first; an invalid schema
      fails; a valid one is marked validated. */
  function MetaCheckOf(s: EngineState, format: string, schema: Schema.View,
                       metaCheck: (string, Option<Json>, Output.Format) -> bool): (r: (Result<()>, EngineState))
    ensures Output.ParseFormat(format).Err? ==> r == (Err(UnsupportedOutputFormat(format)), s)
    ensures Output.ParseFormat(format).Ok?
            && !metaCheck(ValidateKeyword.VersionOf(schema), Schema.Value(schema), Output.ParseFormat(format).value) ==>
      r == (Err(InvalidSchema(schema.id)), s)
    ensures r.1.keywords == s.keywords && r.1.metaValidators == s.metaValidators
    ensures r.0.Ok? ==>
      Output.ParseFormat(format).Ok?
      && metaCheck(ValidateKeyword.VersionOf(schema), Schema.Value(schema), Output.ParseFormat(format).value)
      && r == MarkOf(s, schema.id)
  {
    match Output.ParseFormat(format)
    case Err(e) => (Err(e), s)
    case Ok(f) =>
      if !metaCheck(ValidateKeyword.VersionOf(schema), Schema.Value(schema), f) then (Err(InvalidSchema(schema.id)), s)
      else MarkOf(s, schema.id)
  }

  /** Whether the keyword table is extended by the meta-schema's vocabularies: the
      dialect is known, meta-validation applies, it has no validator yet and its
      meta-schema can be got. */
  predicate RegistersVocabularies(s: EngineState, schema: Schema.View, fuel: nat) {
    ValidateKeyword.ValidateId(schema) in s.keywords && MetaApplies(s.tables, schema, fuel)
    && ValidateKeyword.VersionOf(schema) !in s.metaValidators
    && MetaDeclared(s.tables, ValidateKeyword.VersionOf(schema), fuel).Ok?
  }

  /** The keyword table afterwards: the meta-schema's vocabularies registered, up to the
      first missing required one, when they are registered at all. */
  function KeywordsAfter(s: EngineState, vocabularies: map<string, Vocabulary>, schema: Schema.View, fuel: nat): Keywords {
    if RegistersVocabularies(s, schema, fuel) then
      Register(s.keywords, vocabularies, ValidateKeyword.VersionOf(schema),
               MetaDeclared(s.tables, ValidateKeyword.VersionOf(schema), fuel).value).keywords
    else s.keywords
  }

  /** Whether the dialect's meta-validator is built: its vocabularies are registered
      with no required one missing. */
  predicate BuildsMetaValidator(s: EngineState, vocabularies: map<string, Vocabulary>, schema: Schema.View, fuel: nat) {
    RegistersVocabularies(s, schema, fuel)
    && Register(s.keywords, vocabularies, ValidateKeyword.VersionOf(schema),
                MetaDeclared(s.tables, ValidateKeyword.VersionOf(schema), fuel).value).failure.None?
  }

  /** A dialect's first meta-validation (lib/core.js:91-107), given the vocabularies its
      meta-schema declares (or why it cannot be got): registers them and records the
      dialect's validator; a missing required vocabulary stops the registration where
      it is. */
  function BuildOf(s: EngineState, vocabularies: map<string, Vocabulary>, version: string,
                   declared: Result<seq<(string, Json)>>): (r: (Result<()>, EngineState))
    ensures declared.Err? ==> r == (Err(declared.error), s)
    ensures r.0.Ok? <==> declared.Ok? && Register(s.keywords, vocabularies, version, declared.value).failure.None?
    ensures declared.Ok? ==> r.1.keywords == Register(s.keywords, vocabularies, version, declared.value).keywords
    ensures declared.Ok? && r.0.Err? ==>
      r.0.error == Register(s.keywords, vocabularies, version, declared.value).failure.value
    ensures r.1.metaValidators == if r.0.Ok? then s.metaValidators + {version} else s.metaValidators
    ensures r.1.tables == s.tables
  {
    match declared
    case Err(e) => (Err(e), s)
    case Ok(vocabularyIds) =>
      var registration := Register(s.keywords, vocabularies, version, vocabularyIds);
      if registration.failure.Some? then (Err(registration.failure.value), s.(keywords := registration.keywords))
      else (Ok(()), s.(keywords := registration.keywords, metaValidators := s.metaValidators + {version}))
  }

  /** The first-use half of `compileSchema` (lib/core.js:81-117) on the state: the
      result, and the keyword table, the meta-validators and the store afterwards. */
  function CheckOf(s: EngineState, vocabularies: map<string, Vocabulary>, format: string, schema: Schema.View,
                   metaCheck: (string, Option<Json>, Output.Format) -> bool, fuel: nat): (r: (Result<()>, EngineState))
    ensures ValidateKeyword.ValidateId(schema) !in s.keywords ==>
      r == (Err(UnsupportedSchemaVersion(ValidateKeyword.VersionOf(schema))), s)
    ensures r.0.Ok? <==>
      ValidateKeyword.ValidateId(schema) in s.keywords && schema.id in s.tables.resources
      && (MetaApplies(s.tables, schema, fuel) ==>
            (ValidateKeyword.VersionOf(schema) in s.metaValidators || BuildsMetaValidator(s, vocabularies, schema, fuel))
            && Output.ParseFormat(format).Ok?
            && metaCheck(ValidateKeyword.VersionOf(schema), Schema.Value(schema), Output.ParseFormat(format).value))
    ensures r.0.Ok? ==> r.1.tables == MarkOf(s, schema.id).1.tables
    ensures r.0.Err? ==> r.1.tables == s.tables
  {
    var version := ValidateKeyword.VersionOf(schema);
    if ValidateKeyword.ValidateId(schema) !in s.keywords then (Err(UnsupportedSchemaVersion(version)), s)
    else if !MetaApplies(s.tables, schema, fuel) then MarkOf(s, schema.id)
    else
      var built := if version in s.metaValidators then (Ok(()), s) else BuildOf(s, vocabularies, version, MetaDeclared(s.tables, version, fuel));
      if built.0.Err? then built else MetaCheckOf(built.1, format, schema, metaCheck)
  }

  /** The keyword table after the checks: the meta-schema's vocabularies are registered
      exactly when the dialect is met for the first time and its meta-schema can be got. */
  lemma CheckOfKeywords(s: EngineState, vocabularies: map<string, Vocabulary>, format: string, schema: Schema.View,
                        metaCheck: (string, Option<Json>, Output.Format) -> bool, fuel: nat)
    ensures CheckOf(s, vocabularies, format, schema, metaCheck, fuel).1.keywords == KeywordsAfter(s, vocabularies, schema, fuel)
  {
  }

  /** The meta-validators after the checks: the dialect's validator is recorded exactly
      when its vocabularies were registered with no required one missing. */
  lemma CheckOfMetaValidators(s: EngineState, vocabularies: map<string, Vocabulary>, format: string, schema: Schema.View,
                              metaCheck: (string, Option<Json>, Output.Format) -> bool, fuel: nat)
    ensures CheckOf(s, vocabularies, format, schema, metaCheck, fuel).1.metaValidators ==
      if BuildsMetaValidator(s, vocabularies, schema, fuel) then s.metaValidators + {ValidateKeyword.VersionOf(schema)}
      else s.metaValidators
  {
  }

  /** A dialect met for the first time has every keyword of every vocabulary its
      meta-schema declares and knows registered once `compileSchema` gets past it. */
  lemma CheckRegisters(s: EngineState, vocabularies: map<string, Vocabulary>, format: string, schema: Schema.View,
                       metaCheck: (string, Option<Json>, Output.Format) -> bool, fuel: nat)
    requires CheckOf(s, vocabularies, format, schema, metaCheck, fuel).0.Ok?
    requires MetaApplies(s.tables, schema, fuel) && ValidateKeyword.VersionOf(schema) !in s.metaValidators
    ensures var declared := MetaDeclared(s.tables, ValidateKeyword.VersionOf(schema), fuel).value;
      var after := CheckOf(s, vocabularies, format, schema, metaCheck, fuel).1;
      forall i, j :: 0 <= i < |declared| && declared[i].0 in vocabularies && 0 <= j < |vocabularies[declared[i].0]| ==>
        ValidateKeyword.VersionOf(schema) + "#" + vocabularies[declared[i].0][j].0 in after.keywords
  {
    RegisterComplete(s.keywords, vocabularies, ValidateKeyword.VersionOf(schema),
                     MetaDeclared(s.tables, ValidateKeyword.VersionOf(schema), fuel).value);
  }

  /** The state after `compileSchema`'s checks: unchanged for a schema validated before. */
  function StateAfterCheck(s: EngineState, vocabularies: map<string, Vocabulary>, format: string, schema: Schema.View,
                           metaCheck: (string, Option<Json>, Output.Format) -> bool, fuel: nat): EngineState {
    if schema.validated then s else CheckOf(s, vocabularies, format, schema, metaCheck, fuel).1
  }

  /** The engine's module-level tables. `store` is the schema store it reads and marks. */
  class Engine {
    var keywords: Keywords
    var vocabularies: map<string, Vocabulary>
    var metaValidators: set<string>
    var metaOutputFormat: string
    const store: Schema.Store

    /** What `compileSchema` reads and changes. */
    function State(): EngineState
      reads this, store
    {
      EngineState(keywords, metaValidators, store.Snapshot())
    }

    constructor (store: Schema.Store)
      ensures keywords == map[] && vocabularies == map[] && metaValidators == {}
      ensures metaOutputFormat == "DETAILED" && this.store == store
    {
      keywords := map[];
      vocabularies := map[];
      metaValidators := {};
      metaOutputFormat := "DETAILED";
      this.store := store;
    }

    /** `setMetaOutputFormat(format)`: any string is kept; one outside the four formats
        fails at the next meta-validation. */
    method SetMetaOutputFormat(format: string)
      modifies this
      ensures metaOutputFormat == format
      ensures keywords == old(keywords) && vocabularies == old(vocabularies) && metaValidators == old(metaValidators)
    {
      metaOutputFormat := format;
    }

    /** `getKeyword(id)`: the handler registered under `id`, `None` for undefined. */
    function GetKeyword(id: string): (r: Option<Handler>)
      reads this
      ensures r.Some? <==> HasKeyword(id)
    {
      if id in keywords then Some(keywords[id]) else None
    }

    /** `hasKeyword(id)` */
    predicate HasKeyword(id: string)
      reads this
    {
      id in keywords
    }

    /** `addKeyword(id, handler)`: registers or replaces one handler. */
    method AddKeyword(id: string, handler: Handler)
      modifies this
      ensures keywords == old(keywords)[id := handler]
      ensures GetKeyword(id) == Some(handler)
      ensures forall other :: other != id ==> GetKeyword(other) == old(GetKeyword(other))
      ensures vocabularies == old(vocabularies) && metaValidators == old(metaValidators)
      ensures metaOutputFormat == old(metaOutputFormat)
    {
      keywords := keywords[id := handler];
    }

    /** `addVocabulary(id, keywords)`: registers or replaces one vocabulary. */
    method AddVocabulary(id: string, vocabulary: Vocabulary)
      modifies this
      ensures vocabularies == old(vocabularies)[id := vocabulary]
      ensures keywords == old(keywords) && metaValidators == old(metaValidators)
      ensures metaOutputFormat == old(metaOutputFormat)
    {
      vocabularies := vocabularies[id := vocabulary];
    }

    /** The inner `forEach`: every keyword of one vocabulary under the dialect. */
    method RegisterVocabulary(version: string, vocabulary: Vocabulary)
      modifies this
      ensures keywords == AddAll(old(keywords), version, vocabulary)
      ensures vocabularies == old(vocabularies) && metaValidators == old(metaValidators)
      ensures metaOutputFormat == old(metaOutputFormat)
    {
      var i := 0;
      while i < |vocabulary|
        invariant 0 <= i <= |vocabulary|
        invariant keywords == AddAll(old(keywords), version, vocabulary[..i])
        invariant vocabularies == old(vocabularies) && metaValidators == old(metaValidators)
        invariant metaOutputFormat == old(metaOutputFormat)
      {
        assert vocabulary[..i + 1][..i] == vocabulary[..i];
        keywords := keywords[version + "#" + vocabulary[i].0 := vocabulary[i].1];
        i := i + 1;
      }
      assert vocabulary[..i] == vocabulary;
    }

    /** The outer `forEach` over the vocabularies a meta-schema declares. */
    method RegisterDeclared(version: string, declared: seq<(string, Json)>) returns (r: Result<()>)
      modifies this
      ensures keywords == Register(old(keywords), vocabularies, version, declared).keywords
      ensures r.Err? <==> Register(old(keywords), vocabularies, version, declared).failure.Some?
      ensures r.Err? ==> r.error == Register(old(keywords), vocabularies, version, declared).failure.value
      ensures vocabularies == old(vocabularies) && metaValidators == old(metaValidators)
      ensures metaOutputFormat == old(metaOutputFormat)
    {
      ghost var goal := Register(keywords, vocabularies, version, declared);
      var i := 0;
      while i < |declared|
        invariant 0 <= i <= |declared|
        invariant Register(keywords, vocabularies, version, declared[i..]) == goal
        invariant vocabularies == old(vocabularies) && metaValidators == old(metaValidators)
        invariant metaOutputFormat == old(metaOutputFormat)
      {
        assert declared[i..][1..] == declared[i + 1..];
        var (vocabularyId, isRequired) := declared[i];
        if vocabularyId in vocabularies {
          RegisterVocabulary(version, vocabularies[vocabularyId]);
        } else if Truthy(isRequired) {
          return Err(MissingVocabulary(vocabularyId));
        }
        i := i + 1;
      }
      return Ok(());
    }

    /** `compileSchema(schema, ast)`: unless the schema was validated before, checks that
        its dialect has a `validate` keyword, registers the meta-schema's vocabularies the
        first time the dialect is met, meta-validates it (`metaCheck` is the meta-schema's
        validator) and marks it validated; then compiles it. Returns the schema's uri and
        the grown AST, and, as ghosts, the view each new AST entry was compiled from and
        the views whose compilation began, in order. */
    method CompileSchema(schema: Schema.View, ast: Table, metaCheck: (string, Option<Json>, Output.Format) -> bool,
                         fuel: nat, universe: set<string>)
      returns (r: Result<(string, Table)>, ghost views: map<string, Schema.View>, ghost trail: seq<Schema.View>)
      modifies this, store
      ensures vocabularies == old(vocabularies) && metaOutputFormat == old(metaOutputFormat)
      ensures State() == StateAfterCheck(old(State()), vocabularies, metaOutputFormat, schema, metaCheck, fuel)
      ensures !schema.validated && CheckOf(old(State()), vocabularies, metaOutputFormat, schema, metaCheck, fuel).0.Err? ==>
        r == Err(CheckOf(old(State()), vocabularies, metaOutputFormat, schema, metaCheck, fuel).0.error)
      ensures r.Ok? ==> r.value.0 == Schema.Uri(schema) && ValidateKeyword.ValidateId(schema) in keywords
      ensures r.Ok? && keywords[ValidateKeyword.ValidateId(schema)] == ValidateHandler ==>
        Schema.Uri(schema) in r.value.1 && ValidateKeyword.Grown(ast, r.value.1)
        && ValidateKeyword.Compiled(keywords, store.Snapshot(), fuel, views, ast, r.value.1)
        && ValidateKeyword.Reached(keywords, store.Snapshot(), fuel, schema, trail, views)
      ensures r.Ok? && keywords[ValidateKeyword.ValidateId(schema)] == ValidateHandler && Schema.Uri(schema) !in ast ==>
        ValidateKeyword.NodeIn(r.value.1, keywords, schema, ValidateKeyword.Selection(store.Snapshot(), fuel, keywords, schema))
      ensures r.Ok? && keywords[ValidateKeyword.ValidateId(schema)] != ValidateHandler ==> r.value.1 == ast
    {
      views, trail := map[], [];
      var validateId := ValidateKeyword.ValidateId(schema);
      if !schema.validated {
        var checked := CheckSchema(schema, metaCheck, fuel);
        if checked.Err? {
          return Err(checked.error), views, trail;
        }
      }
      if validateId !in keywords {
        return Err(UnknownKeyword(validateId)), views, trail;
      }
      var compiled := ast;
      if keywords[validateId] == ValidateHandler {
        var result;
        result, views, trail := ValidateKeyword.CompileInto(keywords, store.Snapshot(), fuel, universe, ast, schema);
        if result.Err? {
          return Err(result.error), views, trail;
        }
        compiled := result.value;
      }
      return Ok((Schema.Uri(schema), compiled)), views, trail;
    }

    /** The first meta-validation of a dialect: gets its meta-schema, registers the
        vocabularies it declares and records the dialect's validator. */
    method BuildMetaValidator(schema: Schema.View, fuel: nat) returns (r: Result<()>)
      modifies this
      ensures vocabularies == old(vocabularies) && metaOutputFormat == old(metaOutputFormat)
      ensures (r, State()) == BuildOf(old(State()), vocabularies, ValidateKeyword.VersionOf(schema),
                                      MetaDeclared(old(store.Snapshot()), ValidateKeyword.VersionOf(schema), fuel))
    {
      var version := ValidateKeyword.VersionOf(schema);
      var declared := MetaDeclared(store.Snapshot(), version, fuel);
      if declared.Err? {
        return Err(declared.error);
      }
      var registered := RegisterDeclared(version, declared.value);
      if registered.Err? {
        return registered;
      }
      metaValidators := metaValidators + {version};
      return Ok(());
    }

    /** The first-use half of `compileSchema`: rejects an unknown dialect, meta-validates
        the schema when that applies (registering the meta-schema's vocabularies the first
        time its dialect is met), and marks the schema validated. */
    method CheckSchema(schema: Schema.View, metaCheck: (string, Option<Json>, Output.Format) -> bool, fuel: nat)
      returns (r: Result<()>)
      modifies this, store
      ensures vocabularies == old(vocabularies) && metaOutputFormat == old(metaOutputFormat)
      ensures (r, State()) == CheckOf(old(State()), vocabularies, metaOutputFormat, schema, metaCheck, fuel)
    {
      ghost var before := State();
      var version := ValidateKeyword.VersionOf(schema);
      var validateId := ValidateKeyword.ValidateId(schema);
      if validateId !in keywords {
        return Err(UnsupportedSchemaVersion(version));
      }
      var t := store.Snapshot();
      if MetaApplies(t, schema, fuel) {
        if version !in metaValidators {
          var built := BuildMetaValidator(schema, fuel);
          if built.Err? {
            return built;
          }
        }
        ghost var built := State();
        assert built.tables == t;
        var format := Output.ParseFormat(metaOutputFormat);
        if format.Err? {
          assert (Err(format.error), State()) == MetaCheckOf(built, metaOutputFormat, schema, metaCheck);
          return Err(format.error);
        }
        if !metaCheck(version, Schema.Value(schema), format.value) {
          assert (Err(InvalidSchema(schema.id)), State()) == MetaCheckOf(built, metaOutputFormat, schema, metaCheck);
          return Err(InvalidSchema(schema.id));
        }
        assert MetaCheckOf(built, metaOutputFormat, schema, metaCheck) == MarkOf(built, schema.id);
        assert CheckOf(before, vocabularies, metaOutputFormat, schema, metaCheck, fuel) == MarkOf(built, schema.id);
      } else {
        assert CheckOf(before, vocabularies, metaOutputFormat, schema, metaCheck, fuel) == MarkOf(before, schema.id);
      }
      ghost var checked := State();
      assert checked.tables.resources == store.resources;
      assert CheckOf(before, vocabularies, metaOutputFormat, schema, metaCheck, fuel) == MarkOf(checked, schema.id);
      var marked := store.MarkValidated(schema.id);
      assert State() == checked.(tables := checked.tables.(resources := store.resources));
      if marked.Err? {
        assert State() == checked && schema.id !in checked.tables.resources;
        return Err(marked.error);
      }
      assert store.resources == checked.tables.resources[schema.id := checked.tables.resources[schema.id].(validated := true)];
      return Ok(());
    }

    /** `validate(schema, value, outputFormat)`: compiles the schema, rejects an unknown
        output format before interpreting anything, interprets the schema against the
        value, and returns what the output handler is left with. As ghosts: the AST
        compiled, the view each of its entries was compiled from, and the events the
        interpretation emitted, in order. */
    method Validate(schema: Schema.View, value: Json, outputFormat: Option<string>,
                    metaCheck: (string, Option<Json>, Output.Format) -> bool, fuel: nat, universe: set<string>)
      returns (r: Result<Option<Output.Node>>, ghost ast: Table, ghost views: map<string, Schema.View>,
               ghost trail: seq<Schema.View>, ghost events: seq<Output.Event>)
      modifies this, store
      ensures vocabularies == old(vocabularies) && metaOutputFormat == old(metaOutputFormat)
      ensures State() == StateAfterCheck(old(State()), vocabularies, metaOutputFormat, schema, metaCheck, fuel)
      ensures Output.ParseFormat(FormatName(outputFormat)).Err? ==> r.Err? && events == []
      ensures r.Ok? ==> ValidateKeyword.ValidateId(schema) in keywords
      ensures r.Ok? && keywords[ValidateKeyword.ValidateId(schema)] == ValidateHandler ==>
        ValidateKeyword.NodeIn(ast, keywords, schema, ValidateKeyword.Selection(store.Snapshot(), fuel, keywords, schema))
        && ValidateKeyword.Compiled(keywords, store.Snapshot(), fuel, views, map[], ast)
        && ValidateKeyword.Reached(keywords, store.Snapshot(), fuel, schema, trail, views)
      ensures r.Ok? ==>
        InterpretSchema(Schema.Uri(schema), Instance.Cons(value), ast, keywords).Ok?
        && events == InterpretSchema(Schema.Uri(schema), Instance.Cons(value), ast, keywords).value.1
      ensures r.Ok? ==> r.value == Output.Run(Output.ParseFormat(FormatName(outputFormat)).value, events).output
      ensures r.Ok? && events != [] ==>
        r.value.Some? && r.value.value.valid == events[|events| - 1].valid
      ensures r.Ok? && keywords[ast[Schema.Uri(schema)].keywordId] == ValidateHandler ==>
        r.value.Some?
        && r.value.value.valid == InterpretSchema(Schema.Uri(schema), Instance.Cons(value), ast, keywords).value.0
    {
      events := [];
      ast := map[];
      var compiled;
      compiled, views, trail := CompileSchema(schema, map[], metaCheck, fuel, universe);
      if compiled.Err? {
        return Err(compiled.error), ast, views, trail, events;
      }
      ast := compiled.value.1;
      var format := Output.ParseFormat(FormatName(outputFormat));
      if format.Err? {
        return Err(format.error), ast, views, trail, events;
      }
      var interpreted := InterpretSchema(compiled.value.0, Instance.Cons(value), compiled.value.1, keywords);
      if interpreted.Err? {
        return Err(interpreted.error), ast, views, trail, events;
      }
      var emitted := interpreted.value.1;
      var output := Output.Deliver(format.value, emitted);
      if emitted != [] {
        Output.OutputIsLast(format.value, emitted);
      }
      if keywords[ast[Schema.Uri(schema)].keywordId] == ValidateHandler {
        ValidateVerdict(format.value, compiled.value.0, Instance.Cons(value), ast, keywords);
      }
      events := emitted;
      return Ok(output), ast, views, trail, events;
    }
  }
}
