/** Shared vocabulary of the model: optional values, failures, and JSON values
    with ordered object entries (key order drives the order of compiled keywords). */
module Base {

  datatype Option<+T> = None | Some(value: T)

  /** Every way an engine operation can fail. */
  datatype Error =
    | VersionUndetermined                          // "Couldn't determine schema version"
    | IdentifierUndetermined                       // "Couldn't determine an identifier for the schema"
    | FileContextViolation(resolved: string, context: string)
    | AnchorNotFound(id: string, anchor: string)   // "No such anchor ..."
    | RetrievalFailed(id: string)                  // the resource is not stored and cannot be fetched here
    | DanglingAlias(id: string)                    // an alias whose target was never stored (a TypeError in the engine)
    | ReferenceChainTooLong(url: string)           // the reference-following budget ran out
    | NotASchema(contentType: string)              // "... is not a schema. Found a document with media type ..."
    | UnsupportedSchemaVersion(version: string)
    | MissingVocabulary(vocabularyId: string)
    | UnsupportedOutputFormat(format: string)
    | NotCompiled(uri: string)                     // no finished AST node at this uri (a TypeError in the engine)
    | UnknownKeyword(keywordId: string)            // a keyword id with no handler (a TypeError in the engine)
    | UnknownType(typeName: string)                // jsonTypeOf with a type name it has no predicate for
    | NotStored(id: string)                        // markValidated of an id that was never stored (a TypeError)
    | InvalidSchema(id: string)                    // meta-validation rejected the schema (the engine throws the output)
    | NoKeys(pointer: string)                      // `Object.keys` of `undefined` or `null` (a TypeError in the engine)
    | NotAFunction(name: string)                   // a call of an imported name the helper module does not export (a TypeError)
    | NullSchema                                   // `add` of `null`: reading its `$schema` (a TypeError in the engine)

  datatype Result<+T> = Ok(value: T) | Err(error: Error) {
    predicate IsFailure() { Err? }
    function PropagateFailure<U>(): Result<U> requires Err? { Err(error) }
    function Extract(): T requires Ok? { value }
  }

  /** A JSON value. `JRef` is the engine's reference placeholder: an object whose only
      (symbol) key holds the raw identifier of an embedded resource. */
  datatype Json =
    | JNull
    | JBool(b: bool)
    | JNum(n: int)
    | JStr(s: string)
    | JArr(items: seq<Json>)
    | JObj(props: seq<(string, Json)>)
    | JRef(href: string)

  type Props = seq<(string, Json)>

  /** JavaScript truthiness of a defined value. */
  predicate Truthy(j: Json) {
    match j
    case JNull => false
    case JBool(b) => b
    case JNum(n) => n != 0
    case JStr(s) => s != ""
    case _ => true
  }

  /** Truthiness of a possibly undefined value. */
  predicate TruthyValue(v: Option<Json>) {
    v.Some? && Truthy(v.value)
  }

  /** The value stored under `key` (the first entry with that key), as `obj[key]` reads it. */
  function Lookup(props: Props, key: string): (r: Option<Json>)
    ensures r.Some? <==> exists i :: 0 <= i < |props| && props[i].0 == key
  {
    if props == [] then None
    else if props[0].0 == key then Some(props[0].1)
    else Lookup(props[1..], key)
  }

  predicate HasKey(props: Props, key: string) {
    Lookup(props, key).Some?
  }

  /** `key in obj` for a string-valued entry, and its string. */
  function LookupString(props: Props, key: string): Option<string> {
    match Lookup(props, key)
    case Some(JStr(s)) => Some(s)
    case _ => None
  }

  /** `delete obj[key]`: every other entry keeps its value and its relative order. */
  function Delete(props: Props, key: string): (r: Props)
    ensures !HasKey(r, key)
    ensures forall k :: k != key ==> Lookup(r, k) == Lookup(props, k)
    ensures |r| <= |props|
  {
    if props == [] then []
    else if props[0].0 == key then Delete(props[1..], key)
    else [props[0]] + Delete(props[1..], key)
  }

  /** `obj[key] = v`: an existing key keeps its position, a new key goes last. */
  function Assign(props: Props, key: string, v: Json): (r: Props)
    ensures Lookup(r, key) == Some(v)
    ensures forall k :: k != key ==> Lookup(r, k) == Lookup(props, k)
  {
    if props == [] then [(key, v)]
    else if props[0].0 == key then [(key, v)] + props[1..]
    else [props[0]] + Assign(props[1..], key, v)
  }

  function Keys(props: Props): (r: seq<string>)
    ensures |r| == |props|
    ensures forall i :: 0 <= i < |props| ==> r[i] == props[i].0
  {
    if props == [] then [] else [props[0].0] + Keys(props[1..])
  }

  /** Termination measure for the schema walk. A string that starts with `#` (a local
      anchor) weighs less than any other string. */
  function Size(j: Json): nat
    ensures Size(j) >= 1
  {
    match j
    case JStr(s) => if |s| > 0 && s[0] == '#' then 1 else 2
    case JRef(_) => 2
    case JArr(items) => 1 + SizeItems(items)
    case JObj(props) => 1 + SizeProps(props)
    case _ => 1
  }

  function SizeItems(items: seq<Json>): nat {
    if items == [] then 0 else Size(items[0]) + SizeItems(items[1..])
  }

  function SizeProps(props: Props): nat {
    if props == [] then 0
    else
      assert props[0] in props;
      match props[0]
      case (k, v) =>
        assert v < props[0];
        1 + Size(v) + SizeProps(props[1..])
  }

  lemma {:induction false} SizeItemsElement(items: seq<Json>, i: nat)
    requires i < |items|
    ensures Size(items[i]) < 1 + SizeItems(items)
  {
    if i > 0 { SizeItemsElement(items[1..], i - 1); }
  }

  lemma {:induction false} SizePropsElement(props: Props, i: nat)
    requires i < |props|
    ensures Size(props[i].1) < 1 + SizeProps(props)
  {
    if i > 0 { SizePropsElement(props[1..], i - 1); }
  }

  /** Deleting a key never makes an object heavier; deleting a present key removes its weight. */
  lemma {:induction false} SizeDelete(props: Props, key: string)
    ensures SizeProps(Delete(props, key)) <= SizeProps(props)
    ensures Lookup(props, key).Some? ==>
      SizeProps(Delete(props, key)) + 1 + Size(Lookup(props, key).value) <= SizeProps(props)
  {
    if props != [] {
      SizeDelete(props[1..], key);
    }
  }

  /** Appending a key that is absent adds exactly that entry's weight. */
  lemma {:induction false} SizeAssignFresh(props: Props, key: string, v: Json)
    requires !HasKey(props, key)
    ensures SizeProps(Assign(props, key, v)) == SizeProps(props) + 1 + Size(v)
  {
    if props != [] {
      SizeAssignFresh(props[1..], key, v);
    }
  }

  // ---------------------------------------------------------------- strings

  /** Index of the first `c` in `s`, or `|s|` when there is none. */
  function IndexOf(s: string, c: char): (n: nat)
    ensures n <= |s|
    ensures forall i :: 0 <= i < n ==> s[i] != c
    ensures n < |s| ==> s[n] == c
  {
    if s == [] then 0
    else if s[0] == c then 0
    else 1 + IndexOf(s[1..], c)
  }

  /** The piece before the first `c` holds no `c`, and when a `c` is found the string is
      that piece, the `c`, and the rest. */
  lemma IndexOfSplits(s: string, c: char)
    ensures c !in s[..IndexOf(s, c)]
    ensures IndexOf(s, c) < |s| ==> s == s[..IndexOf(s, c)] + [c] + s[IndexOf(s, c) + 1..]
  {
    var n := IndexOf(s, c);
    assert forall x :: x in s[..n] ==> x != c;
    if n < |s| {
      assert s == s[..n] + [c] + s[n + 1..];
    }
  }

  /** The first `c` of `a + b` is the one `b` starts with when `a` has none. */
  lemma {:induction false} IndexOfPrefix(a: string, b: string, c: char)
    requires c !in a && |b| > 0 && b[0] == c
    ensures IndexOf(a + b, c) == |a|
  {
    if a != [] {
      assert (a + b)[1..] == a[1..] + b;
      IndexOfPrefix(a[1..], b, c);
    }
  }
}
