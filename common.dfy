/** The small pure helpers of lib/common.js: URL splitting and JSON type tests. */
module Common {
  import opened Base

  /** `splitUrl`: the part before the first `#` and the part after it.
      (URI decoding is the identity in this model.) */
  function SplitUrl(url: string): (r: (string, string))
    ensures '#' !in r.0
    ensures '#' !in url ==> r == (url, "")
    ensures '#' in url ==> url == r.0 + "#" + r.1
  {
    var n := IndexOf(url, '#');
    if n == |url| then (url, "") else (url[..n], url[n + 1..])
  }

  /** The fragment-free part of a URL. */
  function StripFragment(url: string): string {
    SplitUrl(url).0
  }

  /** Splitting a string without `#` and a fragment back apart recovers both. */
  lemma SplitJoin(reference: string, fragment: string)
    requires '#' !in reference
    ensures SplitUrl(reference + "#" + fragment) == (reference, fragment)
  {
    var url := reference + "#" + fragment;
    assert url[|reference|] == '#';
    assert IndexOf(url, '#') == |reference| by {
      IndexOfPrefix(reference, "#" + fragment, '#');
    }
    assert url[..|reference|] == reference;
    assert url[|reference| + 1..] == fragment;
  }

  /** `isObject`: a non-null, non-array object. The reference placeholder is an object. */
  predicate IsObject(v: Json): (r: bool)
    ensures r <==> !(v.JNull? || v.JBool? || v.JNum? || v.JStr? || v.JArr?)
    ensures v.JObj? ==> r
  {
    v.JObj? || v.JRef?
  }

  /** `jsonTypeOf(value, type)`: dispatch on the type name; a name without a predicate fails. */
  function JsonTypeOf(v: Json, typeName: string): (r: Result<bool>)
    ensures r.Ok? <==> typeName in {"null", "boolean", "object", "array", "number", "integer", "string"}
    ensures typeName == "null" ==> (r == Ok(true) <==> v == JNull)
    ensures typeName == "boolean" ==> (r == Ok(true) <==> exists b :: v == JBool(b))
    ensures typeName == "object" ==> (r == Ok(true) <==> IsObject(v)) && (r == Ok(true) ==> !v.JArr?)
    ensures typeName == "array" ==> (r == Ok(true) <==> exists items :: v == JArr(items)) && (r == Ok(true) ==> !IsObject(v))
    ensures typeName in {"number", "integer"} ==> (r == Ok(true) <==> exists n :: v == JNum(n))
    ensures typeName == "string" ==> (r == Ok(true) <==> exists s :: v == JStr(s))
    ensures r.Err? ==> r.error == UnknownType(typeName)
  {
    match typeName
    case "null" => Ok(v.JNull?)
    case "boolean" => Ok(v.JBool?)
    case "object" => Ok(IsObject(v))
    case "array" => Ok(v.JArr?)
    case "number" => Ok(v.JNum?)
    case "integer" => Ok(v.JNum?)
    case "string" => Ok(v.JStr?)
    case _ => Err(UnknownType(typeName))
  }

  /** Exactly one of the seven type names holds of any JSON value, counting `number`
      and `integer` as one (every number of this model is an integer). */
  lemma TypesPartition(v: Json)
    ensures JsonTypeOf(v, "object") == Ok(true) ==> JsonTypeOf(v, "array") == Ok(false)
    ensures JsonTypeOf(v, "array") == Ok(true) ==> JsonTypeOf(v, "object") == Ok(false)
    ensures JsonTypeOf(v, "null").value || JsonTypeOf(v, "boolean").value || JsonTypeOf(v, "object").value
         || JsonTypeOf(v, "array").value || JsonTypeOf(v, "number").value || JsonTypeOf(v, "string").value
  {
  }
}
