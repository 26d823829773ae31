/** The media-type plugin registry of lib/media-types.js. Plugins are kept in insertion
    order, as the keys of the engine's plugin table are. The plugins' own `parse` and
    `matcher` callbacks are opaque functions here. */
module MediaTypes {
  import opened Base

  /** A retrieved document; `contentType` is the already parsed media type of its header. */
  datatype Response = Response(url: string, contentType: string, body: string)

  datatype Plugin = Plugin(parse: Response -> Json, matcher: string -> bool)

  const OctetStream: string := "application/octet-stream"

  type Table = seq<(string, Plugin)>

  predicate DistinctKeys(t: Table) {
    forall i, j :: 0 <= i < j < |t| ==> t[i].0 != t[j].0
  }

  function Find(t: Table, contentType: string): (r: Option<Plugin>)
    ensures r.Some? <==> exists i :: 0 <= i < |t| && t[i].0 == contentType
    ensures r.Some? ==> exists i :: 0 <= i < |t| && t[i] == (contentType, r.value)
  {
    if t == [] then None
    else if t[0].0 == contentType then Some(t[0].1)
    else Find(t[1..], contentType)
  }

  function KeySet(t: Table): (ks: set<string>)
    ensures forall c :: c in ks <==> exists i :: 0 <= i < |t| && t[i].0 == c
  {
    if t == [] then {} else {t[0].0} + KeySet(t[1..])
  }

  /** `table[contentType] = plugin`: an existing entry is replaced where it stands,
      a new one goes last. */
  function Put(t: Table, contentType: string, plugin: Plugin): (r: Table)
    ensures Find(r, contentType) == Some(plugin)
    ensures forall c :: c != contentType ==> Find(r, c) == Find(t, c)
    ensures KeySet(r) == KeySet(t) + {contentType}
    ensures |r| == |t| || |r| == |t| + 1
  {
    if t == [] then [(contentType, plugin)]
    else if t[0].0 == contentType then [(contentType, plugin)] + t[1..]
    else [t[0]] + Put(t[1..], contentType, plugin)
  }

  lemma DistinctTail(t: Table)
    requires DistinctKeys(t) && t != []
    ensures DistinctKeys(t[1..]) && t[0].0 !in KeySet(t[1..])
  {
    forall i, j | 0 <= i < j < |t[1..]| ensures t[1..][i].0 != t[1..][j].0 {
      assert t[1..][i] == t[i + 1] && t[1..][j] == t[j + 1];
    }
  }

  lemma DistinctCons(head: (string, Plugin), rest: Table)
    requires DistinctKeys(rest) && head.0 !in KeySet(rest)
    ensures DistinctKeys([head] + rest)
  {
    var r := [head] + rest;
    forall i, j | 0 <= i < j < |r| ensures r[i].0 != r[j].0 {
      assert r[j] == rest[j - 1];
      if i > 0 {
        assert r[i] == rest[i - 1];
      }
    }
  }

  /** Registering a plugin never lists a content type twice. */
  lemma {:induction false} PutDistinct(t: Table, contentType: string, plugin: Plugin)
    requires DistinctKeys(t)
    ensures DistinctKeys(Put(t, contentType, plugin))
  {
    if t != [] {
      DistinctTail(t);
      if t[0].0 == contentType {
        DistinctCons((contentType, plugin), t[1..]);
      } else {
        PutDistinct(t[1..], contentType, plugin);
        DistinctCons(t[0], Put(t[1..], contentType, plugin));
      }
    }
  }

  class Registry {
    var plugins: Table

    ghost predicate Valid()
      reads this
    {
      DistinctKeys(plugins)
    }

    constructor ()
      ensures Valid() && plugins == []
    {
      plugins := [];
    }

    /** `addPlugin(contentType, plugin)`: registers the plugin, overwriting any earlier
        plugin for the same content type. */
    method AddPlugin(contentType: string, plugin: Plugin)
      requires Valid()
      modifies this
      ensures Valid()
      ensures plugins == Put(old(plugins), contentType, plugin)
      ensures Find(plugins, contentType) == Some(plugin)
      ensures forall c :: c != contentType ==> Find(plugins, c) == Find(old(plugins), c)
    {
      PutDistinct(plugins, contentType, plugin);
      plugins := Put(plugins, contentType, plugin);
    }

    /** `parse(response)`: hands the response to the plugin registered for its content
        type, or fails with "is not a schema" when there is none. */
    function Parse(response: Response): (r: Result<Json>)
      reads this
      ensures r.Err? <==> (forall i :: 0 <= i < |plugins| ==> plugins[i].0 != response.contentType)
      ensures r.Err? ==> r.error == NotASchema(response.contentType)
      ensures r.Ok? ==> exists i :: 0 <= i < |plugins| && plugins[i].0 == response.contentType
                                    && r.value == plugins[i].1.parse(response)
    {
      match Find(plugins, response.contentType)
      case None => Err(NotASchema(response.contentType))
      case Some(plugin) => Ok(plugin.parse(response))
    }

    /** `getContentType(path)`: the first content type, in registration order, whose
        matcher accepts the path; "application/octet-stream" when none does. */
    method GetContentType(path: string) returns (contentType: string)
      ensures (forall j :: 0 <= j < |plugins| ==> !plugins[j].1.matcher(path)) ==> contentType == OctetStream
      ensures (exists j :: 0 <= j < |plugins| && plugins[j].1.matcher(path)) ==>
        exists i :: 0 <= i < |plugins| && plugins[i].0 == contentType && plugins[i].1.matcher(path)
          && forall j :: 0 <= j < i ==> !plugins[j].1.matcher(path)
    {
      var i := 0;
      while i < |plugins|
        invariant 0 <= i <= |plugins|
        invariant forall j :: 0 <= j < i ==> !plugins[j].1.matcher(path)
      {
        if plugins[i].1.matcher(path) {
          return plugins[i].0;
        }
        i := i + 1;
      }
      return OctetStream;
    }
  }
}
