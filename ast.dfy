/** The compiled form of schemas shared by lib/core.js and the keyword handlers: the AST
    table keyed by schema uri, and the keyword handlers the engine dispatches to. */
module Ast {
  import opened Base
  import Schema
  import Instance
  import Output

  /** One compiled keyword: `[keywordId, uri of its keyword schema, the keyword's AST]`. */
  datatype Child = Child(keywordId: string, schemaUri: string, keywordAst: Json)

  /** The third component of a `validate` node: a boolean schema's value, or the
      compiled keywords of an object schema in key order. */
  datatype Body = Boolean(value: bool) | Children(children: seq<Child>)

  /** An AST entry: the `false` written before compiling (so that a schema reaching
      itself stops there), or the finished `[keywordId, uri, body]` node. */
  datatype Entry = Placeholder | Node(keywordId: string, schemaUri: string, body: Body)

  type Table = map<string, Entry>

  /** A keyword handler. The `validate` handler is modelled by this project; every
      other keyword is an oracle. A keyword's `compile` yields its AST and the
      subschemas it compiles through `validate`; `interpret` yields its validity and the
      events it emits (in emission order); `collect` yields the evaluated property
      names, `None` standing for `false`. */
  datatype Handler =
    | ValidateHandler
    | Keyword(
        compile: (Schema.View, Schema.View) -> (Json, seq<Schema.View>),
        interpret: (Json, Instance.Instance, Table) -> (bool, seq<Output.Event>),
        collect: (Json, Instance.Instance, Table) -> Option<seq<string>>)

  type Keywords = map<string, Handler>
}
