/** The reference record of lib/reference.js: an href, the raw value it replaced, and
    whether it is resolved dynamically. */
module Reference {
  import opened Base

  /** A frozen record; `href` may be `undefined` when `cons` is given none. */
  datatype Reference = Reference(href: Option<string>, raw: Json, dynamic: bool)

  /** `cons(href, value, isDynamic = false)`. */
  function Cons(href: Option<string>, value: Json, isDynamic: bool := false): Reference {
    Reference(href, value, isDynamic)
  }

  function Href(r: Reference): Option<string> { r.href }

  function Value(r: Reference): Json { r.raw }

  function IsDynamic(r: Reference): bool { r.dynamic }

  /** `isReference(x)`: `x` is truthy and its href is defined. `None` stands for any
      falsy argument and any object that does not carry the href symbol. */
  predicate IsReference(x: Option<Reference>) {
    x.Some? && x.value.href.Some?
  }

  /** The accessors read back what `cons` was given, with `isDynamic` defaulting to false. */
  lemma ConsAccessors(h: Option<string>, v: Json, d: bool)
    ensures Href(Cons(h, v, d)) == h && Value(Cons(h, v, d)) == v && IsDynamic(Cons(h, v, d)) == d
    ensures IsDynamic(Cons(h, v)) == false
    ensures IsReference(Some(Cons(h, v, d))) <==> h.Some?
    ensures !IsReference(None)
  {
  }
}
