/** JSON Pointers (RFC 6901) as the engine uses them: strings built by appending escaped
    segments, and read back to navigate a JSON tree. The pointer library the engine
    imports is not part of this model; this module gives it the behaviour of section 3
    and section 4 of RFC 6901. */
module JsonPointer {
  import opened Base

  /** Pointer of the whole document. */
  const Nil: string := ""

  /** `~` becomes `~0` and `/` becomes `~1`. */
  function Escape(key: string): (r: string)
    ensures '/' !in r
  {
    if key == [] then []
    else (if key[0] == '~' then "~0" else if key[0] == '/' then "~1" else [key[0]]) + Escape(key[1..])
  }

  /** Inverse of `Escape`: `~1` becomes `/`, then `~0` becomes `~`. */
  function Unescape(s: string): string {
    if s == [] then []
    else if |s| >= 2 && s[0] == '~' && s[1] == '1' then "/" + Unescape(s[2..])
    else if |s| >= 2 && s[0] == '~' && s[1] == '0' then "~" + Unescape(s[2..])
    else [s[0]] + Unescape(s[1..])
  }

  lemma {:induction false} UnescapeEscape(key: string)
    ensures Unescape(Escape(key)) == key
  {
    if key != [] {
      var head := if key[0] == '~' then "~0" else if key[0] == '/' then "~1" else [key[0]];
      assert Escape(key) == head + Escape(key[1..]);
      UnescapeEscape(key[1..]);
      if key[0] == '~' || key[0] == '/' {
        assert (head + Escape(key[1..]))[2..] == Escape(key[1..]);
      } else {
        assert (head + Escape(key[1..]))[1..] == Escape(key[1..]);
      }
    }
  }

  function DigitChar(d: nat): char
    requires d < 10
  {
    ('0' as int + d) as char
  }

  predicate IsDigit(c: char) {
    '0' <= c <= '9'
  }

  /** Decimal text of an array index, without leading zeros. */
  function NatToString(n: nat): (r: string)
    ensures |r| >= 1
    ensures forall i :: 0 <= i < |r| ==> IsDigit(r[i])
    ensures |r| > 1 ==> r[0] != '0'
  {
    if n < 10 then [DigitChar(n)] else NatToString(n / 10) + [DigitChar(n % 10)]
  }

  function DigitsValue(s: string): nat
    requires forall i :: 0 <= i < |s| ==> IsDigit(s[i])
  {
    if s == [] then 0
    else
      assert IsDigit(s[|s| - 1]);
      DigitsValue(s[..|s| - 1]) * 10 + (s[|s| - 1] as int - '0' as int)
  }

  /** An array-index segment: decimal digits without a leading zero. */
  function ParseIndex(s: string): Option<nat> {
    if s != [] && (forall i :: 0 <= i < |s| ==> IsDigit(s[i])) && (|s| == 1 || s[0] != '0')
    then Some(DigitsValue(s))
    else None
  }

  lemma {:induction false} NatToStringValue(n: nat)
    ensures DigitsValue(NatToString(n)) == n
  {
    if n >= 10 {
      var r := NatToString(n);
      assert r[..|r| - 1] == NatToString(n / 10);
      NatToStringValue(n / 10);
    }
  }

  /** The index text of an array item reads back as that index. */
  lemma NatToStringRoundTrip(n: nat)
    ensures ParseIndex(NatToString(n)) == Some(n)
  {
    NatToStringValue(n);
  }

  /** `JsonPointer.append(key, pointer)` for an object key. */
  function Append(key: string, pointer: string): string {
    pointer + "/" + Escape(key)
  }

  /** `JsonPointer.append(ndx, pointer)` for an array index. */
  function AppendIndex(index: nat, pointer: string): string {
    Append(NatToString(index), pointer)
  }

  /** The `/`-separated pieces of `s`. */
  function Split(s: string): (r: seq<string>)
    ensures |r| >= 1
    decreases |s|
  {
    var n := IndexOf(s, '/');
    if n == |s| then [s] else [s[..n]] + Split(s[n + 1..])
  }

  /** A piece without `/` splits to itself. */
  lemma SplitWhole(s: string)
    requires '/' !in s
    ensures Split(s) == [s]
  {
  }

  /** A leading piece without `/` comes off first. */
  lemma SplitCons(head: string, tail: string)
    requires '/' !in head
    ensures Split(head + "/" + tail) == [head] + Split(tail)
  {
    var s := head + "/" + tail;
    IndexOfPrefix(head, "/" + tail, '/');
    assert head + ("/" + tail) == s;
    assert s[..|head|] == head && s[|head| + 1..] == tail;
  }

  lemma {:induction false} SplitSnoc(a: string, b: string)
    requires '/' !in b
    ensures Split(a + "/" + b) == Split(a) + [b]
  {
    var n := IndexOf(a, '/');
    IndexOfSplits(a, '/');
    if n == |a| {
      assert a[..n] == a;
      SplitWhole(a);
      SplitCons(a, b);
    } else {
      var head, rest := a[..n], a[n + 1..];
      assert a == head + "/" + rest;
      SplitCons(head, rest);
      assert a + "/" + b == head + "/" + (rest + "/" + b);
      SplitCons(head, rest + "/" + b);
      SplitSnoc(rest, b);
    }
  }

  function UnescapeAll(parts: seq<string>): (r: seq<string>)
    ensures |r| == |parts|
  {
    if parts == [] then [] else [Unescape(parts[0])] + UnescapeAll(parts[1..])
  }

  lemma {:induction false} UnescapeAllSnoc(parts: seq<string>, last: string)
    ensures UnescapeAll(parts + [last]) == UnescapeAll(parts) + [Unescape(last)]
  {
    if parts != [] {
      assert (parts + [last])[1..] == parts[1..] + [last];
      UnescapeAllSnoc(parts[1..], last);
    }
  }

  /** The reference tokens of a pointer; `None` for a string that is not a pointer. */
  function Segments(pointer: string): Option<seq<string>> {
    if pointer == "" then Some([])
    else if pointer[0] == '/' then Some(UnescapeAll(Split(pointer[1..])))
    else None
  }

  /** Appending a key adds exactly that key as the last reference token. */
  lemma SegmentsAppend(key: string, pointer: string)
    requires Segments(pointer).Some?
    ensures Segments(Append(key, pointer)) == Some(Segments(pointer).value + [key])
  {
    var e := Escape(key);
    var p := Append(key, pointer);
    UnescapeEscape(key);
    if pointer == "" {
      assert p == "/" + e && p[0] == '/' && p[1..] == e;
      assert IndexOf(e, '/') == |e|;
      assert Split(e) == [e];
      assert UnescapeAll([e]) == [Unescape(e)];
      assert Segments(p) == Some([key]);
      assert Segments(pointer).value + [key] == [key];
    } else {
      assert p[1..] == pointer[1..] + "/" + e;
      SplitSnoc(pointer[1..], e);
      UnescapeAllSnoc(Split(pointer[1..]), e);
    }
  }

  /** One step down: an object's member or an array's item; anything else has no children. */
  function Child(v: Json, segment: string): Option<Json> {
    match v
    case JObj(props) => Lookup(props, segment)
    case JArr(items) =>
      (match ParseIndex(segment)
       case Some(i) => if i < |items| then Some(items[i]) else None
       case None => None)
    case _ => None
  }

  function Navigate(v: Json, segments: seq<string>): Option<Json>
    decreases |segments|
  {
    if segments == [] then Some(v)
    else
      match Navigate(v, segments[..|segments| - 1])
      case Some(parent) => Child(parent, segments[|segments| - 1])
      case None => None
  }

  /** `JsonPointer.get(pointer, tree)`; `None` stands for `undefined`. */
  function Get(pointer: string, tree: Json): Option<Json> {
    match Segments(pointer)
    case Some(segments) => Navigate(tree, segments)
    case None => None
  }

  /** Reading an appended pointer is one `Child` step from reading the original pointer. */
  lemma GetAppend(key: string, pointer: string, tree: Json)
    requires Segments(pointer).Some?
    ensures Get(Append(key, pointer), tree) ==
      (match Get(pointer, tree) case Some(parent) => Child(parent, key) case None => None)
  {
    SegmentsAppend(key, pointer);
    var s := Segments(pointer).value;
    assert (s + [key])[..|s|] == s;
  }

  /** Appending to a pointer only ever appends characters (used for location prefixes). */
  lemma AppendExtends(key: string, pointer: string)
    ensures |pointer| < |Append(key, pointer)| && Append(key, pointer)[..|pointer|] == pointer
  {
  }
}
