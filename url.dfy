/** URL helpers. `resolveUrl` comes from a browser URL resolver that is not part of this
    model; `Resolve` below is a simplified RFC 3986 section 5.2 resolution (no dot-segment
    removal, no query handling) that keeps the behaviour the engine relies on: absolute
    references are returned as they are, an empty reference gives the base without its
    fragment, and a fragment-only reference replaces the base's fragment. `GetScheme` is
    the engine's own scheme test from lib/schema.js. */
module Url {
  import opened Common

  predicate StartsWith(s: string, prefix: string) {
    |prefix| <= |s| && s[..|prefix|] == prefix
  }

  predicate EndsWith(s: string, suffix: string) {
    |suffix| <= |s| && s[|s| - |suffix|..] == suffix
  }

  predicate IsLineTerminator(c: char) {
    c == '\n' || c == '\r' || c == '\U{2028}' || c == '\U{2029}'
  }

  /** `"://"` occurs at `i`, and `.+` can match everything before it. */
  predicate SchemeSeparatorAt(url: string, i: int) {
    1 <= i && i + 3 <= |url| && url[i..i + 3] == "://"
    && forall k :: 0 <= k < i ==> !IsLineTerminator(url[k])
  }

  /** The greedy match of `^(.+):\/\/`: the last usable separator at or before `i`, or 0. */
  function LastSeparator(url: string, i: int): (j: int)
    decreases i
    ensures j == 0 || (1 <= j <= i && SchemeSeparatorAt(url, j))
    ensures forall k :: j < k <= i ==> !SchemeSeparatorAt(url, k)
  {
    if i < 1 then 0
    else if SchemeSeparatorAt(url, i) then i
    else LastSeparator(url, i - 1)
  }

  /** `getScheme`: everything before the LAST `://` (the pattern is greedy), or "" when
      the URL has no `://` after its first character. */
  function GetScheme(url: string): (r: string)
    ensures r != "" ==> StartsWith(url, r + "://")
    ensures r == "" <==> forall k :: !SchemeSeparatorAt(url, k)
    ensures r != "" ==> forall k :: |r| < k ==> !SchemeSeparatorAt(url, k)
  {
    var j := LastSeparator(url, |url| - 3);
    assert forall k :: |url| - 3 < k ==> !SchemeSeparatorAt(url, k);
    if j >= 1 then
      assert url[..j + 3] == url[..j] + "://";
      url[..j]
    else ""
  }

  predicate IsAlpha(c: char) {
    ('a' <= c <= 'z') || ('A' <= c <= 'Z')
  }

  predicate IsSchemeChar(c: char) {
    IsAlpha(c) || ('0' <= c <= '9') || c == '+' || c == '-' || c == '.'
  }

  /** The reference starts with `scheme ":"` (section 3.1 of RFC 3986). */
  predicate HasScheme(s: string) {
    exists i :: 1 <= i < |s| && s[i] == ':' && IsAlpha(s[0])
      && forall k :: 1 <= k < i ==> IsSchemeChar(s[k])
  }

  /** Length of the leading scheme name, when there is one. */
  function SchemeLength(s: string): (n: nat)
    ensures n <= |s|
    ensures HasScheme(s) ==> 1 <= n < |s| && s[n] == ':'
  {
    SchemeLengthFrom(s, 1)
  }

  function SchemeLengthFrom(s: string, i: nat): (n: nat)
    requires i >= 1
    requires forall k :: 1 <= k < i && k < |s| ==> IsSchemeChar(s[k])
    decreases |s| - i
    ensures n <= |s|
    ensures (exists j :: i <= j < |s| && s[j] == ':' && IsAlpha(s[0])
              && forall k :: 1 <= k < j ==> IsSchemeChar(s[k])) ==> i <= n < |s| && s[n] == ':'
  {
    if i >= |s| || !IsAlpha(s[0]) then 0
    else if s[i] == ':' then i
    else if IsSchemeChar(s[i]) then SchemeLengthFrom(s, i + 1)
    else 0
  }

  /** Index just past the authority of `b`, which starts at `from`. */
  function AuthorityEnd(b: string, from: nat): (n: nat)
    requires from <= |b|
    decreases |b| - from
    ensures from <= n <= |b|
  {
    if from == |b| || b[from] == '/' || b[from] == '?' then from
    else AuthorityEnd(b, from + 1)
  }

  /** `scheme://authority` of a fragment-free base, or its `scheme:`, or "" for a relative base. */
  function Origin(b: string): (o: string)
    ensures StartsWith(b, o)
  {
    if !HasScheme(b) then ""
    else
      var c := SchemeLength(b);
      if StartsWith(b[c + 1..], "//") then b[..AuthorityEnd(b, c + 3)]
      else b[..c + 1]
  }

  /** Index just past the last `/` of `b`, or 0. */
  function AfterLastSlash(b: string): (n: nat)
    ensures n <= |b|
    ensures n > 0 ==> b[n - 1] == '/'
  {
    if b == [] then 0
    else if b[|b| - 1] == '/' then |b|
    else AfterLastSlash(b[..|b| - 1])
  }

  /** The base part a relative-path reference is appended to (section 5.2.3 of RFC 3986). */
  function MergeBase(b: string): string {
    var o := Origin(b);
    if HasScheme(b) && |o| == |b| && StartsWith(b[SchemeLength(b) + 1..], "//") then o + "/"
    else b[..AfterLastSlash(b)]
  }

  /** `resolveUrl(base, ref)`, simplified as described above. */
  function Resolve(base: string, ref: string): string {
    if HasScheme(ref) then ref
    else
      var b := StripFragment(base);
      if ref == "" then b
      else if ref[0] == '#' then b + ref
      else if StartsWith(ref, "//") then b[..SchemeLength(b) + (if HasScheme(b) then 1 else 0)] + ref
      else if ref[0] == '/' then Origin(b) + ref
      else MergeBase(b) + ref
  }

  /** A fragment-only reference stays in the base's resource and carries its fragment:
      splitting the result gives back the base's fragment-free part and the new fragment. */
  lemma ResolveFragmentOnly(base: string, fragment: string)
    ensures SplitUrl(Resolve(base, "#" + fragment)) == (StripFragment(base), fragment)
  {
    var ref := "#" + fragment;
    assert ref[0] == '#' && !IsAlpha(ref[0]);
    assert Resolve(base, ref) == StripFragment(base) + "#" + fragment;
    SplitJoin(StripFragment(base), fragment);
  }

  /** The empty reference denotes the base itself, without its fragment. */
  lemma ResolveEmpty(base: string)
    ensures Resolve(base, "") == StripFragment(base)
    ensures '#' !in base ==> Resolve(base, "") == base
  {
    assert !HasScheme("");
  }

  /** A separator of a prefix is a separator of the whole string. */
  lemma SeparatorOfPrefix(a: string, b: string, k: int)
    requires SchemeSeparatorAt(a, k)
    ensures SchemeSeparatorAt(a + b, k)
  {
    assert (a + b)[k..k + 3] == a[k..k + 3];
  }

  /** Appending a fragment to a fragment-free URL cannot turn it into a `file` URL: when
      the extended URL has scheme `file`, so does the URL itself. */
  lemma SchemeOfFragmentExtension(id: string, fragment: string)
    requires '#' !in id
    requires GetScheme(id + "#" + fragment) == "file"
    ensures GetScheme(id) == "file"
  {
    var r := id + "#" + fragment;
    assert StartsWith(r, "file://");
    assert r[|id|] == '#';
    assert |id| >= 7;
    assert id[..7] == r[..7];
    assert SchemeSeparatorAt(id, 4) by {
      assert id[4..7] == r[4..7];
      forall k | 0 <= k < 4 ensures !IsLineTerminator(id[k]) { assert id[k] == "file"[k]; }
    }
    var j := LastSeparator(id, |id| - 3);
    assert j >= 4;
    assert id + ("#" + fragment) == r;
    if j > 4 {
      SeparatorOfPrefix(id, "#" + fragment, j);
    }
    assert id[..4] == "file";
  }
}
