/**
 * Values shared by the row loaders: the opaque row keys a search returns, the
 * enriched row records the node-info provider returns, and the outcome of one
 * batched provider call.
 */
module Nodes {

  datatype Option<+T> = None | Some(value: T)

  /** An opaque row key (the engine's slab index of a matched node). */
  type Key = int

  /**
   * An icon value. `None` stands for JavaScript's `null` and `undefined`;
   * `Some(url)` is a string, possibly the empty (falsy) one.
   */
  type Icon = Option<string>

  /** JavaScript truthiness of an icon value: a non-empty string. */
  predicate IsTruthy(icon: Icon) {
    icon.Some? && icon.value != ""
  }

  /**
   * One cached row record: the provider's attributes (path, size, times, ...)
   * and the icon field, which may be patched in separately.
   * `Row(map[], icon)` is the icon-only record `{ icon }`.
   */
  datatype Row = Row(attrs: map<string, string>, icon: Icon)

  /** The outcome of one batched `get_nodes_info` call; an entry `None` is a falsy record. */
  datatype FetchOutcome = Fetched(records: seq<Option<Row>>) | Failed

  function Min(a: int, b: int): int { if a < b then a else b }
  function Max(a: int, b: int): int { if a < b then b else a }

  /** Strictly increasing: the order in which the loaders collect row positions. */
  ghost predicate Ascending(s: seq<int>) {
    forall i, j :: 0 <= i < j < |s| ==> s[i] < s[j]
  }

  /** `xs[i]` in JavaScript: `undefined` (here `None`) outside the array. */
  function At<T>(xs: seq<Option<T>>, i: int): (r: Option<T>)
    ensures 0 <= i < |xs| ==> r == xs[i]
    ensures !(0 <= i < |xs|) ==> r == None
  {
    if 0 <= i < |xs| then xs[i] else None
  }

  /** Where `Array.prototype.slice` puts a bound: negative counts from the end, clamped to [0, length]. */
  function SliceBound(length: nat, b: int): (r: nat)
    ensures r <= length
    ensures 0 <= b <= length ==> r == b
  {
    if b < 0 then (if length + b < 0 then 0 else length + b)
    else if b < length then b else length
  }

  /** `xs.slice(b, e)`: the elements between the two bounds, or none when they cross. */
  function Slice<T>(xs: seq<T>, b: int, e: int): (r: seq<T>)
    ensures 0 <= b <= e <= |xs| ==> r == xs[b..e]
    ensures SliceBound(|xs|, b) < SliceBound(|xs|, e) ==> r == xs[SliceBound(|xs|, b)..SliceBound(|xs|, e)]
    ensures SliceBound(|xs|, b) >= SliceBound(|xs|, e) ==> r == []
  {
    var from, to := SliceBound(|xs|, b), SliceBound(|xs|, e);
    if from < to then xs[from..to] else []
  }

  /** The characters `String.prototype.trim` strips: white space and line terminators. */
  predicate IsJsWhitespace(c: char) {
    || c == ' ' || c == '\t' || c == '\n' || c == '\r'
    || c == '\U{000B}' || c == '\U{000C}' || c == '\U{00A0}' || c == '\U{FEFF}'
    || c == '\U{1680}' || ('\U{2000}' <= c <= '\U{200A}') || c == '\U{2028}' || c == '\U{2029}'
    || c == '\U{202F}' || c == '\U{205F}' || c == '\U{3000}'
  }

  /** Every character of `s` is white space. */
  predicate AllWhitespace(s: string) {
    forall i :: 0 <= i < |s| ==> IsJsWhitespace(s[i])
  }

  /** The end of the run of white space that starts at position i. */
  function WhitespaceRunEnd(s: string, i: nat): (n: nat)
    requires i <= |s|
    ensures i <= n <= |s|
    ensures forall j :: i <= j < n ==> IsJsWhitespace(s[j])
    ensures n == |s| || !IsJsWhitespace(s[n])
    decreases |s| - i
  {
    if i == |s| || !IsJsWhitespace(s[i]) then i else WhitespaceRunEnd(s, i + 1)
  }

  /** The start of the run of white space that ends just before position e. */
  function WhitespaceRunStart(s: string, e: nat): (m: nat)
    requires e <= |s|
    ensures m <= e
    ensures forall j :: m <= j < e ==> IsJsWhitespace(s[j])
    ensures m == 0 || !IsJsWhitespace(s[m - 1])
  {
    if e == 0 || !IsJsWhitespace(s[e - 1]) then e else WhitespaceRunStart(s, e - 1)
  }

  /** `s` without its leading white space. */
  function TrimStart(s: string): (r: string)
    ensures |r| <= |s| && r == s[|s| - |r|..]
    ensures r == [] || !IsJsWhitespace(r[0])
    ensures AllWhitespace(s[..|s| - |r|])
    ensures r == [] <==> AllWhitespace(s)
  {
    var n := WhitespaceRunEnd(s, 0);
    assert forall j :: 0 <= j < n ==> s[..n][j] == s[j];
    s[n..]
  }

  /** `s` without its trailing white space. */
  function TrimEnd(s: string): (r: string)
    ensures |r| <= |s| && r == s[..|r|]
    ensures r == [] || !IsJsWhitespace(r[|r| - 1])
    ensures AllWhitespace(s[|r|..])
    ensures r == [] <==> AllWhitespace(s)
  {
    var m := WhitespaceRunStart(s, |s|);
    assert forall j :: 0 <= j < |s| - m ==> s[m..][j] == s[m + j];
    s[..m]
  }

  /** `String.prototype.trim`: white space and line terminators cut from both ends. */
  function Trim(s: string): (r: string)
    ensures r == [] || (!IsJsWhitespace(r[0]) && !IsJsWhitespace(r[|r| - 1]))
    ensures r == [] <==> AllWhitespace(s)
  {
    TrimEnd(TrimStart(s))
  }

  /**
   * `trim` removes white space and nothing else: the result is the part of
   * `s` that starts after the leading white space, and all that follows it
   * is white space too.
   */
  lemma TrimCutsOnlyWhitespace(s: string)
    ensures var a, r := |s| - |TrimStart(s)|, Trim(s);
      && a + |r| <= |s| && r == s[a..a + |r|]
      && AllWhitespace(s[..a]) && AllWhitespace(s[a + |r|..])
  {
    var t := TrimStart(s);
    var r := TrimEnd(t);
    var a := |s| - |t|;
    assert r == t[..|r|] && t == s[a..];
    assert s[a..][..|r|] == s[a..a + |r|];
    assert t[|r|..] == s[a + |r|..];
  }

  /** `query.trim() === ''`: the query holds nothing but white space. */
  function IsBlank(query: string): (blank: bool)
    ensures blank <==> forall i :: 0 <= i < |query| ==> IsJsWhitespace(query[i])
  {
    Trim(query) == ""
  }
}
