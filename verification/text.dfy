/**
 * String helpers shared by the server and the cart: prefix tests, the
 * whitespace stripping of Python's str.strip() and JavaScript's
 * String.prototype.trim(), str.partition and str.split on one character.
 */
module Text {

  predicate StartsWith(s: string, prefix: string) {
    |prefix| <= |s| && s[..|prefix|] == prefix
  }

  /** The characters for which Python's str.isspace() holds: what str.strip() removes. */
  predicate PyWhitespace(c: char) {
    var n := c as int;
    9 <= n <= 13 || 0x1c <= n <= 0x20 || n == 0x85 || n == 0xa0 || n == 0x1680
    || 0x2000 <= n <= 0x200a || n == 0x2028 || n == 0x2029 || n == 0x202f
    || n == 0x205f || n == 0x3000
  }

  /** JavaScript's WhiteSpace and LineTerminator characters: what String.prototype.trim() removes. */
  predicate JsWhitespace(c: char) {
    var n := c as int;
    9 <= n <= 13 || n == 0x20 || n == 0xa0 || n == 0x1680
    || 0x2000 <= n <= 0x200a || n == 0x2028 || n == 0x2029 || n == 0x202f
    || n == 0x205f || n == 0x3000 || n == 0xfeff
  }

  /** The first index at or after i whose character is not whitespace (|s| if none). */
  function SkipLeading(s: string, ws: char -> bool, i: nat): (j: nat)
    requires i <= |s|
    ensures i <= j <= |s|
    ensures forall k :: i <= k < j ==> ws(s[k])
    ensures j < |s| ==> !ws(s[j])
    decreases |s| - i
  {
    if i == |s| || !ws(s[i]) then i else SkipLeading(s, ws, i + 1)
  }

  /** The smallest m in [lo, j] such that s[m..j] is all whitespace. */
  function SkipTrailing(s: string, ws: char -> bool, lo: nat, j: nat): (m: nat)
    requires lo <= j <= |s|
    ensures lo <= m <= j
    ensures forall k :: m <= k < j ==> ws(s[k])
    ensures lo < m ==> !ws(s[m - 1])
    decreases j - lo
  {
    if j == lo || !ws(s[j - 1]) then j else SkipTrailing(s, ws, lo, j - 1)
  }

  /**
   * s without its leading and trailing whitespace. The result is the slice
   * of s that starts at its first non-whitespace character and has only
   * whitespace after it; it is empty exactly when s
   * is all whitespace, and otherwise it starts and ends with a
   * non-whitespace character.
   */
  function Strip(s: string, ws: char -> bool): (r: string)
    ensures |r| <= |s|
    ensures r == [] <==> forall k :: 0 <= k < |s| ==> ws(s[k])
    ensures r != [] ==> !ws(r[0]) && !ws(r[|r| - 1])
    ensures var i := SkipLeading(s, ws, 0);
            i + |r| <= |s| && r == s[i..i + |r|] && forall k :: i + |r| <= k < |s| ==> ws(s[k])
  {
    var i := SkipLeading(s, ws, 0);
    var j := SkipTrailing(s, ws, i, |s|);
    s[i..j]
  }

  /** Text that neither starts nor ends with whitespace is left as it is. */
  lemma StripTrimmed(s: string, ws: char -> bool)
    requires s != [] ==> !ws(s[0]) && !ws(s[|s| - 1])
    ensures Strip(s, ws) == s
  {
    if s != [] {
      assert SkipLeading(s, ws, 0) == 0;
      assert SkipTrailing(s, ws, 0, |s|) == |s|;
      assert s[0..|s|] == s;
    }
  }

  /** Stripping twice is stripping once. */
  lemma StripIdempotent(s: string, ws: char -> bool)
    ensures Strip(Strip(s, ws), ws) == Strip(s, ws)
  {
    StripTrimmed(Strip(s, ws), ws);
  }

  /**
   * str.partition(sep): the text before the first sep, whether sep occurs,
   * and the text after it (everything, further seps included).
   */
  function Partition(s: string, sep: char): (p: (string, bool, string))
    ensures sep !in p.0
    ensures p.1 ==> s == p.0 + [sep] + p.2
    ensures !p.1 ==> s == p.0 && p.2 == []
  {
    if s == [] then ([], false, [])
    else if s[0] == sep then ([], true, s[1..])
    else
      var q := Partition(s[1..], sep);
      ([s[0]] + q.0, q.1, q.2)
  }

  /** The parts joined with sep between consecutive ones. */
  function Join(parts: seq<string>, sep: string): string {
    if parts == [] then []
    else if |parts| == 1 then parts[0]
    else parts[0] + sep + Join(parts[1..], sep)
  }

  /**
   * str.split(sep) for a one-character sep: at least one part, no part
   * contains sep, and joining the parts with sep gives s back.
   */
  function Split(s: string, sep: char): (parts: seq<string>)
    ensures |parts| >= 1
    ensures forall k :: 0 <= k < |parts| ==> sep !in parts[k]
    ensures Join(parts, [sep]) == s
  {
    if s == [] then [[]]
    else
      var rest := Split(s[1..], sep);
      if s[0] == sep then
        [[]] + rest
      else
        assert s == [s[0]] + s[1..];
        [[s[0]] + rest[0]] + rest[1..]
  }
}
