/** String operations the collection picker relies on: ECMAScript `trim`,
    lowercasing (ASCII only) and `includes`. Strings are sequences of chars. */
module Text {

  /** ECMAScript WhiteSpace and LineTerminator code points: the characters
      `String.prototype.trim` removes (the Zs category as of Unicode 15). */
  predicate IsTrimmable(c: char) {
    var n := c as int;
    n == 0x09 || n == 0x0A || n == 0x0B || n == 0x0C || n == 0x0D || n == 0x20 ||
    n == 0xA0 || n == 0x1680 || (0x2000 <= n <= 0x200A) ||
    n == 0x2028 || n == 0x2029 || n == 0x202F || n == 0x205F || n == 0x3000 || n == 0xFEFF
  }

  /** A string with no character that `trim` would keep. */
  predicate IsBlank(s: string) {
    forall i :: 0 <= i < |s| ==> IsTrimmable(s[i])
  }

  /** Drops leading white space. */
  function TrimStart(s: string): (r: string)
    ensures |r| <= |s| && r == s[|s| - |r|..]
    ensures r == [] || !IsTrimmable(r[0])
    ensures forall i :: 0 <= i < |s| - |r| ==> IsTrimmable(s[i])
  {
    if |s| > 0 && IsTrimmable(s[0]) then TrimStart(s[1..]) else s
  }

  /** Drops trailing white space. */
  function TrimEnd(s: string): (r: string)
    ensures |r| <= |s| && r == s[..|r|]
    ensures r == [] || !IsTrimmable(r[|r| - 1])
    ensures forall i :: |r| <= i < |s| ==> IsTrimmable(s[i])
  {
    if |s| > 0 && IsTrimmable(s[|s| - 1]) then TrimEnd(s[..|s| - 1]) else s
  }

  /** `r` is `s` with a white-space prefix of length `k` and a white-space
      suffix removed. */
  predicate TrimmedAt(s: string, r: string, k: int) {
    0 <= k <= |s| - |r| && r == s[k..k + |r|] &&
    (forall i :: 0 <= i < k ==> IsTrimmable(s[i])) &&
    (forall i :: k + |r| <= i < |s| ==> IsTrimmable(s[i]))
  }

  /** `s.trim()`: the part of `s` between its leading and trailing white
      space; it is empty exactly when `s` is blank, so `query.trim().length > 0`
      says the query has a character that is not white space. */
  function Trim(s: string): (r: string)
    ensures exists k :: TrimmedAt(s, r, k)
    ensures r == [] || (!IsTrimmable(r[0]) && !IsTrimmable(r[|r| - 1]))
    ensures |r| == 0 <==> IsBlank(s)
  {
    var t := TrimStart(s);
    var r := TrimEnd(t);
    var k := |s| - |t|;
    assert r == s[k..k + |r|];
    assert TrimmedAt(s, r, k);
    if |t| > 0 then
      assert t[0] == s[k];
      r
    else
      r
  }

  /** ASCII lowercasing of one character; every other character is kept. */
  function LowerChar(c: char): char {
    if 'A' <= c <= 'Z' then (c as int + 32) as char else c
  }

  /** `s.toLowerCase()`, restricted to ASCII letters. */
  function Lower(s: string): (r: string)
    ensures |r| == |s|
  {
    seq(|s|, i requires 0 <= i < |s| => LowerChar(s[i]))
  }

  lemma LowerIdempotent(s: string)
    ensures Lower(Lower(s)) == Lower(s)
    ensures forall i :: 0 <= i < |s| ==> !('A' <= Lower(s)[i] <= 'Z')
  {
  }

  /** `q` occurs in `s` starting at position `i`. */
  predicate OccursAt(s: string, q: string, i: int) {
    0 <= i <= |s| - |q| && s[i..i + |q|] == q
  }

  /** `s.includes(q)`: true exactly when `q` occurs in `s` at some position. */
  function Includes(s: string, q: string): (r: bool)
    ensures r <==> exists i :: OccursAt(s, q, i)
    decreases |s|
  {
    if |q| > |s| then false
    else if q <= s then
      assert OccursAt(s, q, 0);
      true
    else
      OccursShift(s, q);
      Includes(s[1..], q)
  }

  /** When `q` does not start `s`, it occurs in `s` exactly when it occurs in
      the tail of `s`. */
  lemma OccursShift(s: string, q: string)
    requires |q| <= |s| && !(q <= s)
    ensures (exists i :: OccursAt(s, q, i)) <==> (exists i :: OccursAt(s[1..], q, i))
  {
    if exists i :: OccursAt(s[1..], q, i) {
      var i :| OccursAt(s[1..], q, i);
      assert s[i + 1..i + 1 + |q|] == s[1..][i..i + |q|];
      assert OccursAt(s, q, i + 1);
    } else {
      assert !OccursAt(s, q, 0);
      forall i | 0 < i <= |s| - |q| ensures !OccursAt(s, q, i) {
        var j := i - 1;
        assert s[1..][j..j + |q|] == s[j + 1..j + 1 + |q|];
        assert !OccursAt(s[1..], q, j);
      }
    }
  }

  /** The empty string occurs in every string. */
  lemma IncludesEmpty(s: string)
    ensures Includes(s, [])
  {
  }

  /** A string that lacks the first character of `q` does not include `q`. */
  lemma {:induction false} LacksFirstChar(s: string, q: string)
    requires |q| > 0 && forall i :: 0 <= i < |s| ==> s[i] != q[0]
    ensures !Includes(s, q)
    decreases |s|
  {
    if |q| <= |s| {
      assert s[0] != q[0];
      LacksFirstChar(s[1..], q);
    }
  }
}
