/** The Python string built-ins the assistant relies on: str.isspace, str.strip and str.lower. */
module Text {

  /** Python's str.isspace on one character; these are exactly the characters that
      str.strip() without arguments removes. */
  predicate IsSpace(c: char)
  {
    var n := c as int;
    || (0x09 <= n <= 0x0D) || (0x1C <= n <= 0x20) || n == 0x85 || n == 0xA0 || n == 0x1680
    || (0x2000 <= n <= 0x200A) || n == 0x2028 || n == 0x2029 || n == 0x202F || n == 0x205F
    || n == 0x3000
  }

  predicate AllSpace(s: string)
  {
    forall i :: 0 <= i < |s| ==> IsSpace(s[i])
  }

  /** The first scan of str.strip(): from i, the first position that is not whitespace
      (or |s| when there is none). */
  function SkipSpace(s: string, i: nat): (n: nat)
    requires i <= |s|
    decreases |s| - i
    ensures i <= n <= |s|
    ensures forall k :: i <= k < n ==> IsSpace(s[k])
    ensures n < |s| ==> !IsSpace(s[n])
  {
    if i < |s| && IsSpace(s[i]) then SkipSpace(s, i + 1) else i
  }

  /** The second scan of str.strip(): from j down to lo, the end of the text once the
      trailing whitespace is gone. */
  function SkipSpaceBack(s: string, lo: nat, j: nat): (n: nat)
    requires lo <= j <= |s|
    decreases j
    ensures lo <= n <= j
    ensures forall k :: n <= k < j ==> IsSpace(s[k])
    ensures lo < n ==> !IsSpace(s[n - 1])
  {
    if lo < j && IsSpace(s[j - 1]) then SkipSpaceBack(s, lo, j - 1) else j
  }

  /** How many whitespace characters str.strip() removes at the front of s. */
  function LeadingSpace(s: string): nat
  {
    SkipSpace(s, 0)
  }

  /** str.strip(): the slice of s between its leading and its trailing whitespace. */
  function Strip(s: string): (r: string)
    ensures LeadingSpace(s) + |r| <= |s|
    ensures r == s[LeadingSpace(s)..LeadingSpace(s) + |r|]
    ensures forall k :: 0 <= k < LeadingSpace(s) ==> IsSpace(s[k])
    ensures forall k :: LeadingSpace(s) + |r| <= k < |s| ==> IsSpace(s[k])
    ensures r == [] || (!IsSpace(r[0]) && !IsSpace(r[|r| - 1]))
    ensures r == [] <==> AllSpace(s)
  {
    var a := SkipSpace(s, 0);
    var b := SkipSpaceBack(s, a, |s|);
    assert a < |s| ==> a < b;
    s[a..b]
  }

  /** Text that neither starts nor ends with whitespace is what str.strip() leaves of it with
      whitespace appended. */
  lemma {:induction false} StripTrailing(t: string, w: string)
    requires t == [] || (!IsSpace(t[0]) && !IsSpace(t[|t| - 1]))
    requires AllSpace(w)
    ensures Strip(t + w) == t
  {
    var s := t + w;
    var r := Strip(s);
    if t == [] {
      assert s == w;
    } else {
      assert s[0] == t[0];
      assert LeadingSpace(s) == 0;
      assert r == s[..|t|];
      assert s[..|t|] == t;
    }
  }

  /** str.lower() on one character, for the ASCII letters. */
  function LowerChar(c: char): char
  {
    if 'A' <= c <= 'Z' then (c as int + 32) as char else c
  }

  /** str.lower(), for the ASCII letters. */
  function Lower(s: string): string
  {
    seq(|s|, i requires 0 <= i < |s| => LowerChar(s[i]))
  }
}
