/**
 * Python's `str.strip()` with no argument: it removes leading and
 * trailing characters for which `str.isspace()` holds. As in CPython, a
 * scan from the left finds the first non-space character, and a scan from
 * the right, which stops there, finds the end of the part kept.
 */
module Text {

  /** The characters `str.isspace()` accepts. */
  predicate IsSpace(c: char) {
    c == '\t' || c == '\n' || c == '\U{000B}' || c == '\U{000C}' || c == '\r'
    || ('\U{001C}' <= c <= '\U{001F}') || c == ' '
    || c == '\U{0085}' || c == '\U{00A0}' || c == '\U{1680}'
    || ('\U{2000}' <= c <= '\U{200A}')
    || c == '\U{2028}' || c == '\U{2029}' || c == '\U{202F}' || c == '\U{205F}' || c == '\U{3000}'
  }

  /** Every character of `s` is white space (true of the empty string). */
  predicate Blank(s: string) {
    forall k :: 0 <= k < |s| ==> IsSpace(s[k])
  }

  /** From position `i`, the position of the first non-space character (`|s|` if none). */
  function LeadFrom(s: string, i: nat): (n: nat)
    requires i <= |s|
    ensures i <= n <= |s|
    ensures forall k :: i <= k < n ==> IsSpace(s[k])
    ensures n == |s| || !IsSpace(s[n])
    decreases |s| - i
  {
    if i < |s| && IsSpace(s[i]) then LeadFrom(s, i + 1) else i
  }

  /** Scanning back from `j`, but not past `lo`: the end of the last non-space character (`lo` if none). */
  function EndFrom(s: string, lo: nat, j: nat): (e: nat)
    requires lo <= j <= |s|
    ensures lo <= e <= j
    ensures forall k :: e <= k < j ==> IsSpace(s[k])
    ensures e == lo || !IsSpace(s[e - 1])
  {
    if j > lo && IsSpace(s[j - 1]) then EndFrom(s, lo, j - 1) else j
  }

  /** The number of white-space characters `s` starts with. */
  function Lead(s: string): nat
    ensures Lead(s) <= |s|
  {
    LeadFrom(s, 0)
  }

  /**
   * `str.strip()`: the part of `s` after its `Lead(s)` leading white-space
   * characters and before its trailing white space; it starts and ends
   * with a non-space character, and is empty exactly when `s` is blank.
   */
  function Strip(s: string): (r: string)
    ensures Lead(s) + |r| <= |s| && r == s[Lead(s)..Lead(s) + |r|]
    ensures forall k :: 0 <= k < Lead(s) ==> IsSpace(s[k])
    ensures forall k :: Lead(s) + |r| <= k < |s| ==> IsSpace(s[k])
    ensures |r| == 0 <==> Blank(s)
    ensures |r| == 0 || (!IsSpace(r[0]) && !IsSpace(r[|r| - 1]))
  {
    var i := LeadFrom(s, 0);
    s[i..EndFrom(s, i, |s|)]
  }

  /** The scan from the left stops at the only position preceded by spaces alone and followed by a non-space. */
  lemma LeadFromUnique(s: string, i: nat, n: nat)
    requires i <= n <= |s|
    requires forall k :: i <= k < n ==> IsSpace(s[k])
    requires n == |s| || !IsSpace(s[n])
    ensures LeadFrom(s, i) == n
  {
  }

  /** The scan from the right stops at the only position followed by spaces alone and preceded by a non-space. */
  lemma EndFromUnique(s: string, lo: nat, j: nat, e: nat)
    requires lo <= e <= j <= |s|
    requires forall k :: e <= k < j ==> IsSpace(s[k])
    requires e == lo || !IsSpace(s[e - 1])
    ensures EndFrom(s, lo, j) == e
  {
  }

  /**
   * The converse of `Strip`'s contract: a string with no surrounding white
   * space, padded with white space on both sides, strips back to itself.
   */
  lemma StripSurrounded(a: string, m: string, b: string)
    requires Blank(a) && Blank(b)
    requires |m| > 0 && !IsSpace(m[0]) && !IsSpace(m[|m| - 1])
    ensures Strip(a + m + b) == m
  {
    var s := a + m + b;
    assert forall k :: 0 <= k < |a| ==> s[k] == a[k];
    assert s[|a|] == m[0];
    LeadFromUnique(s, 0, |a|);
    assert forall k :: |a| + |m| <= k < |s| ==> s[k] == b[k - |a| - |m|];
    assert s[|a| + |m| - 1] == m[|m| - 1];
    EndFromUnique(s, |a|, |s|, |a| + |m|);
    assert s[|a|..|a| + |m|] == m;
  }

  /** A string strips to the single non-space character `c` exactly when `c` is surrounded by white space only. */
  lemma StripToChar(s: string, c: char)
    requires !IsSpace(c)
    ensures Strip(s) == [c] <==>
      exists i :: 0 <= i < |s| && s[i] == c && Blank(s[..i]) && Blank(s[i + 1..])
  {
    if Strip(s) == [c] {
      StripToCharFound(s, c);
    }
    if i :| 0 <= i < |s| && s[i] == c && Blank(s[..i]) && Blank(s[i + 1..]) {
      AroundIndex(s, i);
      StripSurrounded(s[..i], [c], s[i + 1..]);
    }
  }

  /** Where `s` strips to one character, that character has only white space around it. */
  lemma StripToCharFound(s: string, c: char)
    requires Strip(s) == [c]
    ensures var i := Lead(s); i < |s| && s[i] == c && Blank(s[..i]) && Blank(s[i + 1..])
  {
    var i := Lead(s);
    assert s[i] == s[i..i + 1][0];
    forall k | 0 <= k < i ensures IsSpace(s[..i][k]) {
      assert s[..i][k] == s[k];
    }
    var after := s[i + 1..];
    forall k | 0 <= k < |after| ensures IsSpace(after[k]) {
      assert after[k] == s[i + 1 + k];
    }
  }

  /** `s` is the slice before position `i`, the element at `i`, and the slice after it. */
  lemma AroundIndex<T>(s: seq<T>, i: int)
    requires 0 <= i < |s|
    ensures s == s[..i] + [s[i]] + s[i + 1..]
  {
  }

  /** Stripping twice is stripping once. */
  lemma StripIdempotent(s: string)
    ensures Strip(Strip(s)) == Strip(s)
  {
    var r := Strip(s);
    if |r| > 0 {
      StripUnchanged(r);
    }
  }

  /** A string that starts and ends with a non-space character is left as it is. */
  lemma StripUnchanged(s: string)
    requires |s| > 0 && !IsSpace(s[0]) && !IsSpace(s[|s| - 1])
    ensures Strip(s) == s
  {
    assert [] + s + [] == s;
    StripSurrounded([], s, []);
  }
}
