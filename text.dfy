/**
 * String helpers with the meaning Python gives them in the server and the
 * configuration manager: truthiness of a string, the `in` operator on strings,
 * `", ".join`, slices that clamp at the ends, and `str.upper` / `str.lower`
 * restricted to ASCII letters.
 */
module Text {

  /** Python truthiness of a string: absent, `None` and `""` are all falsy. */
  predicate HasText(s: string)
  {
    s != ""
  }

  predicate IsPrefix(p: string, s: string)
  {
    |p| <= |s| && s[..|p|] == p
  }

  /** `pat` occurs in `text` starting at index `i`. */
  ghost predicate OccursAt(text: string, pat: string, i: int)
  {
    0 <= i && i + |pat| <= |text| && text[i..i + |pat|] == pat
  }

  /** Python's `pat in text` on strings. */
  function Contains(text: string, pat: string): (r: bool)
    ensures r <==> exists i :: OccursAt(text, pat, i)
    decreases |text|
  {
    if |text| < |pat| then
      false
    else if text[..|pat|] == pat then
      assert OccursAt(text, pat, 0);
      true
    else
      var r := Contains(text[1..], pat);
      ShiftOccurrence(text, pat);
      r
  }

  /** An occurrence in `text[1..]` is an occurrence in `text` one place later, and back. */
  lemma ShiftOccurrence(text: string, pat: string)
    requires |text| >= |pat| && text[..|pat|] != pat
    ensures (exists i :: OccursAt(text[1..], pat, i)) <==> (exists i :: OccursAt(text, pat, i))
  {
    if exists i :: OccursAt(text[1..], pat, i) {
      var i :| OccursAt(text[1..], pat, i);
      assert text[1..][i..i + |pat|] == text[i + 1..i + 1 + |pat|];
      assert OccursAt(text, pat, i + 1);
    }
    if exists i :: OccursAt(text, pat, i) {
      var i :| OccursAt(text, pat, i);
      assert i != 0;
      assert text[1..][i - 1..i - 1 + |pat|] == text[i..i + |pat|];
      assert OccursAt(text[1..], pat, i - 1);
    }
  }

  /** Extending a string never removes an occurrence. */
  lemma ContainsExtended(text: string, more: string, pat: string)
    requires Contains(text, pat)
    ensures Contains(text + more, pat)
  {
    var i :| OccursAt(text, pat, i);
    assert (text + more)[i..i + |pat|] == text[i..i + |pat|];
    assert OccursAt(text + more, pat, i);
  }

  /** A pattern in a text still occurs once something is put in front of it. */
  lemma ContainsPrefixed(before: string, text: string, pat: string)
    requires Contains(text, pat)
    ensures Contains(before + text, pat)
  {
    var i :| OccursAt(text, pat, i);
    assert (before + text)[|before| + i..|before| + i + |pat|] == text[i..i + |pat|];
    assert OccursAt(before + text, pat, |before| + i);
  }

  /** A string that has `pat` put in it after `before` contains `pat`. */
  lemma ContainsInserted(before: string, pat: string, after: string)
    ensures Contains(before + pat + after, pat)
  {
    var s := before + pat + after;
    assert s[|before|..|before| + |pat|] == pat;
    assert OccursAt(s, pat, |before|);
  }

  /** Python's `", ".join(items)`. */
  function Join(items: seq<string>, sep: string): string
  {
    if |items| == 0 then ""
    else if |items| == 1 then items[0]
    else items[0] + sep + Join(items[1..], sep)
  }

  /** Python's `s[:n]` for `n >= 0`: the whole string when it is shorter. */
  function Head(s: string, n: nat): (r: string)
    ensures |r| == if |s| < n then |s| else n
    ensures IsPrefix(r, s)
  {
    if |s| <= n then s else s[..n]
  }

  /** Python's `s[-n:]` for `n > 0`: the whole string when it is shorter. */
  function Tail(s: string, n: nat): (r: string)
    requires n > 0
    ensures |r| == if |s| < n then |s| else n
    ensures r == s[|s| - |r|..]
  {
    if |s| <= n then s else s[|s| - n..]
  }

  function UpperChar(c: char): char
  {
    if 'a' <= c <= 'z' then (c as int - 'a' as int + 'A' as int) as char else c
  }

  function LowerChar(c: char): char
  {
    if 'A' <= c <= 'Z' then (c as int - 'A' as int + 'a' as int) as char else c
  }

  /** `s.upper()` on ASCII letters. */
  function Upper(s: string): (r: string)
    ensures |r| == |s|
  {
    if s == [] then [] else [UpperChar(s[0])] + Upper(s[1..])
  }

  /** `s.lower()` on ASCII letters. */
  function Lower(s: string): (r: string)
    ensures |r| == |s|
  {
    if s == [] then [] else [LowerChar(s[0])] + Lower(s[1..])
  }

  /** Lower-casing first does not change the upper-cased form. */
  lemma {:induction false} UpperOfLower(s: string)
    ensures Upper(Lower(s)) == Upper(s)
  {
    if s != [] {
      UpperOfLower(s[1..]);
      assert Lower(s)[1..] == Lower(s[1..]);
    }
  }

  /** Lower-casing is idempotent. */
  lemma {:induction false} LowerIdempotent(s: string)
    ensures Lower(Lower(s)) == Lower(s)
  {
    if s != [] {
      LowerIdempotent(s[1..]);
      assert Lower(s)[1..] == Lower(s[1..]);
    }
  }

  /** Character `k` of `Upper(s)` is the upper-cased character `k` of `s`. */
  lemma {:induction false} UpperAt(s: string, k: nat)
    requires k < |s|
    ensures Upper(s)[k] == UpperChar(s[k])
  {
    if k > 0 {
      UpperAt(s[1..], k - 1);
    }
  }

  /** Character `k` of `Lower(s)` is the lower-cased character `k` of `s`. */
  lemma {:induction false} LowerAt(s: string, k: nat)
    requires k < |s|
    ensures Lower(s)[k] == LowerChar(s[k])
  {
    if k > 0 {
      LowerAt(s[1..], k - 1);
    }
  }

  /** `Upper(s) == t` follows from a character-by-character match. */
  lemma UpperFrom(s: string, t: string)
    requires |s| == |t|
    requires forall k :: 0 <= k < |s| ==> UpperChar(s[k]) == t[k]
    ensures Upper(s) == t
  {
    forall k | 0 <= k < |s| ensures Upper(s)[k] == t[k] {
      UpperAt(s, k);
    }
  }

  lemma PrefixOfConcat(p: string, rest: string)
    ensures IsPrefix(p, p + rest)
  {
    assert (p + rest)[..|p|] == p;
  }

  lemma PrefixExtended(p: string, s: string, t: string)
    requires IsPrefix(p, s)
    ensures IsPrefix(p, s + t)
  {
    assert (s + t)[..|p|] == s[..|p|];
  }

  /** A string that differs from `p` at a position within both does not start with `p`. */
  lemma NotPrefixAt(p: string, s: string, i: nat)
    requires i < |p| && i < |s| && p[i] != s[i]
    ensures !IsPrefix(p, s)
  {
    if |p| <= |s| {
      assert s[..|p|][i] == s[i];
    }
  }
}
