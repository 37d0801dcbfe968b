/**
 * The Python string operations the crawler's decisions rest on: `s.lower() == t`,
 * `t in s`, `s.endswith(t)` and `s.strip()`.
 */
module Text {

  /** Python's `str.isspace()`: the characters `str.strip()` removes. */
  predicate IsSpace(c: char) {
    var n := c as int;
    n == 0x20 || 0x09 <= n <= 0x0D || 0x1C <= n <= 0x1F || n == 0x85 || n == 0xA0
    || n == 0x1680 || 0x2000 <= n <= 0x200A || n == 0x2028 || n == 0x2029
    || n == 0x202F || n == 0x205F || n == 0x3000
  }

  /** ASCII upper case to lower case; every other character is kept. */
  function LowerChar(c: char): (d: char) {
    if 'A' <= c <= 'Z' then (c as int + 32) as char else c
  }

  function Lower(s: string): (r: string) {
    seq(|s|, i requires 0 <= i < |s| => LowerChar(s[i]))
  }

  /** `s.lower() == "miss"`, the test that drives cache warming. */
  predicate IsMiss(s: string) {
    Lower(s) == "miss"
  }

  /** The case-insensitive test accepts exactly the sixteen spellings of "miss". */
  lemma IsMissSpellings(s: string)
    ensures IsMiss(s) <==>
      (|s| == 4 && s[0] in "mM" && s[1] in "iI" && s[2] in "sS" && s[3] in "sS")
  {
    if IsMiss(s) {
      assert Lower(s)[0] == 'm' && Lower(s)[1] == 'i' && Lower(s)[2] == 's' && Lower(s)[3] == 's';
    }
    if |s| == 4 && s[0] in "mM" && s[1] in "iI" && s[2] in "sS" && s[3] in "sS" {
      assert Lower(s) == "miss";
    }
  }

  /** `sub` occurs in `s` starting at index `i`. */
  predicate OccursAt(s: string, sub: string, i: int) {
    0 <= i && i + |sub| <= |s| && s[i..i + |sub|] == sub
  }

  /** An occurrence in `s[1..]` is an occurrence in `s` one place further on, and conversely. */
  lemma OccursInTail(s: string, sub: string)
    requires |s| > 0
    ensures forall j :: OccursAt(s[1..], sub, j) ==> OccursAt(s, sub, j + 1)
    ensures forall i :: i >= 1 && OccursAt(s, sub, i) ==> OccursAt(s[1..], sub, i - 1)
  {
    forall j | OccursAt(s[1..], sub, j) ensures OccursAt(s, sub, j + 1) {
      assert s[1..][j..j + |sub|] == s[j + 1..j + 1 + |sub|];
    }
    forall i | i >= 1 && OccursAt(s, sub, i) ensures OccursAt(s[1..], sub, i - 1) {
      assert s[1..][i - 1..i - 1 + |sub|] == s[i..i + |sub|];
    }
  }

  /** Python's `sub in s`. */
  function Contains(s: string, sub: string): (b: bool)
    ensures b <==> exists i :: OccursAt(s, sub, i)
    decreases |s|
  {
    if |s| < |sub| then
      assert forall i :: !OccursAt(s, sub, i);
      false
    else if s[..|sub|] == sub then
      assert OccursAt(s, sub, 0);
      true
    else
      OccursInTail(s, sub);
      assert !OccursAt(s, sub, 0);
      Contains(s[1..], sub)
  }

  /** Python's `s.endswith(suffix)`. */
  predicate EndsWith(s: string, suffix: string)
  {
    |suffix| <= |s| && s[|s| - |suffix|..] == suffix
  }

  /** `s.endswith(suffix)` holds exactly when `s` is some string followed by `suffix`. */
  lemma EndsWithSpec(s: string, suffix: string)
    ensures EndsWith(s, suffix) <==> exists p :: p + suffix == s
  {
    if EndsWith(s, suffix) {
      assert s[..|s| - |suffix|] + suffix == s;
    }
    forall p | p + suffix == s ensures EndsWith(s, suffix) {
      assert s[|p|..] == suffix;
    }
  }

  /** The number of white-space characters `s` starts with. */
  function LeadingSpaces(s: string): (n: nat)
    ensures n <= |s|
    ensures forall i :: 0 <= i < n ==> IsSpace(s[i])
    ensures n < |s| ==> !IsSpace(s[n])
    decreases |s|
  {
    if s != [] && IsSpace(s[0]) then 1 + LeadingSpaces(s[1..]) else 0
  }

  /** The number of white-space characters `s` ends with. */
  function TrailingSpaces(s: string): (n: nat)
    ensures n <= |s|
    ensures forall i :: |s| - n <= i < |s| ==> IsSpace(s[i])
    ensures n < |s| ==> !IsSpace(s[|s| - 1 - n])
    decreases |s|
  {
    if s != [] && IsSpace(s[|s| - 1]) then 1 + TrailingSpaces(s[..|s| - 1]) else 0
  }

  /**
   * `r` is what stripping `s` leaves when `r` starts at index `lo` of `s`: everything
   * around it is white space and `r` neither starts nor ends with white space.
   */
  predicate StrippedAt(s: string, r: string, lo: int) {
    && 0 <= lo && lo + |r| <= |s| && s[lo..lo + |r|] == r
    && (forall i :: 0 <= i < lo ==> IsSpace(s[i]))
    && (forall i :: lo + |r| <= i < |s| ==> IsSpace(s[i]))
    && (r != [] ==> !IsSpace(r[0]) && !IsSpace(r[|r| - 1]))
  }

  /** Python's `s.strip()`: what is left never starts or ends with white space. */
  function Strip(s: string): (r: string)
    ensures |r| <= |s|
    ensures r != [] ==> !IsSpace(r[0]) && !IsSpace(r[|r| - 1])
  {
    var rest := s[LeadingSpaces(s)..];
    rest[..|rest| - TrailingSpaces(rest)]
  }

  /** Stripping removes exactly the white space around the text, and nothing inside it. */
  lemma StripSpec(s: string)
    ensures StrippedAt(s, Strip(s), LeadingSpaces(s))
  {
    var lo := LeadingSpaces(s);
    var rest := s[lo..];
    var t := TrailingSpaces(rest);
    var r := rest[..|rest| - t];
    assert r == Strip(s);
    assert s[lo..lo + |r|] == r;
    forall i | lo + |r| <= i < |s| ensures IsSpace(s[i]) {
      assert s[i] == rest[i - lo];
    }
  }

  /** There is only one way to strip a string, so `StrippedAt` pins `Strip` down. */
  lemma StrippedUnique(s: string, r1: string, lo1: int, r2: string, lo2: int)
    requires StrippedAt(s, r1, lo1) && StrippedAt(s, r2, lo2)
    ensures r1 == r2
  {
    if r1 != [] && r2 != [] {
      assert s[lo1] == r1[0] && s[lo2] == r2[0];
      assert lo1 == lo2;
      assert s[lo1 + |r1| - 1] == r1[|r1| - 1] && s[lo2 + |r2| - 1] == r2[|r2| - 1];
      assert |r1| == |r2|;
    }
  }

  /** Stripping a string that neither starts nor ends with white space leaves it unchanged. */
  lemma StripTrimmed(s: string)
    requires s != [] ==> !IsSpace(s[0]) && !IsSpace(s[|s| - 1])
    ensures Strip(s) == s
  {
    StripSpec(s);
    assert StrippedAt(s, s, 0);
    StrippedUnique(s, Strip(s), LeadingSpaces(s), s, 0);
  }

  /** Stripping twice is stripping once. */
  lemma StripIdempotent(s: string)
    ensures Strip(Strip(s)) == Strip(s)
  {
    StripTrimmed(Strip(s));
  }
}
