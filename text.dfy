/**
 * The Python string operations the core relies on: `str.lower`, `rsplit('.', 1)`,
 * `str.strip`, `startswith`, the `in` test on strings and `Path / name`.
 */
module Text {
  import opened Wrappers

  /** `c.lower()` for the ASCII letters; every other character is kept. */
  function LowerChar(c: char): char {
    if 'A' <= c <= 'Z' then (c as int + 32) as char else c
  }

  function Lower(s: string): (r: string)
    ensures |r| == |s|
    ensures forall i :: 0 <= i < |s| ==> r[i] == LowerChar(s[i])
  {
    seq(|s|, i requires 0 <= i < |s| => LowerChar(s[i]))
  }

  /** Index of the last occurrence of `c` in `s`, or -1 when there is none. */
  function LastIndexOf(s: string, c: char): (k: int)
    ensures -1 <= k < |s|
    ensures k >= 0 ==> s[k] == c
    ensures forall j :: k < j < |s| ==> s[j] != c
    decreases |s|
  {
    if |s| == 0 then -1
    else if s[|s| - 1] == c then |s| - 1
    else LastIndexOf(s[..|s| - 1], c)
  }

  /**
   * `s.rsplit(sep, 1)[1]`: the text after the last `sep`. Python raises
   * IndexError when `sep` does not occur; that case is None here.
   */
  function AfterLast(s: string, sep: char): (r: Option<string>)
    ensures r.None? <==> sep !in s
    ensures r.Some? ==>
      exists k :: 0 <= k < |s| && s[k] == sep && sep !in s[k + 1..] && r.value == s[k + 1..]
  {
    var k := LastIndexOf(s, sep);
    if k < 0 then None
    else
      Some(s[k + 1..])
  }

  /** A `sep` with no `sep` after it is the one `LastIndexOf` finds. */
  lemma LastOccurrenceIsLastIndex(s: string, sep: char, k: int)
    requires 0 <= k < |s| && s[k] == sep && sep !in s[k + 1..]
    ensures k == LastIndexOf(s, sep)
  {
    forall j | k < j < |s|
      ensures s[j] != sep
    {
      assert s[j] == s[k + 1..][j - k - 1];
    }
  }

  /** The characters for which Python's `str.isspace` holds. */
  predicate IsSpace(c: char) {
    || c == ' ' || ('\t' <= c <= '\r') || ('\U{1C}' <= c <= '\U{1F}')
    || c == '\U{85}' || c == '\U{A0}' || c == '\U{1680}'
    || ('\U{2000}' <= c <= '\U{200A}') || c == '\U{2028}' || c == '\U{2029}'
    || c == '\U{202F}' || c == '\U{205F}' || c == '\U{3000}'
  }

  /** `s.lstrip()`. */
  function StripLeft(s: string): string
    decreases |s|
  {
    if |s| > 0 && IsSpace(s[0]) then StripLeft(s[1..]) else s
  }

  /** `s.rstrip()`. */
  function StripRight(s: string): string
    decreases |s|
  {
    if |s| > 0 && IsSpace(s[|s| - 1]) then StripRight(s[..|s| - 1]) else s
  }

  /** `s.strip()`: leading and trailing whitespace removed. */
  function Strip(s: string): string {
    StripRight(StripLeft(s))
  }

  /** `lstrip` drops exactly the leading whitespace: what is left is a suffix that does not start with whitespace. */
  lemma {:induction false} StripLeftDropsLeadingSpace(s: string)
    ensures var r := StripLeft(s);
      && |r| <= |s| && r == s[|s| - |r|..]
      && (r == [] || !IsSpace(r[0]))
      && forall i :: 0 <= i < |s| - |r| ==> IsSpace(s[i])
    decreases |s|
  {
    if |s| > 0 && IsSpace(s[0]) {
      StripLeftDropsLeadingSpace(s[1..]);
      var r := StripLeft(s[1..]);
      assert s[1..][|s[1..]| - |r|..] == s[|s| - |r|..];
      forall i | 0 < i < |s| - |r| ensures IsSpace(s[i]) {
        assert s[i] == s[1..][i - 1];
      }
    }
  }

  /** `rstrip` drops exactly the trailing whitespace: what is left is a prefix that does not end with whitespace. */
  lemma {:induction false} StripRightDropsTrailingSpace(s: string)
    ensures var r := StripRight(s);
      && |r| <= |s| && r == s[..|r|]
      && (r == [] || !IsSpace(r[|r| - 1]))
      && forall i :: |r| <= i < |s| ==> IsSpace(s[i])
    decreases |s|
  {
    if |s| > 0 && IsSpace(s[|s| - 1]) {
      StripRightDropsTrailingSpace(s[..|s| - 1]);
      var r := StripRight(s[..|s| - 1]);
      assert s[..|s| - 1][..|r|] == s[..|r|];
      forall i | |r| <= i < |s| - 1 ensures IsSpace(s[i]) {
        assert s[i] == s[..|s| - 1][i];
      }
    }
  }

  /**
   * `strip` keeps the infix between the leading and the trailing whitespace:
   * everything around it is whitespace and it neither starts nor ends with whitespace.
   */
  lemma StripTrims(s: string)
    ensures var r := Strip(s); var a := |s| - |StripLeft(s)|;
      && 0 <= a <= |s| - |r| && r == s[a..a + |r|]
        && (forall i :: 0 <= i < a ==> IsSpace(s[i]))
        && (forall i :: a + |r| <= i < |s| ==> IsSpace(s[i]))
        && (r == [] || (!IsSpace(r[0]) && !IsSpace(r[|r| - 1])))
  {
    var l := StripLeft(s);
    StripLeftDropsLeadingSpace(s);
    StripRightDropsTrailingSpace(l);
    PrefixOfSuffix(s, |s| - |l|, |Strip(s)|);
  }

  /** A prefix of length `m` of the suffix from `a` is the slice `[a..a + m]`, and what follows it within the suffix follows it in `s`. */
  lemma PrefixOfSuffix(s: string, a: nat, m: nat)
    requires a + m <= |s|
    requires forall i :: m <= i < |s[a..]| ==> IsSpace(s[a..][i])
    ensures s[a..][..m] == s[a..a + m]
    ensures forall i :: a + m <= i < |s| ==> IsSpace(s[i])
  {
    forall i | a + m <= i < |s| ensures IsSpace(s[i]) {
      assert s[i] == s[a..][i - a];
    }
  }

  /** A string of whitespace strips to the empty string. */
  lemma {:induction false} AllSpaceStripsToEmpty(s: string)
    requires forall i :: 0 <= i < |s| ==> IsSpace(s[i])
    ensures Strip(s) == ""
    decreases |s|
  {
    if |s| > 0 {
      forall i | 0 <= i < |s[1..]| ensures IsSpace(s[1..][i]) {
        assert s[1..][i] == s[i + 1];
      }
      AllSpaceStripsToEmpty(s[1..]);
      assert StripLeft(s) == StripLeft(s[1..]);
    }
  }

  /** A blank string strips to "", and a string with no whitespace at either end is left as it is. */
  lemma BlankOrUnpadded(s: string)
    ensures (forall i :: 0 <= i < |s| ==> IsSpace(s[i])) ==> Strip(s) == ""
    ensures s != [] && !IsSpace(s[0]) && !IsSpace(s[|s| - 1]) ==> Strip(s) == s
  {
    if forall i :: 0 <= i < |s| ==> IsSpace(s[i]) {
      AllSpaceStripsToEmpty(s);
    }
  }

  /** `s.startswith(p)`. */
  predicate StartsWith(s: string, p: string) {
    |p| <= |s| && s[..|p|] == p
  }

  /** `p in s` for strings: `p` occurs in `s` at some offset. */
  predicate Contains(s: string, p: string)
    decreases |s|
  {
    StartsWith(s, p) || (|s| > 0 && Contains(s[1..], p))
  }

  /**
   * An occurrence of `p` in `a + b` lies inside `a` or inside `b` when the
   * first character of `b` cannot appear in `p`.
   */
  lemma {:induction false} ContainsAcrossBoundary(a: string, b: string, p: string)
    requires |b| > 0 && b[0] !in p
    requires !Contains(a, p) && !Contains(b, p)
    ensures !Contains(a + b, p)
    decreases |a|
  {
    if |a| == 0 {
      assert a + b == b;
    } else {
      assert !StartsWith(a + b, p) by {
        if |p| <= |a| {
          assert (a + b)[..|p|] == a[..|p|];
        } else {
          assert (a + b)[|a|] == b[0];
        }
      }
      assert (a + b)[1..] == a[1..] + b;
      ContainsAcrossBoundary(a[1..], b, p);
    }
  }

  /** An occurrence of `p` in `b` is one in `a + b` too. */
  lemma {:induction false} ContainsInSuffix(a: string, b: string, p: string)
    requires Contains(b, p)
    ensures Contains(a + b, p)
    decreases |a|
  {
    if |a| == 0 {
      assert a + b == b;
    } else {
      assert (a + b)[1..] == a[1..] + b;
      ContainsInSuffix(a[1..], b, p);
    }
  }

  /** An occurrence of `p` in `a` is one in `a + b`. */
  lemma {:induction false} ContainsInPrefix(a: string, b: string, p: string)
    requires Contains(a, p)
    ensures Contains(a + b, p)
    decreases |a|
  {
    if StartsWith(a, p) {
      assert (a + b)[..|p|] == a[..|p|];
    } else {
      assert (a + b)[1..] == a[1..] + b;
      ContainsInPrefix(a[1..], b, p);
    }
  }

  /**
   * `str(Path(dir) / name)` for a directory string as pathlib prints it
   * (no trailing separator except for the root, "." for the current directory).
   */
  function JoinPath(dir: string, name: string): string {
    if dir == "." then name
    else if dir == "/" then "/" + name
    else dir + "/" + name
  }
}
