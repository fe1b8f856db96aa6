/** Small string operations the protocol engine relies on: searching for a
    character and Python's `str.strip(chars)`. */
module Text {

  /** Index of the first occurrence of `c` in `s`, or `|s|` when `c` does not occur. */
  function IndexOf(s: string, c: char): (k: nat)
    ensures k <= |s|
    ensures forall j :: 0 <= j < k ==> s[j] != c
    ensures k < |s| ==> s[k] == c
  {
    if s == [] || s[0] == c then 0 else 1 + IndexOf(s[1..], c)
  }

  /** `s` without its leading characters that belong to `drop`. */
  function StripLeft(s: string, drop: set<char>): (r: string)
    ensures |r| <= |s|
    ensures r == [] || r[0] !in drop
    decreases |s|
  {
    if s != [] && s[0] in drop then StripLeft(s[1..], drop) else s
  }

  /** `s` without its trailing characters that belong to `drop`. */
  function StripRight(s: string, drop: set<char>): (r: string)
    ensures |r| <= |s|
    ensures r == [] || r[|r| - 1] !in drop
    decreases |s|
  {
    if s != [] && s[|s| - 1] in drop then StripRight(s[..|s| - 1], drop) else s
  }

  /** Python's `s.strip(chars)`: removes every leading and trailing character
      that belongs to `drop`, so that the result neither starts nor ends with
      one (StripSlice says what is kept). */
  function Strip(s: string, drop: set<char>): (r: string)
    ensures |r| <= |s|
    ensures r == [] || (r[0] !in drop && r[|r| - 1] !in drop)
  {
    var left := StripLeft(s, drop);
    StripRightSlice(left, drop);
    StripRight(left, drop)
  }

  /** StripLeft cuts a prefix made only of `drop` characters. */
  lemma {:induction false} StripLeftSlice(s: string, drop: set<char>)
    ensures var r := StripLeft(s, drop);
            r == s[|s| - |r|..] && forall j :: 0 <= j < |s| - |r| ==> s[j] in drop
    decreases |s|
  {
    if s != [] && s[0] in drop {
      StripLeftSlice(s[1..], drop);
    }
  }

  /** StripRight cuts a suffix made only of `drop` characters. */
  lemma {:induction false} StripRightSlice(s: string, drop: set<char>)
    ensures var r := StripRight(s, drop);
            r == s[..|r|] && forall j :: |r| <= j < |s| ==> s[j] in drop
    decreases |s|
  {
    if s != [] && s[|s| - 1] in drop {
      StripRightSlice(s[..|s| - 1], drop);
    }
  }

  /** What Strip keeps: the slice `s[i..i + |r|]`, where everything before `i`
      and everything after the slice is a `drop` character. */
  lemma StripSlice(s: string, drop: set<char>)
    ensures var r := Strip(s, drop);
            var i := |s| - |StripLeft(s, drop)|;
            i + |r| <= |s| && r == s[i..i + |r|]
            && (forall j :: 0 <= j < i ==> s[j] in drop)
            && (forall j :: i + |r| <= j < |s| ==> s[j] in drop)
  {
    StripLeftSlice(s, drop);
    StripRightSlice(StripLeft(s, drop), drop);
  }

  /** A string that neither starts nor ends with a `drop` character is left as it is. */
  lemma StripClean(s: string, drop: set<char>)
    requires s == [] || (s[0] !in drop && s[|s| - 1] !in drop)
    ensures Strip(s, drop) == s
  {
  }

  /** Stripping twice is stripping once. */
  lemma StripIdempotent(s: string, drop: set<char>)
    ensures Strip(Strip(s, drop), drop) == Strip(s, drop)
  {
    StripClean(Strip(s, drop), drop);
  }
}
