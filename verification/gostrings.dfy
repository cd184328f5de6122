/** The pieces of Go's `strings` and `fmt` packages that the modelled code
    relies on: `strings.Index`, `strings.Replace(s, old, "", -1)`,
    `strings.HasPrefix`, `strings.Split`, `strings.ToLower`,
    `strings.TrimSpace` and the `%d` verb. Each is defined the way the Go
    library computes it and paired with the property the callers rely on. */
module GoStrings {
  import opened Wrappers

  // ---------------------------------------------------------------------
  // Occurrences and strings.Index
  // ---------------------------------------------------------------------

  /** `pat` occurs in `s` starting at position `i`. */
  predicate OccursAt<T(==)>(s: seq<T>, pat: seq<T>, i: int) {
    0 <= i && i + |pat| <= |s| && s[i..i + |pat|] == pat
  }

  predicate Contains<T(==)>(s: seq<T>, pat: seq<T>) {
    exists i | 0 <= i <= |s| - |pat| :: OccursAt(s, pat, i)
  }

  /** `i` is the position of the first occurrence of `pat` in `s`. */
  predicate FirstOccurrence<T(==)>(s: seq<T>, pat: seq<T>, i: int) {
    OccursAt(s, pat, i) && forall j :: 0 <= j < i ==> !OccursAt(s, pat, j)
  }

  /** `strings.Index`: the position of the first occurrence of `pat` in `s`,
      or -1 when there is none. */
  function Index<T(==)>(s: seq<T>, pat: seq<T>): (r: int)
    ensures r == -1 <==> !Contains(s, pat)
    ensures r != -1 ==> OccursAt(s, pat, r)
    ensures forall j :: 0 <= j < r ==> !OccursAt(s, pat, j)
  {
    IndexFrom(s, pat, 0)
  }

  /** The first occurrence of `pat` at or after position `i`. */
  function IndexFrom<T(==)>(s: seq<T>, pat: seq<T>, i: nat): (r: int)
    requires i <= |s|
    ensures r == -1 ==> forall j :: i <= j ==> !OccursAt(s, pat, j)
    ensures r != -1 ==> i <= r && OccursAt(s, pat, r)
    ensures forall j :: i <= j < r ==> !OccursAt(s, pat, j)
    decreases |s| - i
  {
    if OccursAt(s, pat, i) then i
    else if i + |pat| >= |s| then -1
    else IndexFrom(s, pat, i + 1)
  }

  /** An occurrence inside a prefix is an occurrence in the whole. */
  lemma OccursInPrefix<T>(s: seq<T>, pat: seq<T>, n: nat, j: int)
    requires n <= |s|
    requires OccursAt(s[..n], pat, j)
    ensures OccursAt(s, pat, j)
  {
    assert s[..n][j..j + |pat|] == s[j..j + |pat|];
  }

  /** A pattern with an element that `s` lacks does not occur in `s`. */
  lemma MissingElementNoOccurrence<T>(s: seq<T>, pat: seq<T>, k: nat)
    requires k < |pat| && pat[k] !in s
    ensures !Contains(s, pat)
  {
    forall i | 0 <= i <= |s| - |pat| ensures !OccursAt(s, pat, i) {
      assert s[i..i + |pat|][k] != pat[k];
    }
  }

  /** The part of `s` before the first occurrence of `pat` does not contain
      `pat`. */
  lemma BeforeFirstHasNone<T>(s: seq<T>, pat: seq<T>)
    requires |pat| > 0 && Contains(s, pat)
    ensures !Contains(s[..Index(s, pat)], pat)
  {
    var i := Index(s, pat);
    if Contains(s[..i], pat) {
      var j :| OccursAt(s[..i], pat, j);
      OccursInPrefix(s, pat, i, j);
    }
  }

  // ---------------------------------------------------------------------
  // strings.HasPrefix and strings.Replace(s, old, "", -1)
  // ---------------------------------------------------------------------

  predicate HasPrefix<T(==)>(s: seq<T>, prefix: seq<T>) {
    |prefix| <= |s| && s[..|prefix|] == prefix
  }

  /** `strings.Replace(s, pat, "", -1)`: deletes every non-overlapping
      occurrence of `pat`, scanning left to right with `strings.Index`. An
      empty `pat` equals the empty replacement, and Go returns `s` as is. */
  function RemoveAll<T(==)>(s: seq<T>, pat: seq<T>): (r: seq<T>)
    ensures |r| <= |s|
    ensures |pat| == 0 || !Contains(s, pat) ==> r == s
    ensures |pat| > 0 && Contains(s, pat) ==> |r| <= |s| - |pat|
    decreases |s|
  {
    if |pat| == 0 then s
    else
      var i := Index(s, pat);
      if i < 0 then s else s[..i] + RemoveAll(s[i + |pat|..], pat)
  }

  /** The scan deletes the first occurrence and goes on right after it:
      with `a` free of `pat` up to where `pat` follows it, the text before
      that occurrence is kept as it is and the rest is scanned afresh. */
  lemma RemoveAllFirst<T>(a: seq<T>, pat: seq<T>, b: seq<T>)
    requires |pat| > 0 && FirstOccurrence(a + pat + b, pat, |a|)
    ensures RemoveAll(a + pat + b, pat) == a + RemoveAll(b, pat)
  {
    var s := a + pat + b;
    assert Contains(s, pat);
    var i := Index(s, pat);
    assert OccursAt(s, pat, |a|);
    assert i == |a|;
    assert s[..|a|] == a;
    assert s[|a| + |pat|..] == b;
  }

  /** A one-element pattern that occurs exactly once is cut out. */
  lemma RemoveAllSingle<T>(a: seq<T>, c: T, b: seq<T>)
    requires c !in a && c !in b
    ensures RemoveAll(a + [c] + b, [c]) == a + b
  {
    forall j | 0 <= j < |a| ensures !OccursAt(a + [c] + b, [c], j) {
      assert (a + [c] + b)[j] == a[j];
    }
    RemoveAllFirst(a, [c], b);
    MissingElementNoOccurrence(b, [c], 0);
  }

  /** An occurrence right after one element that cannot start it is the
      first one. */
  lemma RemoveAllAfterOne<T>(c: T, pat: seq<T>, b: seq<T>)
    requires |pat| > 0 && pat[0] != c && !Contains(b, pat)
    ensures RemoveAll([c] + pat + b, pat) == [c] + b
  {
    assert ([c] + pat + b)[0] == c;
    assert FirstOccurrence([c] + pat + b, pat, 1);
    RemoveAllFirst([c], pat, b);
  }

  /** A leading occurrence is deleted and the scan resumes right after it. */
  lemma RemoveAllLeading<T>(pat: seq<T>, rest: seq<T>)
    requires |pat| > 0
    ensures RemoveAll(pat + rest, pat) == RemoveAll(rest, pat)
  {
    var s := pat + rest;
    assert s[0..|pat|] == pat;
    assert OccursAt(s, pat, 0);
    assert Index(s, pat) == 0;
    assert s[|pat|..] == rest;
  }

  /** Two occurrences with one element between them both go. */
  lemma RemoveAllTwice<T>(pat: seq<T>, c: T, b: seq<T>)
    requires |pat| > 0 && pat[0] != c && !Contains(b, pat)
    ensures RemoveAll(pat + [c] + pat + b, pat) == [c] + b
  {
    assert pat + [c] + pat + b == pat + ([c] + pat + b);
    RemoveAllLeading(pat, [c] + pat + b);
    RemoveAllAfterOne(c, pat, b);
  }

  // ---------------------------------------------------------------------
  // strings.Split with a one-element separator
  // ---------------------------------------------------------------------

  /** `strings.Split(s, sep)`: the pieces between separators, in order;
      never empty (`Split("", sep)` is `[""]`). */
  function Split<T(==)>(s: seq<T>, sep: T): (parts: seq<seq<T>>)
    ensures |parts| >= 1
    ensures forall k :: 0 <= k < |parts| ==> sep !in parts[k]
    decreases |s|
  {
    if |s| == 0 then [[]]
    else
      var rest := Split(s[1..], sep);
      if s[0] == sep then [[]] + rest
      else [[s[0]] + rest[0]] + rest[1..]
  }

  /** A sequence without the separator is a single piece. */
  lemma {:induction false} SplitWithoutSeparator<T>(s: seq<T>, sep: T)
    requires sep !in s
    ensures Split(s, sep) == [s]
    decreases |s|
  {
    if |s| > 0 {
      SplitWithoutSeparator(s[1..], sep);
      assert [s[0]] + s[1..] == s;
    }
  }

  /** Two pieces joined by one separator split back into those pieces. */
  lemma {:induction false} SplitPair<T>(a: seq<T>, b: seq<T>, sep: T)
    requires sep !in a && sep !in b
    ensures Split(a + [sep] + b, sep) == [a, b]
    decreases |a|
  {
    var s := a + [sep] + b;
    if |a| == 0 {
      assert s == [sep] + b;
      assert s[1..] == b;
      SplitWithoutSeparator(b, sep);
    } else {
      assert s[1..] == a[1..] + [sep] + b;
      SplitPair(a[1..], b, sep);
      assert [a[0]] + a[1..] == a;
    }
  }

  /** `strings.Join(parts, sep)`. */
  function Join<T>(parts: seq<seq<T>>, sep: T): seq<T>
    requires |parts| >= 1
    decreases |parts|
  {
    if |parts| == 1 then parts[0] else parts[0] + [sep] + Join(parts[1..], sep)
  }

  /** Joining the pieces back with the separator gives the original. */
  lemma {:induction false} JoinSplit<T>(s: seq<T>, sep: T)
    ensures Join(Split(s, sep), sep) == s
    decreases |s|
  {
    if |s| == 0 {
    } else {
      var rest := Split(s[1..], sep);
      JoinSplit(s[1..], sep);
      if s[0] == sep {
        assert ([[]] + rest)[1..] == rest;
      } else {
        var parts := [[s[0]] + rest[0]] + rest[1..];
        assert parts[1..] == rest[1..];
        if |rest| == 1 {
          assert Join(parts, sep) == [s[0]] + rest[0];
        } else {
          assert Join(rest, sep) == rest[0] + [sep] + Join(rest[1..], sep);
          assert Join(parts, sep) == [s[0]] + rest[0] + [sep] + Join(rest[1..], sep);
        }
        assert s == [s[0]] + s[1..];
      }
    }
  }

  // ---------------------------------------------------------------------
  // strings.ToLower and strings.TrimSpace
  // ---------------------------------------------------------------------

  /** Lower-casing of one character. Only ASCII letters are mapped. Among
      the characters of the words `1` and `true`, only `1`, `t`, `r`, `u`
      and `e` and their upper-case forms lower-case to them in Go, so
      comparisons of the result with these two words come out as in Go. */
  function LowerChar(c: char): char {
    if 'A' <= c <= 'Z' then (c as int + 32) as char else c
  }

  function ToLower(s: string): (r: string)
    ensures |r| == |s|
    ensures forall i :: 0 <= i < |s| ==> r[i] == LowerChar(s[i])
    decreases |s|
  {
    if |s| == 0 then [] else [LowerChar(s[0])] + ToLower(s[1..])
  }

  /** Go's `unicode.IsSpace`, the class `strings.TrimSpace` trims. */
  predicate IsSpace(c: char) {
    c == '\t' || c == '\n' || c == '\U{0B}' || c == '\U{0C}' || c == '\r' || c == ' '
    || c == '\U{85}' || c == '\U{A0}' || c == '\U{1680}'
    || ('\U{2000}' <= c <= '\U{200A}')
    || c == '\U{2028}' || c == '\U{2029}' || c == '\U{202F}' || c == '\U{205F}' || c == '\U{3000}'
  }

  predicate AllSpace(s: string) {
    forall i :: 0 <= i < |s| ==> IsSpace(s[i])
  }

  /** Drops the longest all-space prefix. */
  function TrimLeft(s: string): string
    decreases |s|
  {
    if |s| > 0 && IsSpace(s[0]) then TrimLeft(s[1..]) else s
  }

  /** Drops the longest all-space suffix. */
  function TrimRight(s: string): string
    decreases |s|
  {
    if |s| > 0 && IsSpace(s[|s| - 1]) then TrimRight(s[..|s| - 1]) else s
  }

  /** `TrimLeft` removes an all-space prefix and stops at the first
      character that is not space. */
  lemma {:induction false} TrimLeftSpec(s: string)
    ensures var r := TrimLeft(s);
            && |r| <= |s| && s == s[..|s| - |r|] + r
            && AllSpace(s[..|s| - |r|])
            && (|r| > 0 ==> !IsSpace(r[0]))
    decreases |s|
  {
    if |s| > 0 && IsSpace(s[0]) {
      TrimLeftSpec(s[1..]);
      var r := TrimLeft(s);
      assert s[..|s| - |r|] == [s[0]] + s[1..][..|s| - 1 - |r|];
    }
  }

  /** `TrimRight` removes an all-space suffix and stops at the last
      character that is not space. */
  lemma {:induction false} TrimRightSpec(s: string)
    ensures var r := TrimRight(s);
            && |r| <= |s| && s == r + s[|r|..]
            && AllSpace(s[|r|..])
            && (|r| > 0 ==> !IsSpace(r[|r| - 1]))
    decreases |s|
  {
    if |s| > 0 && IsSpace(s[|s| - 1]) {
      var s' := s[..|s| - 1];
      TrimRightSpec(s');
      var r := TrimRight(s);
      assert s[|r|..] == s'[|r|..] + [s[|s| - 1]];
    }
  }

  /** `strings.TrimSpace`: what is left neither starts nor ends with
      white space. */
  function TrimSpace(s: string): (r: string)
    ensures |r| <= |s|
    ensures |r| > 0 ==> !IsSpace(r[0]) && !IsSpace(r[|r| - 1])
  {
    var l := TrimLeft(s);
    TrimLeftSpec(s);
    TrimRightSpec(l);
    TrimRight(l)
  }

  lemma {:induction false} TrimLeftAllSpace(s: string)
    requires AllSpace(s)
    ensures TrimLeft(s) == []
    decreases |s|
  {
    if |s| > 0 {
      TrimLeftAllSpace(s[1..]);
    }
  }

  lemma AllSpaceTail(x: string)
    requires |x| > 0 && IsSpace(x[0])
    ensures AllSpace(x) <==> AllSpace(x[1..])
  {
    if AllSpace(x[1..]) {
      forall i | 0 <= i < |x| ensures IsSpace(x[i]) {
        if i > 0 { assert x[i] == x[1..][i - 1]; }
      }
    }
  }

  lemma {:induction false} TrimLeftConcat(x: string, y: string)
    ensures TrimLeft(x + y) == if AllSpace(x) then TrimLeft(y) else TrimLeft(x) + y
    decreases |x|
  {
    if |x| == 0 {
      assert x + y == y;
    } else if IsSpace(x[0]) {
      assert (x + y)[1..] == x[1..] + y;
      TrimLeftConcat(x[1..], y);
      AllSpaceTail(x);
    } else {
      assert (x + y)[0] == x[0];
      assert !AllSpace(x);
    }
  }

  lemma {:induction false} TrimRightConcat(x: string, y: string)
    requires AllSpace(y)
    ensures TrimRight(x + y) == TrimRight(x)
    decreases |y|
  {
    if |y| == 0 {
      assert x + y == x;
    } else {
      var y' := y[..|y| - 1];
      assert (x + y)[..|x + y| - 1] == x + y';
      assert (x + y)[|x + y| - 1] == y[|y| - 1];
      TrimRightConcat(x, y');
    }
  }

  /** Surrounding white space does not change the trimmed string. */
  lemma TrimSpacePadding(a: string, s: string, b: string)
    requires AllSpace(a) && AllSpace(b)
    ensures TrimSpace(a + s + b) == TrimSpace(s)
  {
    assert a + s + b == a + (s + b);
    TrimLeftConcat(a, s + b);
    assert TrimLeft(a + s + b) == TrimLeft(s + b);
    TrimLeftConcat(s, b);
    if AllSpace(s) {
      TrimLeftAllSpace(b);
      TrimLeftAllSpace(s);
      assert TrimLeft(s + b) == [] == TrimLeft(s);
    } else {
      assert TrimLeft(s + b) == TrimLeft(s) + b;
      TrimRightConcat(TrimLeft(s), b);
    }
  }

  lemma ToLowerConcat(x: string, y: string)
    ensures ToLower(x + y) == ToLower(x) + ToLower(y)
  {
    var l, r := ToLower(x + y), ToLower(x) + ToLower(y);
    assert |l| == |r|;
    forall i | 0 <= i < |l| ensures l[i] == r[i] {
      if i < |x| { assert (x + y)[i] == x[i]; } else { assert (x + y)[i] == y[i - |x|]; }
    }
  }

  lemma ToLowerKeepsSpace(s: string)
    requires AllSpace(s)
    ensures AllSpace(ToLower(s))
  {
  }

  // ---------------------------------------------------------------------
  // The %d verb
  // ---------------------------------------------------------------------

  predicate IsDigit(c: char) {
    '0' <= c <= '9'
  }

  predicate AllDigits(s: string) {
    forall i :: 0 <= i < |s| ==> IsDigit(s[i])
  }

  function DigitChar(d: int): char
    requires 0 <= d < 10
  {
    ('0' as int + d) as char
  }

  /** Decimal digits of a natural number, most significant first. */
  function NatDecimal(n: nat): (r: string)
    ensures |r| >= 1 && AllDigits(r)
    decreases n
  {
    if n < 10 then [DigitChar(n)] else NatDecimal(n / 10) + [DigitChar(n % 10)]
  }

  /** `fmt.Sprintf("%d", n)`. */
  function Decimal(n: int): (r: string)
    ensures |r| >= 1 && forall i :: 0 <= i < |r| ==> IsDigit(r[i]) || r[i] == '-'
  {
    if n < 0 then "-" + NatDecimal(-n) else NatDecimal(n)
  }

  /** Reads back a string of decimal digits. */
  function ParseNat(s: string): nat
    requires AllDigits(s)
    decreases |s|
  {
    if |s| == 0 then 0 else ParseNat(s[..|s| - 1]) * 10 + (s[|s| - 1] as int - '0' as int)
  }

  /** Reads back an optionally negative decimal integer. */
  function ParseInt(s: string): Option<int> {
    if |s| == 0 then None
    else if s[0] == '-' then
      if |s| > 1 && AllDigits(s[1..]) then var v: int := ParseNat(s[1..]); Some(-v) else None
    else if AllDigits(s) then Some(ParseNat(s))
    else None
  }

  lemma {:induction false} NatDecimalRoundTrip(n: nat)
    ensures ParseNat(NatDecimal(n)) == n
    decreases n
  {
    if n >= 10 {
      NatDecimalRoundTrip(n / 10);
      var s := NatDecimal(n);
      assert s[..|s| - 1] == NatDecimal(n / 10);
    }
  }

  /** The `%d` rendering is read back to the same integer. */
  lemma DecimalRoundTrip(n: int)
    ensures ParseInt(Decimal(n)) == Some(n)
  {
    if n < 0 {
      NatDecimalRoundTrip(-n);
      assert Decimal(n)[1..] == NatDecimal(-n);
    } else {
      NatDecimalRoundTrip(n);
    }
  }
}
