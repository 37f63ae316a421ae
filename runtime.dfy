/** The pieces of the JavaScript runtime that the game logic relies on, written
    out so that their edge cases are explicit: `Array.prototype.slice(0, end)`,
    `String.prototype.trim`, the white-space class `\s`, `Math.ceil(n * 0.10)`,
    `Math.floor(Math.random() * n)`, `toLowerCase` and `Array.prototype.filter`
    with an `includes` test. */
module Runtime {

  datatype Option<T> = None | Some(value: T)

  function Min(a: int, b: int): int { if a <= b then a else b }

  function Max(a: int, b: int): int { if a <= b then b else a }

  /** `Math.ceil(n * 0.10)`. The double nearest 0.1 exceeds it by a relative
      2^-54, which is less than half an ulp at every integer, so the product
      rounds to n/10 whenever that is an integer and the ceiling is exact. */
  function CeilTenth(n: int): (r: int)
    ensures 10 * r - 10 < n <= 10 * r
  {
    (n + 9) / 10
  }

  /** The index at which `s.slice(0, end)` stops on an array of length `len`:
      a negative `end` counts back from the end, and the index is clamped to
      [0, len]. */
  function SliceEnd(len: nat, end: int): (k: nat)
    ensures k <= len
  {
    if end < 0 then Max(len + end, 0) else Min(end, len)
  }

  /** `s.slice(0, end)`. */
  function SlicePrefix<T>(s: seq<T>, end: int): seq<T>
  {
    s[..SliceEnd(|s|, end)]
  }

  /** `Math.floor(r * n)` for a draw `r` of `Math.random()`, which lies in [0, 1):
      an index into a collection of `n` elements. */
  function RandomIndex(r: real, n: nat): (j: nat)
    requires 0.0 <= r < 1.0 && 0 < n
    ensures j < n
  {
    ScaledBelow(r, n);
    (r * n as real).Floor
  }

  lemma ScaledBelow(r: real, n: nat)
    requires 0.0 <= r < 1.0 && 0 < n
    ensures 0.0 <= r * n as real < n as real
  {
    assert (1.0 - r) * n as real > 0.0;
  }

  /** The characters ECMAScript counts as WhiteSpace or LineTerminator: the set
      that `String.prototype.trim` strips and that the regular-expression class
      `\s` matches. */
  predicate IsSpace(c: char)
  {
    || c == '\t' || c == '\n' || c == '\U{000B}' || c == '\U{000C}' || c == '\r'
    || c == ' ' || c == '\U{00A0}' || c == '\U{1680}' || ('\U{2000}' <= c <= '\U{200A}')
    || c == '\U{2028}' || c == '\U{2029}' || c == '\U{202F}' || c == '\U{205F}'
    || c == '\U{3000}' || c == '\U{FEFF}'
  }

  predicate AllSpace(s: string)
  {
    forall k :: 0 <= k < |s| ==> IsSpace(s[k])
  }

  /** Every character in [lo, hi) is white space. */
  predicate SpacesIn(s: string, lo: nat, hi: nat)
  {
    hi <= |s| && forall j {:trigger IsSpace(s[j])} :: lo <= j < hi ==> IsSpace(s[j])
  }

  /** Length of the longest run of white space from `i` on: what `trimStart`
      drops from the front, and what a greedy `\s+` or `\s*` consumes
      (characterised by `SpaceRunSpec`). */
  function SpaceRun(s: string, i: nat): (n: nat)
    requires i <= |s|
    ensures i + n <= |s|
    decreases |s| - i
  {
    if i < |s| && IsSpace(s[i]) then 1 + SpaceRun(s, i + 1) else 0
  }

  /** The run is all white space and stops at the end of the text or at a
      character that is not white space. */
  lemma {:induction false} SpaceRunSpec(s: string, i: nat)
    requires i <= |s|
    ensures SpacesIn(s, i, i + SpaceRun(s, i))
    ensures i + SpaceRun(s, i) == |s| || !IsSpace(s[i + SpaceRun(s, i)])
    decreases |s| - i
  {
    if i < |s| && IsSpace(s[i]) {
      SpaceRunSpec(s, i + 1);
    }
  }

  /** A run of white space that stops where the white space stops is the
      greedy run. */
  lemma {:induction false} SpaceRunExact(s: string, i: nat, n: nat)
    requires i + n <= |s|
    requires SpacesIn(s, i, i + n)
    requires i + n == |s| || !IsSpace(s[i + n])
    ensures SpaceRun(s, i) == n
    decreases n
  {
    if n > 0 {
      SpaceRunExact(s, i + 1, n - 1);
    }
  }

  /** Length of the longest run of white space that ends just before `j`:
      what `trimEnd` drops from the back. */
  function SpaceRunBack(s: string, j: nat): (n: nat)
    requires j <= |s|
    ensures n <= j
  {
    if j > 0 && IsSpace(s[j - 1]) then 1 + SpaceRunBack(s, j - 1) else 0
  }

  lemma {:induction false} SpaceRunBackSpec(s: string, j: nat)
    requires j <= |s|
    ensures SpacesIn(s, j - SpaceRunBack(s, j), j)
    ensures j == SpaceRunBack(s, j) || !IsSpace(s[j - SpaceRunBack(s, j) - 1])
  {
    if j > 0 && IsSpace(s[j - 1]) {
      SpaceRunBackSpec(s, j - 1);
    }
  }

  /** `String.prototype.trimStart`: drops the leading white space. */
  function TrimStart(s: string): (r: string)
    ensures |r| <= |s| && r == s[|s| - |r|..]
    ensures AllSpace(s[..|s| - |r|])
    ensures r == [] || !IsSpace(r[0])
  {
    SpaceRunSpec(s, 0);
    s[SpaceRun(s, 0)..]
  }

  /** `String.prototype.trimEnd`: drops the trailing white space. */
  function TrimEnd(s: string): (r: string)
    ensures |r| <= |s| && r == s[..|r|]
    ensures AllSpace(s[|r|..])
    ensures r == [] || !IsSpace(r[|r| - 1])
  {
    SpaceRunBackSpec(s, |s|);
    s[..|s| - SpaceRunBack(s, |s|)]
  }

  /** `String.prototype.trim`. */
  function Trim(s: string): string
  {
    TrimEnd(TrimStart(s))
  }

  /** What `trim` returns: the part of `s` between white-space runs at both ends,
      itself neither starting nor ending with white space; so it is empty exactly
      when `s` is all white space. */
  lemma TrimIsCore(s: string)
    ensures exists i, j :: 0 <= i <= j <= |s| && Trim(s) == s[i..j]
                           && AllSpace(s[..i]) && AllSpace(s[j..])
    ensures Trim(s) == [] || (!IsSpace(Trim(s)[0]) && !IsSpace(Trim(s)[|Trim(s)| - 1]))
    ensures Trim(s) == [] <==> AllSpace(s)
  {
    var i, j := TrimSpan(s);
    var r := Trim(s);
    if r != [] {
      assert r[0] == TrimStart(s)[0];
      assert s[i] == r[0];
    } else {
      forall k | 0 <= k < |s| ensures IsSpace(s[k]) {
        assert s[..i][k] == s[k];
      }
    }
  }

  /** Where `trim`'s result sits in the text. */
  lemma TrimSpan(s: string) returns (i: nat, j: nat)
    ensures i <= j <= |s| && Trim(s) == s[i..j]
    ensures AllSpace(s[..i]) && AllSpace(s[j..])
    ensures i == |s| - |TrimStart(s)|
  {
    var t := TrimStart(s);
    var r := TrimEnd(t);
    i := |s| - |t|;
    j := i + |r|;
    assert t == s[i..] && r == t[..|r|];
    assert s[i..j] == r;
    assert s[j..] == t[|r|..];
  }

  /** Trimming twice is trimming once. */
  lemma {:induction false} TrimIdempotent(s: string)
    ensures Trim(Trim(s)) == Trim(s)
  {
    TrimIsCore(s);
    var r := Trim(s);
    TrimStartOfClean(r);
    TrimEndOfClean(r);
  }

  lemma TrimStartOfClean(r: string)
    requires r == [] || !IsSpace(r[0])
    ensures TrimStart(r) == r
  {
  }

  lemma TrimEndOfClean(r: string)
    requires r == [] || !IsSpace(r[|r| - 1])
    ensures TrimEnd(r) == r
  {
  }

  /** The regular-expression class `\d`. */
  predicate IsDigit(c: char)
  {
    '0' <= c <= '9'
  }

  predicate AllDigits(s: string)
  {
    forall k :: 0 <= k < |s| ==> IsDigit(s[k])
  }

  /** `parseInt` of a string made of decimal digits only. */
  function DecimalValue(s: string): nat
    requires AllDigits(s)
  {
    if s == [] then 0
    else DecimalValue(s[..|s| - 1]) * 10 + (s[|s| - 1] as int - '0' as int)
  }

  /** The decimal rendering of a natural number, as `${n}` produces it. */
  function DecimalString(n: nat): (s: string)
    ensures |s| >= 1 && AllDigits(s)
    ensures |s| > 1 ==> s[0] != '0'
  {
    var last := ('0' as int + n % 10) as char;
    if n < 10 then [last] else DecimalString(n / 10) + [last]
  }

  /** Reading back a rendered number gives the number. */
  lemma {:induction false} DecimalRoundTrip(n: nat)
    ensures DecimalValue(DecimalString(n)) == n
  {
    var s := DecimalString(n);
    if n >= 10 {
      DecimalRoundTrip(n / 10);
      assert s[..|s| - 1] == DecimalString(n / 10);
    }
  }

  /** `${n}` for an integer. */
  function IntString(n: int): string
  {
    if n < 0 then "-" + DecimalString(-n) else DecimalString(n)
  }

  /** Upper-case letters of ASCII and Latin-1. */
  predicate IsUpper(c: char)
  {
    'A' <= c <= 'Z' || ('\U{00C0}' <= c <= '\U{00DE}' && c != '\U{00D7}')
  }

  /** `toLowerCase` on one character, for the ASCII and Latin-1 letters. */
  function Lower(c: char): (r: char)
    ensures !IsUpper(r)
    ensures !IsUpper(c) ==> r == c
  {
    if IsUpper(c) then (c as int + 32) as char else c
  }

  /** Lower-casing changes letters only. */
  lemma LowerKeepsClasses(c: char)
    ensures IsSpace(Lower(c)) == IsSpace(c) && IsDigit(Lower(c)) == IsDigit(c)
  {
  }

  /** `String.prototype.toLowerCase`. */
  function LowerText(s: string): (r: string)
    ensures |r| == |s|
    ensures forall k :: 0 <= k < |s| ==> r[k] == Lower(s[k])
  {
    seq(|s|, k requires 0 <= k < |s| => Lower(s[k]))
  }

  /** `s.filter(x => !xs.includes(x))`: keeps, in order, the elements not in `xs`. */
  function FilterOut(s: seq<string>, xs: seq<string>): (r: seq<string>)
    ensures forall x :: multiset(r)[x] == if x in xs then 0 else multiset(s)[x]
    ensures |r| <= |s|
  {
    if s == [] then []
    else
      var rest := FilterOut(s[1..], xs);
      assert s == [s[0]] + s[1..];
      if s[0] in xs then rest else [s[0]] + rest
  }

  /** The filter keeps exactly the elements outside `xs`. */
  lemma FilterOutSpec(s: seq<string>, xs: seq<string>)
    ensures forall x :: x in FilterOut(s, xs) <==> x in s && x !in xs
  {
    var r := FilterOut(s, xs);
    forall x ensures x in r <==> x in s && x !in xs {
      assert x in r <==> x in multiset(r);
      assert x in s <==> x in multiset(s);
    }
  }
}
