/**
 * String building blocks used by both halves of the catalog: the ASCII case folding
 * behind SQLite's case-insensitive LIKE, substring search, JavaScript's String.prototype.trim,
 * decimal rendering of integer ids, and the `map(...).join('')` idiom of the templates.
 */
module Text {

  // ---------------------------------------------------------------------------
  // Case folding and substring search (the `ilike` filters of the server)
  // ---------------------------------------------------------------------------

  const Capitals := "ABCDEFGHIJKLMNOPQRSTUVWXYZ"
  const Smalls := "abcdefghijklmnopqrstuvwxyz"

  predicate IsCapital(c: char)
  {
    'A' <= c <= 'Z'
  }

  /**
   * Lower-cases one character the way SQLite's lower() does: each ASCII capital becomes the
   * small letter at the same place in the alphabet, every other character is kept.
   */
  function LowerChar(c: char): (r: char)
    ensures !IsCapital(r)
    ensures !IsCapital(c) ==> r == c
    ensures forall k :: 0 <= k < 26 && c == Capitals[k] ==> r == Smalls[k]
  {
    if IsCapital(c) then (c as int + 32) as char else c
  }

  /** Lower-cases a string character by character: no capital remains, and only capitals change. */
  function Lower(s: string): (r: string)
    ensures |r| == |s|
    ensures forall i :: 0 <= i < |r| ==> !IsCapital(r[i])
    ensures forall i :: 0 <= i < |s| && !IsCapital(s[i]) ==> r[i] == s[i]
    ensures forall i, k :: 0 <= i < |s| && 0 <= k < 26 && s[i] == Capitals[k] ==> r[i] == Smalls[k]
  {
    seq(|s|, i requires 0 <= i < |s| => LowerChar(s[i]))
  }

  /** `p` occurs in `s` starting at position `k`. */
  predicate OccursAt(p: string, s: string, k: int)
  {
    0 <= k <= |s| - |p| && s[k..k + |p|] == p
  }

  /** `p` occurs as a contiguous run of characters inside `s`. */
  predicate IsSubstring(p: string, s: string)
  {
    exists k | 0 <= k <= |s| - |p| :: OccursAt(p, s, k)
  }

  /** `s ILIKE '%q%'`: `q` occurs in `s` once both are lower-cased. */
  predicate ContainsIgnoreCase(s: string, q: string)
  {
    IsSubstring(Lower(q), Lower(s))
  }

  /** `s ILIKE q` with no wildcard in `q`: equal once both are lower-cased. */
  predicate EqualsIgnoreCase(s: string, q: string)
  {
    Lower(s) == Lower(q)
  }

  lemma LowerIdempotent(s: string)
    ensures Lower(Lower(s)) == Lower(s)
  {
  }

  /** An empty search term (pattern `%%`) matches every name. */
  lemma EmptyTermMatchesEverything(s: string)
    ensures ContainsIgnoreCase(s, "")
  {
    assert OccursAt(Lower(""), Lower(s), 0);
  }

  /** The match does not depend on the letter case of the search term. */
  lemma {:induction false} ContainsIgnoresTermCase(s: string, q: string)
    ensures ContainsIgnoreCase(s, q) <==> ContainsIgnoreCase(s, Lower(q))
  {
    LowerIdempotent(q);
  }

  /** `p` is a prefix of `s`. */
  predicate StartsWith(s: string, p: string)
  {
    |p| <= |s| && s[..|p|] == p
  }

  /** A prefix of the first part of a concatenation is a prefix of the whole. */
  lemma StartsWithAppend(a: string, b: string, p: string)
    requires StartsWith(a, p)
    ensures StartsWith(a + b, p)
  {
    assert (a + b)[..|p|] == a[..|p|];
  }

  /** Text found in the middle part of a concatenation is found in the whole. */
  lemma {:induction false} SubstringInside(p: string, a: string, m: string, b: string)
    requires IsSubstring(p, m)
    ensures IsSubstring(p, a + m + b)
  {
    var k :| 0 <= k <= |m| - |p| && OccursAt(p, m, k);
    assert (a + m + b)[|a| + k..|a| + k + |p|] == m[k..k + |p|];
    assert OccursAt(p, a + m + b, |a| + k);
  }

  /** A piece occurs in any text built around it. */
  lemma SubstringBetween(p: string, a: string, b: string)
    ensures IsSubstring(p, a + p + b)
  {
    assert (a + p + b)[|a|..|a| + |p|] == p;
    assert OccursAt(p, a + p + b, |a|);
  }

  /** Each of three pieces occurs in their concatenation, which starts with the first. */
  lemma Parts(a: string, b: string, c: string)
    ensures StartsWith(a + b + c, a)
    ensures IsSubstring(a, a + b + c) && IsSubstring(b, a + b + c) && IsSubstring(c, a + b + c)
  {
    var r := a + b + c;
    assert r[..|a|] == a;
    assert OccursAt(a, r, 0);
    SubstringBetween(b, a, c);
    assert r[|a| + |b|..] == c;
    assert OccursAt(c, r, |a| + |b|);
  }

  /** Each of two pieces occurs in their concatenation, which starts with the first. */
  lemma Parts2(a: string, b: string)
    ensures StartsWith(a + b, a)
    ensures IsSubstring(a, a + b) && IsSubstring(b, a + b)
  {
    Parts(a, b, "");
    assert a + b + "" == a + b;
  }

  /** A prefix occurs in the text it starts. */
  lemma PrefixIsSubstring(s: string, p: string)
    requires StartsWith(s, p)
    ensures IsSubstring(p, s)
  {
    assert OccursAt(p, s, 0);
  }

  /** Occurring inside is transitive. */
  lemma {:induction false} SubstringTrans(p: string, m: string, s: string)
    requires IsSubstring(p, m) && IsSubstring(m, s)
    ensures IsSubstring(p, s)
  {
    var j :| 0 <= j <= |m| - |p| && OccursAt(p, m, j);
    var k :| 0 <= k <= |s| - |m| && OccursAt(m, s, k);
    assert s[k..k + |m|] == m;
    forall i | 0 <= i < |p|
      ensures s[k + j + i] == p[i]
    {
      assert s[k + j + i] == m[j + i];
    }
    assert s[k + j..k + j + |p|] == p;
    assert OccursAt(p, s, k + j);
  }

  /** Being a prefix is transitive. */
  lemma StartsWithTrans(s: string, m: string, p: string)
    requires StartsWith(s, m) && StartsWith(m, p)
    ensures StartsWith(s, p)
  {
    assert s[..|p|] == m[..|p|];
  }

  // ---------------------------------------------------------------------------
  // String.prototype.trim
  // ---------------------------------------------------------------------------

  /**
   * The characters String.prototype.trim removes: ECMAScript's WhiteSpace
   * (TAB, VT, FF, ZWNBSP and every Space_Separator) and LineTerminator (LF, CR, LS, PS).
   */
  predicate IsJsSpace(c: char)
  {
    || c == ' ' || c == '\t' || c == '\n' || c == '\r'
    || c == '\U{B}' || c == '\U{C}' || c == '\U{A0}' || c == '\U{1680}'
    || ('\U{2000}' <= c <= '\U{200A}')
    || c == '\U{2028}' || c == '\U{2029}' || c == '\U{202F}' || c == '\U{205F}'
    || c == '\U{3000}' || c == '\U{FEFF}'
  }

  /** Drops leading white space: the result is the suffix of `s` after its leading spaces. */
  function TrimStart(s: string): (r: string)
    ensures |r| <= |s| && r == s[|s| - |r|..]
    ensures forall i :: 0 <= i < |s| - |r| ==> IsJsSpace(s[i])
    ensures r == [] || !IsJsSpace(r[0])
  {
    if s != [] && IsJsSpace(s[0]) then TrimStart(s[1..]) else s
  }

  /** Drops trailing white space: the result is the prefix of `s` before its trailing spaces. */
  function TrimEnd(s: string): (r: string)
    ensures |r| <= |s| && r == s[..|r|]
    ensures forall i :: |r| <= i < |s| ==> IsJsSpace(s[i])
    ensures r == [] || !IsJsSpace(r[|r| - 1])
  {
    if s != [] && IsJsSpace(s[|s| - 1]) then TrimEnd(s[..|s| - 1]) else s
  }

  /** `r` is the slice of `s` at `a` with only white space before and after it. */
  predicate SpaceAround(s: string, r: string, a: int)
  {
    0 <= a <= |s| - |r| && r == s[a..a + |r|]
    && (forall i :: 0 <= i < a ==> IsJsSpace(s[i]))
    && (forall i :: a + |r| <= i < |s| ==> IsJsSpace(s[i]))
  }

  /** Cutting the leading spaces and then the trailing ones leaves a slice with only spaces around it. */
  lemma TrimmedSlice(s: string, t: string, r: string)
    requires |t| <= |s| && t == s[|s| - |t|..] && forall i :: 0 <= i < |s| - |t| ==> IsJsSpace(s[i])
    requires |r| <= |t| && r == t[..|r|] && forall i :: |r| <= i < |t| ==> IsJsSpace(t[i])
    ensures SpaceAround(s, r, |s| - |t|)
  {
    var a := |s| - |t|;
    assert r == s[a..a + |r|] by {
      assert forall k :: 0 <= k < |r| ==> r[k] == t[k] == s[a + k];
    }
    forall i | a + |r| <= i < |s|
      ensures IsJsSpace(s[i])
    {
      assert s[i] == t[i - a];
    }
  }

  /** String.prototype.trim: the input with its leading and trailing white space cut off. */
  function Trim(s: string): (r: string)
    ensures r == [] <==> forall i :: 0 <= i < |s| ==> IsJsSpace(s[i])
    ensures r != [] ==> !IsJsSpace(r[0]) && !IsJsSpace(r[|r| - 1])
    ensures (s == [] || (!IsJsSpace(s[0]) && !IsJsSpace(s[|s| - 1]))) ==> r == s
    ensures exists a :: SpaceAround(s, r, a)
  {
    var t := TrimStart(s);
    var r := TrimEnd(t);
    assert r == [] ==> forall i :: 0 <= i < |s| ==> IsJsSpace(s[i]) by {
      if r == [] {
        assert t == [];
      }
    }
    TrimmedSlice(s, t, r);
    r
  }

  // ---------------------------------------------------------------------------
  // Decimal rendering of ids (template interpolation `${id}` and `String(id)`)
  // ---------------------------------------------------------------------------

  predicate IsDigit(c: char)
  {
    '0' <= c <= '9'
  }

  function DigitChar(d: nat): (c: char)
    requires d < 10
    ensures IsDigit(c) && c as int - '0' as int == d
  {
    ('0' as int + d) as char
  }

  /** The decimal digits of `n`, most significant first, without leading zeros. */
  function NatToString(n: nat): (r: string)
    ensures |r| >= 1
    ensures forall i :: 0 <= i < |r| ==> IsDigit(r[i])
    ensures r[0] == '0' ==> n == 0 && r == "0"
  {
    if n < 10 then [DigitChar(n)] else NatToString(n / 10) + [DigitChar(n % 10)]
  }

  function DigitValue(c: char): nat
    requires IsDigit(c)
  {
    c as int - '0' as int
  }

  /** The number a string of decimal digits denotes: the reading partner of NatToString. */
  function DecimalValue(s: string): nat
    requires forall i :: 0 <= i < |s| ==> IsDigit(s[i])
  {
    if s == [] then 0 else DecimalValue(s[..|s| - 1]) * 10 + DigitValue(s[|s| - 1])
  }

  /** Reading back the digits that NatToString writes gives the number itself. */
  lemma {:induction false} DecimalRoundTrip(n: nat)
    ensures DecimalValue(NatToString(n)) == n
  {
    if n >= 10 {
      var r := NatToString(n);
      assert r[..|r| - 1] == NatToString(n / 10);
      DecimalRoundTrip(n / 10);
    }
  }

  /** Distinct numbers are written differently. */
  lemma NatToStringInjective(m: nat, n: nat)
    requires NatToString(m) == NatToString(n)
    ensures m == n
  {
    DecimalRoundTrip(m);
    DecimalRoundTrip(n);
  }

  /** A count written between a fixed opening and a fixed closing text, as in `Results (${n})`. */
  function Counted(open: string, n: nat, close: string): string
  {
    open + NatToString(n) + close
  }

  /** The written count gives back the number: different counts are never written the same way. */
  lemma {:induction false} CountedInjective(open: string, close: string, m: nat, n: nat)
    requires Counted(open, m, close) == Counted(open, n, close)
    ensures m == n
  {
    var x := Counted(open, m, close);
    var dm, dn := NatToString(m), NatToString(n);
    assert |dm| == |dn|;
    assert x[|open|..|open| + |dm|] == dm;
    assert x[|open|..|open| + |dn|] == dn;
    NatToStringInjective(m, n);
  }

  /**
   * The decimal text of an integer: how JavaScript writes an integer-valued Number, and
   * equally the decimal string Python's `str` makes of an integer id (which is how ids reach
   * the client). A minus sign exactly for a negative number, then the decimal digits of its
   * magnitude, which read back as that magnitude.
   */
  function IntToString(i: int): (r: string)
    ensures |r| >= 1 && (r[0] == '-' <==> i < 0)
    ensures i >= 0 ==> (forall k :: 0 <= k < |r| ==> IsDigit(r[k])) && DecimalValue(r) == i
    ensures i < 0 ==> (forall k :: 1 <= k < |r| ==> IsDigit(r[k])) && DecimalValue(r[1..]) == -i
  {
    if i < 0 then
      DecimalRoundTrip(-i);
      var r := "-" + NatToString(-i);
      assert r[1..] == NatToString(-i);
      r
    else
      DecimalRoundTrip(i);
      NatToString(i)
  }

  /** Distinct integers are written differently: a written id identifies the number. */
  lemma {:induction false} IntToStringInjective(i: int, j: int)
    requires IntToString(i) == IntToString(j)
    ensures i == j
  {
  }

  // ---------------------------------------------------------------------------
  // `xs.map(f).join('')`
  // ---------------------------------------------------------------------------

  /** The markup of every element of `xs`, in order, with no separator. */
  function MapConcat<T>(f: T -> string, xs: seq<T>): string
  {
    if xs == [] then "" else f(xs[0]) + MapConcat(f, xs[1..])
  }

  /** Rendering a concatenated list renders each part in turn. */
  lemma {:induction false} MapConcatAppend<T>(f: T -> string, a: seq<T>, b: seq<T>)
    ensures MapConcat(f, a + b) == MapConcat(f, a) + MapConcat(f, b)
  {
    if a == [] {
      assert a + b == b;
    } else {
      assert (a + b)[1..] == a[1..] + b;
      MapConcatAppend(f, a[1..], b);
    }
  }

  /** Every element's markup appears in the joined output, right after the markup of the elements before it. */
  lemma {:induction false} MapConcatHasEach<T>(f: T -> string, xs: seq<T>, i: nat)
    requires i < |xs|
    ensures IsSubstring(f(xs[i]), MapConcat(f, xs))
    ensures MapConcat(f, xs) == MapConcat(f, xs[..i]) + f(xs[i]) + MapConcat(f, xs[i + 1..])
  {
    assert xs == xs[..i] + ([xs[i]] + xs[i + 1..]);
    MapConcatAppend(f, xs[..i], [xs[i]] + xs[i + 1..]);
    assert ([xs[i]] + xs[i + 1..])[1..] == xs[i + 1..];
    var pre := MapConcat(f, xs[..i]);
    var whole := MapConcat(f, xs);
    assert OccursAt(f(xs[i]), whole, |pre|);
  }
}
