/**
 * The handful of JavaScript string operations the ledger relies on, on `seq<char>`:
 * `startsWith`, `includes`, `toLowerCase`, `trim`, `split`, `padStart`,
 * number-to-string conversion, `parseInt(x) || 0`, `Number(x) || 0` and the
 * default (code-unit) string comparison used by `Array.prototype.sort()`.
 */
module Strings {
  import opened Wrappers

  // ---------------------------------------------------------------- sequences

  /** A non-empty sequence is its front followed by its last element. */
  lemma SplitLast<T>(s: seq<T>)
    requires s != []
    ensures s == s[..|s| - 1] + [s[|s| - 1]]
  {
  }

  /** The position of the first occurrence of `x` in `s`. */
  function IndexOf<T(==)>(s: seq<T>, x: T): (i: int)
    requires x in s
    ensures 0 <= i < |s| && s[i] == x && x !in s[..i]
  {
    if s[0] == x then 0 else 1 + IndexOf(s[1..], x)
  }

  /** A prefix one longer is the shorter prefix followed by the next element. */
  lemma TakeOneMore<T>(s: seq<T>, i: int)
    requires 0 <= i < |s|
    ensures s[..i + 1] == s[..i] + [s[i]]
  {
  }

  /** `g` is `s` with some elements left out: the elements it keeps stay in their order. */
  ghost predicate Subsequence<T>(g: seq<T>, s: seq<T>)
    decreases |s|
  {
    if g == [] then true
    else if s == [] then false
    else (g[|g| - 1] == s[|s| - 1] && Subsequence(g[..|g| - 1], s[..|s| - 1])) || Subsequence(g, s[..|s| - 1])
  }

  /** A filter step: the next element of `s` is either kept at the end or left out. */
  lemma SubsequenceSnoc<T>(g: seq<T>, s: seq<T>, x: T, keep: bool)
    requires Subsequence(g, s)
    ensures Subsequence(g + (if keep then [x] else []), s + [x])
  {
    var s' := s + [x];
    assert s'[..|s'| - 1] == s && s'[|s'| - 1] == x;
    if keep {
      var g' := g + [x];
      assert g'[..|g'| - 1] == g && g'[|g'| - 1] == x;
      assert Subsequence(g', s');
    } else {
      assert g + [] == g;
      assert Subsequence(g, s');
    }
  }

  /**
   * One filter step keeps the count right: if `g` holds every occurrence in
   * `init` of the elements the filter admits (`admitted` says whether `c` is
   * one) and nothing else, so does `g` with `x` kept exactly when admitted.
   */
  lemma CountStep<T>(init: seq<T>, x: T, g: seq<T>, keep: bool, c: T, admitted: bool)
    requires c in init ==> multiset(g)[c] == if admitted then multiset(init)[c] else 0
    requires c !in init ==> multiset(g)[c] == 0
    requires c == x ==> (keep <==> admitted)
    ensures multiset(g + (if keep then [x] else []))[c] == if admitted then multiset(init + [x])[c] else 0
  {
    assert multiset(init + [x]) == multiset(init) + multiset{x};
    if keep {
      assert multiset(g + [x]) == multiset(g) + multiset{x};
    } else {
      assert g + [] == g;
    }
  }

  // ---------------------------------------------------------------- digits

  predicate IsDigit(c: char) { '0' <= c <= '9' }

  predicate AllDigits(s: string) { forall i | 0 <= i < |s| :: IsDigit(s[i]) }

  function DigitValue(c: char): nat
    requires IsDigit(c)
  {
    c as int - '0' as int
  }

  function DigitChar(d: nat): (c: char)
    requires d < 10
    ensures IsDigit(c) && DigitValue(c) == d
  {
    ('0' as int + d) as char
  }

  /** The value of a string of decimal digits ("" has value 0). */
  function DigitsValue(s: string): nat
    requires AllDigits(s)
  {
    if s == [] then 0 else DigitsValue(s[..|s| - 1]) * 10 + DigitValue(s[|s| - 1])
  }

  /** Decimal rendering of a natural number, as `n.toString()` and `${n}` produce it. */
  function NatToString(n: nat): (s: string)
    ensures |s| >= 1 && AllDigits(s)
    ensures n >= 10 ==> |s| >= 2
  {
    if n < 10 then [DigitChar(n)] else NatToString(n / 10) + [DigitChar(n % 10)]
  }

  /** Reading back a rendered number gives the number. */
  lemma {:induction false} NatToStringValue(n: nat)
    ensures DigitsValue(NatToString(n)) == n
  {
    if n >= 10 {
      NatToStringValue(n / 10);
      var s := NatToString(n);
      assert s[..|s| - 1] == NatToString(n / 10);
    }
  }

  lemma NatToStringInjective(m: nat, n: nat)
    ensures NatToString(m) == NatToString(n) ==> m == n
  {
    NatToStringValue(m);
    NatToStringValue(n);
  }

  /** Numbers below 10 render as one digit, numbers from 10 to 99 as two. */
  lemma {:induction false} NatToStringLength(n: nat)
    ensures n < 10 ==> |NatToString(n)| == 1
    ensures 10 <= n < 100 ==> |NatToString(n)| == 2
  {
    if n >= 10 {
      NatToStringLength(n / 10);
    }
  }

  /** The longest prefix of decimal digits (what `parseInt` reads). */
  function LeadingDigits(s: string): (p: string)
    ensures AllDigits(p) && |p| <= |s| && p == s[..|p|]
    ensures |p| < |s| ==> !IsDigit(s[|p|])
  {
    if s == [] || !IsDigit(s[0]) then [] else [s[0]] + LeadingDigits(s[1..])
  }

  /**
   * `parseInt(s) || 0` on strings that carry no sign and no leading blanks:
   * the value of the leading digits, 0 when there are none (NaN || 0).
   */
  function ParseIntOrZero(s: string): nat
  {
    DigitsValue(LeadingDigits(s))
  }

  /**
   * `Number(s) || 0` on strings that carry no sign, exponent or blanks: the value
   * when `s` is all digits (also 0 for ""), and 0 otherwise (NaN || 0).
   */
  function NumberOrZero(s: string): nat
  {
    if AllDigits(s) then DigitsValue(s) else 0
  }

  /** `parseInt(s)` on strings that carry no sign and no leading blanks: `None` stands for NaN (no leading digit). */
  function ParseInt(s: string): (r: Option<nat>)
    ensures r.None? <==> s == [] || !IsDigit(s[0])
    ensures r.Some? ==> r.value == ParseIntOrZero(s)
  {
    if LeadingDigits(s) == [] then None else Some(ParseIntOrZero(s))
  }

  /** `Number(s)` on the same strings: `None` stands for NaN; "" reads as 0. */
  function NumberValue(s: string): (r: Option<nat>)
    ensures r.None? <==> !AllDigits(s)
    ensures r.GetOr(0) == NumberOrZero(s)
  {
    if AllDigits(s) then Some(DigitsValue(s)) else None
  }

  lemma {:induction false} LeadingDigitsOfDigits(s: string)
    requires AllDigits(s)
    ensures LeadingDigits(s) == s
  {
    if s != [] {
      LeadingDigitsOfDigits(s[1..]);
    }
  }

  /** `parseInt` and `Number` both read back what `toString` wrote. */
  lemma ParseRendered(n: nat)
    ensures ParseIntOrZero(NatToString(n)) == n
    ensures NumberOrZero(NatToString(n)) == n
  {
    LeadingDigitsOfDigits(NatToString(n));
    NatToStringValue(n);
  }

  // ---------------------------------------------------------------- prefixes and substrings

  /** `s.startsWith(prefix)`. */
  predicate StartsWith(s: string, prefix: string)
  {
    |prefix| <= |s| && s[..|prefix|] == prefix
  }

  /** `sub` occurs in `s` at position `i`. */
  predicate OccursAt(s: string, sub: string, i: int)
  {
    0 <= i && i + |sub| <= |s| && s[i..i + |sub|] == sub
  }

  /** `s.includes(sub)`. */
  predicate Includes(s: string, sub: string)
  {
    exists i | 0 <= i <= |s| - |sub| :: OccursAt(s, sub, i)
  }

  function LowerChar(c: char): char
  {
    if 'A' <= c <= 'Z' then (c as int + 32) as char else c
  }

  /** `s.toLowerCase()` on the ASCII letters. */
  function ToLower(s: string): (r: string)
    ensures |r| == |s|
    ensures forall i | 0 <= i < |s| :: r[i] == LowerChar(s[i])
  {
    if s == [] then [] else [LowerChar(s[0])] + ToLower(s[1..])
  }

  // ---------------------------------------------------------------- trim

  /**
   * The blanks `String.prototype.trim` removes from the ends: the white space
   * of section 12.2 and the line terminators of section 12.3 of ECMA-262
   * (tab, vertical tab, form feed, the space separators of Unicode category
   * Zs, the byte order mark, line feed, carriage return, and the line and
   * paragraph separators).
   */
  predicate IsBlank(c: char)
  {
    var n := c as int;
    || n == 0x09 || n == 0x0A || n == 0x0B || n == 0x0C || n == 0x0D || n == 0x20
    || n == 0xA0 || n == 0x1680 || (0x2000 <= n <= 0x200A) || n == 0x2028 || n == 0x2029
    || n == 0x202F || n == 0x205F || n == 0x3000 || n == 0xFEFF
  }

  function TrimStart(s: string): (r: string)
    ensures |r| <= |s| && r == s[|s| - |r|..]
    ensures r != [] ==> !IsBlank(r[0])
    ensures forall i | 0 <= i < |s| - |r| :: IsBlank(s[i])
  {
    if s != [] && IsBlank(s[0]) then TrimStart(s[1..]) else s
  }

  function TrimEnd(s: string): (r: string)
    ensures |r| <= |s| && r == s[..|r|]
    ensures r != [] ==> !IsBlank(r[|r| - 1])
    ensures forall i | |r| <= i < |s| :: IsBlank(s[i])
  {
    if s != [] && IsBlank(s[|s| - 1]) then TrimEnd(s[..|s| - 1]) else s
  }

  /** `s.trim()`: `s` without its leading and trailing blanks. */
  function Trim(s: string): (r: string)
    ensures r != [] ==> !IsBlank(r[0]) && !IsBlank(r[|r| - 1])
    ensures r == [] <==> forall i | 0 <= i < |s| :: IsBlank(s[i])
    ensures exists k :: StrippedAt(s, r, k)
  {
    var t := TrimStart(s);
    var r := TrimEnd(t);
    TrimStripped(s, t, r);
    assert r != [] ==> r[0] == t[0];
    assert t != [] ==> t[0] == s[|s| - |t|];
    r
  }

  /**
   * Dropping blanks from the front of `s` (giving `t`) and then from the back
   * of `t` (giving `r`) keeps a piece of `s` with only blanks around it.
   */
  lemma TrimStripped(s: string, t: string, r: string)
    requires |t| <= |s| && t == s[|s| - |t|..] && forall i | 0 <= i < |s| - |t| :: IsBlank(s[i])
    requires |r| <= |t| && r == t[..|r|] && forall i | |r| <= i < |t| :: IsBlank(t[i])
    ensures StrippedAt(s, r, |s| - |t|)
  {
    var k := |s| - |t|;
    TrimMiddle(s, t, r, k);
    TrimTail(s, t, r, k);
  }

  lemma TrimMiddle(s: string, t: string, r: string, k: int)
    requires 0 <= k <= |s| && t == s[k..] && |r| <= |t| && r == t[..|r|]
    ensures k + |r| <= |s| && r == s[k..k + |r|]
  {
  }

  lemma TrimTail(s: string, t: string, r: string, k: int)
    requires 0 <= k <= |s| && t == s[k..] && |r| <= |t|
    requires forall i | |r| <= i < |t| :: IsBlank(t[i])
    ensures forall i | k + |r| <= i < |s| :: IsBlank(s[i])
  {
    forall i | k + |r| <= i < |s| ensures IsBlank(s[i]) {
      assert s[i] == t[i - k];
    }
  }

  /** `r` is the part of `s` from position `k` on, and everything of `s` before and after it is blank. */
  predicate StrippedAt(s: string, r: string, k: int)
  {
    && 0 <= k <= |s| - |r|
    && r == s[k..k + |r|]
    && (forall i | 0 <= i < k :: IsBlank(s[i]))
    && (forall i | k + |r| <= i < |s| :: IsBlank(s[i]))
  }

  /** Unicode space separators count as blanks: an ideographic space alone trims to "". */
  lemma TrimUnicodeSpace()
    ensures Trim("\U{3000}") == ""
  {
    assert IsBlank("\U{3000}"[0]);
  }

  // ---------------------------------------------------------------- split

  /** `s.split(sep)` for a one-character separator: "" splits into [""]. */
  function Split(s: string, sep: char): (parts: seq<string>)
    ensures |parts| >= 1
    ensures forall i | 0 <= i < |parts| :: sep !in parts[i]
  {
    if s == [] then [""]
    else
      var rest := Split(s[1..], sep);
      if s[0] == sep then [""] + rest
      else [[s[0]] + rest[0]] + rest[1..]
  }

  /** `parts.join(sep)`. */
  function Join(parts: seq<string>, sep: char): string
    requires |parts| >= 1
  {
    if |parts| == 1 then parts[0] else parts[0] + [sep] + Join(parts[1..], sep)
  }

  /** Splitting loses nothing: joining the parts gives the string back. */
  lemma {:induction false} SplitJoin(s: string, sep: char)
    ensures Join(Split(s, sep), sep) == s
  {
    if s != [] {
      SplitJoin(s[1..], sep);
      var rest := Split(s[1..], sep);
      if s[0] != sep {
        if |rest| == 1 {
          assert Split(s, sep) == [[s[0]] + rest[0]];
        } else {
          var parts := Split(s, sep);
          assert parts[1..] == rest[1..];
        }
      }
    }
  }

  lemma {:induction false} SplitNoSeparator(s: string, sep: char)
    requires sep !in s
    ensures Split(s, sep) == [s]
  {
    if s != [] {
      assert s[0] != sep && sep !in s[1..];
      SplitNoSeparator(s[1..], sep);
      assert [s[0]] + s[1..] == s;
    }
  }

  /** Appending a separator and a separator-free piece appends one part. */
  lemma {:induction false} SplitAppend(p: string, sep: char, t: string)
    requires sep !in t
    ensures Split(p + [sep] + t, sep) == Split(p, sep) + [t]
  {
    if p == [] {
      SplitNoSeparator(t, sep);
      assert p + [sep] + t == [sep] + t;
      assert ([sep] + t)[1..] == t;
    } else {
      SplitAppend(p[1..], sep, t);
      assert (p + [sep] + t)[1..] == p[1..] + [sep] + t;
    }
  }

  /** The first part of `s.split(sep)` is everything before the first separator. */
  lemma {:induction false} SplitFirst(a: string, sep: char, t: string)
    requires sep !in a
    ensures Split(a + [sep] + t, sep)[0] == a
  {
    if a != [] {
      assert (a + [sep] + t)[1..] == a[1..] + [sep] + t;
      SplitFirst(a[1..], sep, t);
      assert [a[0]] + a[1..] == a;
    } else {
      assert a + [sep] + t == [sep] + t;
    }
  }

  /** The last part of `s.split(sep)` (`parts[parts.length - 1]`). */
  function LastPart(s: string, sep: char): string
  {
    var parts := Split(s, sep);
    parts[|parts| - 1]
  }

  /** "2.1".split('.') has the parts "2" and "1". */
  lemma SplitExample()
    ensures Split("2.1", '.') == ["2", "1"]
    ensures LastPart("2.1", '.') == "1"
  {
    assert "2.1" == "2" + ['.'] + "1";
    assert '.' !in "1" && '.' !in "2";
    SplitNoSeparator("2", '.');
    SplitAppend("2", '.', "1");
  }

  // ---------------------------------------------------------------- padStart

  /** `s.padStart(2, '0')`. */
  function PadStart2(s: string): (r: string)
    ensures |s| >= 2 ==> r == s
    ensures |s| < 2 ==> |r| == 2 && r[2 - |s|..] == s && forall i | 0 <= i < 2 - |s| :: r[i] == '0'
  {
    if |s| >= 2 then s else if |s| == 1 then ['0'] + s else "00"
  }

  // ---------------------------------------------------------------- default string order

  /** `a < b` on strings, code unit by code unit (the order of `Array.prototype.sort()`). */
  predicate LexLess(a: string, b: string)
  {
    if a == [] then b != []
    else if b == [] then false
    else if a[0] != b[0] then a[0] < b[0]
    else LexLess(a[1..], b[1..])
  }

  lemma {:induction false} LexIrreflexive(a: string)
    ensures !LexLess(a, a)
  {
    if a != [] {
      LexIrreflexive(a[1..]);
    }
  }

  lemma {:induction false} LexTransitive(a: string, b: string, c: string)
    requires LexLess(a, b) && LexLess(b, c)
    ensures LexLess(a, c)
  {
    if a != [] && b != [] && c != [] && a[0] == b[0] && b[0] == c[0] {
      LexTransitive(a[1..], b[1..], c[1..]);
    }
  }

  lemma {:induction false} LexTotal(a: string, b: string)
    ensures a == b || LexLess(a, b) || LexLess(b, a)
  {
    if a != [] && b != [] && a[0] == b[0] {
      LexTotal(a[1..], b[1..]);
      if a[1..] == b[1..] {
        assert a == [a[0]] + a[1..] && b == [b[0]] + b[1..];
      }
    }
  }

  lemma {:induction false} LexAsymmetric(a: string, b: string)
    requires LexLess(a, b)
    ensures !LexLess(b, a)
  {
    if a != [] && b != [] && a[0] == b[0] {
      LexAsymmetric(a[1..], b[1..]);
    }
  }
}
