/** String primitives with the .NET semantics the chatbot relies on:
    `char.IsWhiteSpace`, `string.Trim`, `string.IsNullOrWhiteSpace`,
    `ToLower`/`ToUpper` (ASCII letters only), `string.Contains`,
    `string.StartsWith`, `string.Split(char)`, `int.TryParse` and `int.ToString`. */
module Text {
  import opened Wrappers

  /** Environment.NewLine on Windows, where the WPF application runs;
      `StringBuilder.AppendLine` and `string.Join(Environment.NewLine, ...)` use it. */
  const NewLine: string := "\r\n"

  const MinInt32: int := -0x8000_0000
  const MaxInt32: int := 0x7FFF_FFFF

  // ---------------------------------------------------------------- whitespace

  /** char.IsWhiteSpace for the Basic Multilingual Plane: the Unicode space,
      line and paragraph separators, U+0009..U+000D, U+0085 and U+00A0. */
  predicate IsWhiteSpace(c: char)
  {
    var n := c as int;
    (0x09 <= n <= 0x0D) || n == 0x20 || n == 0x85 || n == 0xA0 || n == 0x1680
    || (0x2000 <= n <= 0x200A) || n == 0x2028 || n == 0x2029 || n == 0x202F
    || n == 0x205F || n == 0x3000
  }

  /** string.IsNullOrWhiteSpace (a model string is never null). */
  predicate IsBlank(s: string)
  {
    forall i :: 0 <= i < |s| ==> IsWhiteSpace(s[i])
  }

  /** string.TrimStart(). */
  function TrimStart(s: string): (r: string)
    ensures |r| <= |s| && r == s[|s| - |r|..]
    ensures forall i :: 0 <= i < |s| - |r| ==> IsWhiteSpace(s[i])
    ensures r != [] ==> !IsWhiteSpace(r[0])
    decreases |s|
  {
    if |s| > 0 && IsWhiteSpace(s[0]) then TrimStart(s[1..]) else s
  }

  /** string.TrimEnd(). */
  function TrimEnd(s: string): (r: string)
    ensures |r| <= |s| && r == s[..|r|]
    ensures forall i :: |r| <= i < |s| ==> IsWhiteSpace(s[i])
    ensures r != [] ==> !IsWhiteSpace(r[|r| - 1])
    decreases |s|
  {
    if |s| > 0 && IsWhiteSpace(s[|s| - 1]) then TrimEnd(s[..|s| - 1]) else s
  }

  /** string.Trim(). */
  function Trim(s: string): (r: string)
    ensures |r| <= |s|
    ensures r != [] ==> !IsWhiteSpace(r[0]) && !IsWhiteSpace(r[|r| - 1])
    ensures r == [] <==> IsBlank(s)
  {
    TrimEnd(TrimStart(s))
  }

  /** What Trim removes is whitespace, and what it keeps is one contiguous piece of `s`. */
  lemma TrimIsInfix(s: string) returns (a: nat)
    ensures a + |Trim(s)| <= |s| && Trim(s) == s[a..a + |Trim(s)|]
    ensures forall i :: 0 <= i < a ==> IsWhiteSpace(s[i])
    ensures forall i :: a + |Trim(s)| <= i < |s| ==> IsWhiteSpace(s[i])
  {
    var t := TrimStart(s);
    var r := TrimEnd(t);
    a := |s| - |t|;
    assert Trim(s) == r;
    SliceOfSuffix(s, a, |r|);
    WhiteTailOfSuffix(s, t, a, |r|);
  }

  /** A prefix of a suffix is an infix. */
  lemma SliceOfSuffix<T>(s: seq<T>, a: nat, n: nat)
    requires a + n <= |s|
    ensures s[a..][..n] == s[a..a + n]
  {
  }

  /** Whitespace at the end of a suffix is whitespace at the end of the string. */
  lemma WhiteTailOfSuffix(s: string, t: string, a: nat, n: nat)
    requires a <= |s| && t == s[a..] && n <= |t|
    requires forall i :: n <= i < |t| ==> IsWhiteSpace(t[i])
    ensures forall i :: a + n <= i < |s| ==> IsWhiteSpace(s[i])
  {
    forall i | a + n <= i < |s| ensures IsWhiteSpace(s[i]) {
      assert s[i] == t[i - a];
    }
  }

  /** A single character that is not whitespace is its own trimmed form. */
  lemma TrimOne(c: char)
    requires !IsWhiteSpace(c)
    ensures Trim([c]) == [c]
  {
    assert TrimStart([c]) == [c];
  }

  lemma TrimIdempotent(s: string)
    ensures Trim(Trim(s)) == Trim(s)
  {
    var r := Trim(s);
    assert TrimStart(r) == r;
    assert TrimEnd(r) == r;
  }

  /** Surrounding whitespace does not change the trimmed string. */
  lemma {:induction false} TrimIgnoresPadding(w1: string, s: string, w2: string)
    requires IsBlank(w1) && IsBlank(w2)
    ensures Trim(w1 + s + w2) == Trim(s)
  {
    TrimStartPadding(w1, s + w2);
    assert w1 + s + w2 == w1 + (s + w2);
    if IsBlank(s) {
      assert IsBlank(s + w2);
      assert Trim(s + w2) == [];
    } else {
      TrimStartKeepsTail(s, w2);
      TrimEndPadding(TrimStart(s), w2);
    }
  }

  lemma {:induction false} TrimStartPadding(w: string, s: string)
    requires IsBlank(w)
    ensures TrimStart(w + s) == TrimStart(s)
    decreases |w|
  {
    if w == [] {
      assert w + s == s;
    } else {
      assert (w + s)[1..] == w[1..] + s;
      TrimStartPadding(w[1..], s);
    }
  }

  lemma {:induction false} TrimStartKeepsTail(s: string, w: string)
    requires !IsBlank(s)
    ensures TrimStart(s + w) == TrimStart(s) + w
    decreases |s|
  {
    if IsWhiteSpace(s[0]) {
      assert (s + w)[1..] == s[1..] + w;
      TrimStartKeepsTail(s[1..], w);
    }
  }

  lemma {:induction false} TrimEndPadding(s: string, w: string)
    requires IsBlank(w)
    ensures TrimEnd(s + w) == TrimEnd(s)
    decreases |w|
  {
    if w == [] {
      assert s + w == s;
    } else {
      assert (s + w)[..|s + w| - 1] == s + w[..|w| - 1];
      TrimEndPadding(s, w[..|w| - 1]);
    }
  }

  // ---------------------------------------------------------------- letter case

  /** Lower-cases an ASCII capital; every other character is kept. */
  function ToLowerChar(c: char): char
  {
    if 'A' <= c <= 'Z' then (c as int + 32) as char else c
  }

  /** Upper-cases an ASCII small letter; every other character is kept. */
  function ToUpperChar(c: char): char
  {
    if 'a' <= c <= 'z' then (c as int - 32) as char else c
  }

  /** string.ToLower(), restricted to ASCII letters. */
  function ToLower(s: string): (r: string)
    ensures |r| == |s|
    ensures forall i :: 0 <= i < |s| ==> r[i] == ToLowerChar(s[i])
  {
    seq(|s|, i requires 0 <= i < |s| => ToLowerChar(s[i]))
  }

  /** string.ToUpper(), restricted to ASCII letters. */
  function ToUpper(s: string): (r: string)
    ensures |r| == |s|
    ensures forall i :: 0 <= i < |s| ==> r[i] == ToUpperChar(s[i])
  {
    seq(|s|, i requires 0 <= i < |s| => ToUpperChar(s[i]))
  }

  /** An ASCII capital and its small letter: neither is whitespace, and
      upper-casing the small letter gives the capital back. */
  lemma CapitalFacts(c: char)
    requires 'A' <= c <= 'Z'
    ensures var l := ToLowerChar(c);
      && 'a' <= l <= 'z' && ToUpperChar(l) == c && ToUpperChar(c) == c
      && !IsWhiteSpace(c) && !IsWhiteSpace(l)
  {
    var n := c as int;
    var l := ToLowerChar(c);
    assert l == (n + 32) as char;
    assert l as int == n + 32;
    assert ToUpperChar(l) == (n as char);
  }

  /** Upper-casing a single character. */
  lemma ToUpperOne(c: char)
    ensures ToUpper([c]) == [ToUpperChar(c)]
  {
  }

  /** A string without ASCII capitals is its own lower-case form. */
  lemma ToLowerNoCapitals(s: string)
    requires forall i :: 0 <= i < |s| ==> !('A' <= s[i] <= 'Z')
    ensures ToLower(s) == s
  {
  }

  /** Lower-casing neither creates nor removes whitespace. */
  lemma ToLowerCharWhite(c: char)
    ensures IsWhiteSpace(ToLowerChar(c)) == IsWhiteSpace(c)
  {
  }

  lemma ToLowerIdempotent(s: string)
    ensures ToLower(ToLower(s)) == ToLower(s)
  {
  }

  /** Lower-casing forgets what upper-casing did. */
  lemma ToLowerOfToUpper(s: string)
    ensures ToLower(ToUpper(s)) == ToLower(s)
  {
  }

  lemma ToUpperOfToLower(s: string)
    ensures ToUpper(ToLower(s)) == ToUpper(s)
  {
  }

  lemma ToLowerConcat(a: string, b: string)
    ensures ToLower(a + b) == ToLower(a) + ToLower(b)
  {
  }

  /** Lower-casing commutes with trimming, since no letter is whitespace. */
  lemma TrimOfToLower(s: string)
    ensures Trim(ToLower(s)) == ToLower(Trim(s))
  {
    TrimStartOfToLower(s);
    TrimEndOfToLower(TrimStart(s));
  }

  lemma {:induction false} TrimStartOfToLower(s: string)
    ensures TrimStart(ToLower(s)) == ToLower(TrimStart(s))
    decreases |s|
  {
    if |s| > 0 {
      assert ToLower(s)[1..] == ToLower(s[1..]);
      ToLowerCharWhite(s[0]);
      TrimStartOfToLower(s[1..]);
    }
  }

  lemma {:induction false} TrimEndOfToLower(s: string)
    ensures TrimEnd(ToLower(s)) == ToLower(TrimEnd(s))
    decreases |s|
  {
    if |s| > 0 {
      assert ToLower(s)[..|s| - 1] == ToLower(s[..|s| - 1]);
      ToLowerCharWhite(s[|s| - 1]);
      TrimEndOfToLower(s[..|s| - 1]);
    }
  }

  // ---------------------------------------------------------------- substrings

  /** string.StartsWith (ordinal). */
  predicate StartsWith(s: string, prefix: string)
  {
    |prefix| <= |s| && s[..|prefix|] == prefix
  }

  /** `sub` occurs in `s` at offset `i`. */
  predicate OccursAt(s: string, sub: string, i: nat)
  {
    i + |sub| <= |s| && s[i..i + |sub|] == sub
  }

  /** string.Contains (ordinal): `sub` occurs in `s` at some offset. */
  predicate Contains(s: string, sub: string)
  {
    exists i: nat | i <= |s| :: OccursAt(s, sub, i)
  }

  /** An occurrence at offset `i` makes `Contains` true. */
  lemma ContainsAt(s: string, sub: string, i: nat)
    requires i + |sub| <= |s| && s[i..i + |sub|] == sub
    ensures Contains(s, sub)
  {
    assert OccursAt(s, sub, i);
  }

  /** A string contains each of the pieces it is made of. */
  lemma ContainsInfix(a: string, b: string, c: string)
    ensures Contains(a + b + c, b)
  {
    var s := a + b + c;
    assert s[|a|..|a| + |b|] == b;
    ContainsAt(s, b, |a|);
  }

  /** `Contains` is true only because of an occurrence at some offset. */
  lemma ContainsWitness(s: string, sub: string) returns (i: nat)
    requires Contains(s, sub)
    ensures i + |sub| <= |s| && s[i..i + |sub|] == sub
  {
    i :| i <= |s| && OccursAt(s, sub, i);
  }

  /** Every character of an occurring needle is a character of the haystack. */
  lemma ContainsHasChar(s: string, sub: string, j: nat)
    requires Contains(s, sub) && j < |sub|
    ensures sub[j] in s
  {
    var i := ContainsWitness(s, sub);
    assert s[i..i + |sub|][j] == s[i + j];
  }

  /** A needle with a character the haystack lacks does not occur in it. */
  lemma NotContainsMissingChar(s: string, sub: string, c: char)
    requires c in sub && c !in s
    ensures !Contains(s, sub)
  {
    if Contains(s, sub) {
      var j :| 0 <= j < |sub| && sub[j] == c;
      ContainsHasChar(s, sub, j);
    }
  }

  /** A needle longer than the haystack does not occur in it. */
  lemma NotContainsLonger(s: string, sub: string)
    requires |sub| > |s|
    ensures !Contains(s, sub)
  {
    if Contains(s, sub) {
      var i := ContainsWitness(s, sub);
      assert false;
    }
  }

  /** Some phrase of `phrases` occurs in `s`. */
  function AnyContained(s: string, phrases: seq<string>): (b: bool)
    ensures b <==> exists i :: 0 <= i < |phrases| && Contains(s, phrases[i])
  {
    if phrases == [] then false
    else
      var rest := phrases[1..];
      assert forall i :: 1 <= i < |phrases| ==> phrases[i] == rest[i - 1];
      Contains(s, phrases[0]) || AnyContained(s, rest)
  }

  /** The position of the first group in `groups` with a phrase occurring in
      `s`, or |groups| when no group has one: the branch an if / else-if chain
      of `Contains` tests takes. */
  function FirstContaining(s: string, groups: seq<seq<string>>): (k: nat)
    ensures k <= |groups|
    ensures k < |groups| ==> AnyContained(s, groups[k])
    ensures forall j :: 0 <= j < k ==> !AnyContained(s, groups[j])
  {
    if groups == [] then 0
    else if AnyContained(s, groups[0]) then 0
    else
      var rest := groups[1..];
      assert forall j :: 1 <= j < |groups| ==> groups[j] == rest[j - 1];
      1 + FirstContaining(s, rest)
  }

  /** The chain takes branch k exactly when group k matches and no earlier
      group does. */
  lemma FirstContainingIs(s: string, groups: seq<seq<string>>, k: nat)
    requires k < |groups|
    ensures FirstContaining(s, groups) == k <==>
      AnyContained(s, groups[k]) && forall j :: 0 <= j < k ==> !AnyContained(s, groups[j])
  {
  }

  // ---------------------------------------------------------------- splitting

  /** string.Split(sep): the pieces between separators, empty pieces included. */
  function Split(s: string, sep: char): (parts: seq<string>)
    ensures |parts| >= 1
    decreases |s|
  {
    if |s| == 0 then [""] else SplitCons(s[0], sep, Split(s[1..], sep))
  }

  /** The pieces of `[c] + t` from the pieces `rest` of `t`: a separator starts
      a new empty piece, any other character joins the first one. */
  function SplitCons(c: char, sep: char, rest: seq<string>): (parts: seq<string>)
    requires |rest| >= 1
    ensures |parts| >= 1
  {
    if c == sep then [""] + rest else [[c] + rest[0]] + rest[1..]
  }

  /** Later pieces pass through the step unchanged. */
  lemma SplitConsAppend(c: char, sep: char, ra: seq<string>, rb: seq<string>)
    requires |ra| >= 1
    ensures SplitCons(c, sep, ra + rb) == SplitCons(c, sep, ra) + rb
  {
    if c != sep {
      assert (ra + rb)[0] == ra[0] && (ra + rb)[1..] == ra[1..] + rb;
    }
  }

  /** No piece holds the separator. */
  lemma {:induction false} SplitPiecesLackSep(s: string, sep: char)
    ensures forall i :: 0 <= i < |Split(s, sep)| ==> sep !in Split(s, sep)[i]
    decreases |s|
  {
    if |s| > 0 {
      var rest := Split(s[1..], sep);
      SplitPiecesLackSep(s[1..], sep);
      if s[0] != sep {
        var parts := [[s[0]] + rest[0]] + rest[1..];
        assert Split(s, sep) == parts;
        forall i | 0 <= i < |parts| ensures sep !in parts[i] {
          if i > 0 {
            assert parts[i] == rest[i];
          }
        }
      }
    }
  }

  /** string.Join(sep, parts). */
  function Join(parts: seq<string>, sep: string): string
    decreases |parts|
  {
    if |parts| == 0 then ""
    else if |parts| == 1 then parts[0]
    else parts[0] + sep + Join(parts[1..], sep)
  }

  /** Joining one more part adds the separator and that part at the end. */
  lemma {:induction false} JoinAppend(parts: seq<string>, p: string, sep: string)
    requires |parts| > 0
    ensures Join(parts + [p], sep) == Join(parts, sep) + sep + p
    decreases |parts|
  {
    if |parts| == 1 {
      assert (parts + [p])[1..] == [p];
    } else {
      assert (parts + [p])[1..] == parts[1..] + [p];
      JoinAppend(parts[1..], p, sep);
    }
  }

  /** Regrouping a concatenation of three strings. */
  lemma AppendAssoc(a: string, b: string, c: string)
    ensures (a + b) + c == a + (b + c)
  {
  }

  /** The parts written one after another, as a StringBuilder fills up. */
  function Concat(parts: seq<string>): string
  {
    if parts == [] then "" else Concat(parts[..|parts| - 1]) + parts[|parts| - 1]
  }

  /** Concatenation distributes over joining two runs of parts. */
  lemma {:induction false} ConcatSplit(a: seq<string>, b: seq<string>)
    ensures Concat(a + b) == Concat(a) + Concat(b)
    decreases |b|
  {
    if b == [] {
      assert a + b == a;
    } else {
      var b' := b[..|b| - 1];
      assert (a + b)[..|a + b| - 1] == a + b';
      assert Concat(a + b) == Concat(a + b') + b[|b| - 1];
      ConcatSplit(a, b');
      assert Concat(b) == Concat(b') + b[|b| - 1];
    }
  }

  /** Part i sits between the parts before it and the parts after it. */
  lemma ConcatAt(parts: seq<string>, i: nat)
    requires i < |parts|
    ensures Concat(parts) == Concat(parts[..i]) + parts[i] + Concat(parts[i + 1..])
  {
    assert parts == parts[..i + 1] + parts[i + 1..];
    ConcatSplit(parts[..i + 1], parts[i + 1..]);
    ConcatPrefix(parts, i);
  }

  /** Appending one more part, the StringBuilder step. */
  lemma ConcatPrefix(parts: seq<string>, i: nat)
    requires i < |parts|
    ensures Concat(parts[..i + 1]) == Concat(parts[..i]) + parts[i]
  {
    assert parts[..i + 1][..i] == parts[..i];
  }

  /** A string without the separator is one piece. */
  lemma {:induction false} SplitNoSep(s: string, sep: char)
    requires sep !in s
    ensures Split(s, sep) == [s]
    decreases |s|
  {
    if |s| > 0 {
      assert sep !in s[1..] by {
        forall i | 0 <= i < |s[1..]| ensures s[1..][i] != sep {
          assert s[1..][i] == s[i + 1];
        }
      }
      SplitNoSep(s[1..], sep);
      assert [s[0]] + s[1..] == s;
    }
  }

  /** A separator between two strings splits their pieces apart. */
  lemma {:induction false} SplitAround(a: string, b: string, sep: char)
    ensures Split(a + [sep] + b, sep) == Split(a, sep) + Split(b, sep)
    decreases |a|
  {
    var s := a + [sep] + b;
    if |a| == 0 {
      assert s == [sep] + b && s[1..] == b;
    } else {
      assert s[0] == a[0] && s[1..] == a[1..] + [sep] + b;
      assert s[|a| + 1..] == b;
      SplitAround(a[1..], b, sep);
      SplitConsAppend(a[0], sep, Split(a[1..], sep), Split(b, sep));
    }
  }

  /** Splitting loses nothing: joining the pieces back gives the input. */
  lemma {:induction false} JoinSplit(s: string, sep: char)
    ensures Join(Split(s, sep), [sep]) == s
    decreases |s|
  {
    if |s| > 0 {
      var rest := Split(s[1..], sep);
      JoinSplit(s[1..], sep);
      if s[0] == sep {
        assert Split(s, sep) == [""] + rest;
        assert ([""] + rest)[1..] == rest;
      } else {
        var parts := [[s[0]] + rest[0]] + rest[1..];
        assert Split(s, sep) == parts;
        if |rest| == 1 {
          assert Join(parts, [sep]) == [s[0]] + rest[0];
        } else {
          assert parts[1..] == rest[1..];
          assert Join(rest, [sep]) == rest[0] + [sep] + Join(rest[1..], [sep]);
        }
      }
    }
  }

  // ---------------------------------------------------------------- integers

  predicate IsDigit(c: char)
  {
    '0' <= c <= '9'
  }

  predicate AllDigits(s: string)
  {
    forall i :: 0 <= i < |s| ==> IsDigit(s[i])
  }

  /** The whitespace `int.TryParse` skips around a number: U+0009..U+000D and U+0020. */
  predicate IsNumberWhite(c: char)
  {
    c == ' ' || ('\t' <= c <= '\r')
  }

  /** Drops the number whitespace before and after `s`. */
  function TrimNumberWhite(s: string): (r: string)
    ensures |r| <= |s|
    ensures (s != [] && !IsNumberWhite(s[0]) && !IsNumberWhite(s[|s| - 1])) ==> r == s
    decreases |s|
  {
    if |s| > 0 && IsNumberWhite(s[0]) then TrimNumberWhite(s[1..])
    else if |s| > 0 && IsNumberWhite(s[|s| - 1]) then TrimNumberWhite(s[..|s| - 1])
    else s
  }

  function DigitChar(d: nat): (c: char)
    requires d < 10
    ensures IsDigit(c)
  {
    ('0' as int + d) as char
  }

  /** The decimal value of a run of digits, most significant first. */
  function DigitsValue(s: string): nat
    requires AllDigits(s)
    decreases |s|
  {
    if s == [] then 0
    else DigitsValue(s[..|s| - 1]) * 10 + (s[|s| - 1] as int - '0' as int)
  }

  /** int.ToString() of a non-negative value. */
  function NatToString(n: nat): (r: string)
    ensures |r| >= 1 && AllDigits(r)
    decreases n
  {
    if n < 10 then [DigitChar(n)] else NatToString(n / 10) + [DigitChar(n % 10)]
  }

  /** int.ToString() (invariant culture). */
  function IntToString(i: int): string
  {
    if i < 0 then "-" + NatToString(-i) else NatToString(i)
  }

  /** int.TryParse(s, out v) with NumberStyles.Integer and the invariant culture:
      optional surrounding number whitespace, one optional sign, at least one
      digit, and a value that fits in 32 bits; `None` where TryParse returns false. */
  function ParseInt(s: string): (r: Option<int>)
    ensures r.Some? ==> MinInt32 <= r.value <= MaxInt32
  {
    var t := TrimNumberWhite(s);
    if |t| == 0 then None
    else
      var body := if t[0] == '-' || t[0] == '+' then t[1..] else t;
      if |body| == 0 || !AllDigits(body) then None
      else
        var magnitude: int := DigitsValue(body);
        var v := if t[0] == '-' then -magnitude else magnitude;
        if MinInt32 <= v <= MaxInt32 then Some(v) else None
  }

  lemma {:induction false} DigitsValueOfNatToString(n: nat)
    ensures DigitsValue(NatToString(n)) == n
    decreases n
  {
    if n >= 10 {
      var r := NatToString(n);
      assert r[..|r| - 1] == NatToString(n / 10);
      DigitsValueOfNatToString(n / 10);
    }
  }

  /** Round trip: TryParse reads back what ToString wrote, for every 32-bit value. */
  lemma ParseIntOfIntToString(i: int)
    requires MinInt32 <= i <= MaxInt32
    ensures ParseInt(IntToString(i)) == Some(i)
  {
    var s := IntToString(i);
    var digits := if i < 0 then NatToString(-i) else NatToString(i);
    assert !IsNumberWhite(s[0]) && !IsNumberWhite(s[|s| - 1]);
    DigitsValueOfNatToString(if i < 0 then -i else i);
    if i < 0 {
      assert s[1..] == digits;
    }
  }

  function Pow10(k: nat): nat
  {
    if k == 0 then 1 else 10 * Pow10(k - 1)
  }

  /** A number below 10^k has at most k digits. */
  lemma {:induction false} NatToStringShort(n: nat, k: nat)
    requires 1 <= k && n < Pow10(k)
    ensures |NatToString(n)| <= k
    decreases k
  {
    if n >= 10 {
      assert k >= 2;
      NatToStringShort(n / 10, k - 1);
    }
  }

  /** `k` zero digits. */
  function Zeros(k: nat): (r: string)
    ensures |r| == k && AllDigits(r)
  {
    seq(k, _ => '0')
  }

  /** A number written with leading zeros up to `width` digits, as the custom
      date formats "yyyy", "MM", "dd", "HH" and "mm" write their fields. */
  function ZeroPad(n: nat, width: nat): (r: string)
    ensures |r| >= width && AllDigits(r)
  {
    var digits := NatToString(n);
    if |digits| < width then Zeros(width - |digits|) + digits else digits
  }

  lemma {:induction false} DigitsValueLeadingZeros(k: nat, s: string)
    requires AllDigits(s)
    ensures AllDigits(Zeros(k) + s) && DigitsValue(Zeros(k) + s) == DigitsValue(s)
    decreases |s|
  {
    var z := Zeros(k);
    if s == [] {
      assert z + s == z;
      AllZerosValue(k);
    } else {
      assert (z + s)[..|z + s| - 1] == z + s[..|s| - 1];
      DigitsValueLeadingZeros(k, s[..|s| - 1]);
    }
  }

  lemma {:induction false} AllZerosValue(k: nat)
    ensures DigitsValue(Zeros(k)) == 0
    decreases k
  {
    if k > 0 {
      assert Zeros(k)[..k - 1] == Zeros(k - 1);
      AllZerosValue(k - 1);
    }
  }

  /** Padding never changes the number that is written. */
  lemma ZeroPadValue(n: nat, width: nat)
    ensures DigitsValue(ZeroPad(n, width)) == n
  {
    var digits := NatToString(n);
    DigitsValueOfNatToString(n);
    if |digits| < width {
      assert ZeroPad(n, width) == Zeros(width - |digits|) + digits;
      DigitsValueLeadingZeros(width - |digits|, digits);
    } else {
      assert ZeroPad(n, width) == digits;
    }
  }
}
