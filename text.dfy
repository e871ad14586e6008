/** The JavaScript string operations the core relies on: `trim`, `toLowerCase`,
    `startsWith`, `split(',')`, `join`, substring search and `parseInt(s, 10)`. */
module Text {
  import opened Common

  /** The characters `String.prototype.trim` and `parseInt` skip: ECMAScript's
      WhiteSpace and LineTerminator code points. */
  predicate IsWhitespace(c: char) {
    c in WhitespaceChars || ('\U{2000}' <= c <= '\U{200A}')
  }

  /** The whitespace characters outside the range U+2000 to U+200A. */
  const WhitespaceChars: set<char> := {
    '\t', '\n', '\U{B}', '\U{C}', '\r', ' ', '\U{A0}', '\U{1680}',
    '\U{2028}', '\U{2029}', '\U{202F}', '\U{205F}', '\U{3000}', '\U{FEFF}'}

  /** `s` neither starts nor ends with whitespace. */
  predicate IsTrimmed(s: string) {
    s == [] || (!IsWhitespace(s[0]) && !IsWhitespace(s[|s| - 1]))
  }

  /** The end of the run of whitespace in `s` that starts at position `k`. */
  function WhitespaceRunEnd(s: string, k: nat): (n: nat)
    requires k <= |s|
    ensures k <= n <= |s|
    ensures forall i :: k <= i < n ==> IsWhitespace(s[i])
    ensures n == |s| || !IsWhitespace(s[n])
    decreases |s| - k
  {
    if k < |s| && IsWhitespace(s[k]) then WhitespaceRunEnd(s, k + 1) else k
  }

  /** The start of the run of whitespace in `s` that ends just before position `k`. */
  function WhitespaceRunStart(s: string, k: nat): (n: nat)
    requires k <= |s|
    ensures n <= k
    ensures forall i :: n <= i < k ==> IsWhitespace(s[i])
    ensures n == 0 || !IsWhitespace(s[n - 1])
  {
    if k > 0 && IsWhitespace(s[k - 1]) then WhitespaceRunStart(s, k - 1) else k
  }

  /** `s` with its leading whitespace removed (`trimStart`). */
  function TrimStart(s: string): (r: string)
    ensures |r| <= |s| && r == s[|s| - |r|..]
    ensures forall i :: 0 <= i < |s| - |r| ==> IsWhitespace(s[i])
    ensures r == [] || !IsWhitespace(r[0])
  {
    s[WhitespaceRunEnd(s, 0)..]
  }

  /** `s` with its trailing whitespace removed (`trimEnd`). */
  function TrimEnd(s: string): (r: string)
    ensures |r| <= |s| && r == s[..|r|]
    ensures forall i :: |r| <= i < |s| ==> IsWhitespace(s[i])
    ensures r == [] || !IsWhitespace(r[|r| - 1])
  {
    s[..WhitespaceRunStart(s, |s|)]
  }

  /** `String.prototype.trim`: drops whitespace at both ends and keeps the middle. The
      result is the slice of `s` between its leading and its trailing whitespace, so it
      is the input itself when the input has no surrounding whitespace. */
  function Trim(s: string): (r: string)
    ensures IsTrimmed(r)
    ensures var a := |s| - |TrimStart(s)|; a + |r| <= |s| && r == s[a..a + |r|]
    ensures WhitespaceOutside(s, |s| - |TrimStart(s)|, |r|)
  {
    var t := TrimStart(s);
    TrimParts(s, |s| - |t|, t, TrimEnd(t));
    TrimEnd(t)
  }

  /** Every character of `s` before position `a` or from position `a + n` on is whitespace. */
  predicate WhitespaceOutside(s: string, a: int, n: int) {
    forall i :: 0 <= i < |s| && (i < a || a + n <= i) ==> IsWhitespace(s[i])
  }

  /** Removing the leading whitespace of `s` (leaving `t`, from position `a`) and then the
      trailing whitespace of `t` (leaving `r`) leaves the slice of `s` between the two. */
  lemma TrimParts(s: string, a: nat, t: string, r: string)
    requires a <= |s| && t == s[a..] && forall i :: 0 <= i < a ==> IsWhitespace(s[i])
    requires t == [] || !IsWhitespace(t[0])
    requires |r| <= |t| && r == t[..|r|] && forall i :: |r| <= i < |t| ==> IsWhitespace(t[i])
    requires r == [] || !IsWhitespace(r[|r| - 1])
    ensures IsTrimmed(r)
    ensures a + |r| <= |s| && r == s[a..a + |r|]
    ensures WhitespaceOutside(s, a, |r|)
  {
    assert r != [] ==> r[0] == t[0];
    TrailingWhitespace(s, a, t, |r|);
  }

  /** Whitespace at the end of a suffix `t == s[a..]` is whitespace at the end of `s`. */
  lemma TrailingWhitespace(s: string, a: nat, t: string, n: nat)
    requires a <= |s| && t == s[a..] && n <= |t|
    requires forall i :: n <= i < |t| ==> IsWhitespace(t[i])
    ensures t[..n] == s[a..a + n]
    ensures forall i :: a + n <= i < |s| ==> IsWhitespace(s[i])
  {
    forall i | a + n <= i < |s|
      ensures IsWhitespace(s[i])
    {
      assert s[i] == t[i - a];
    }
  }

  /** Lower-casing never turns a character into whitespace or whitespace into something else. */
  lemma LowerCharWhitespace(c: char)
    ensures IsWhitespace(LowerChar(c)) <==> IsWhitespace(c)
  {
  }

  /** Trimming a string that has no whitespace at its ends changes nothing. */
  lemma {:induction false} TrimOfTrimmed(s: string)
    requires IsTrimmed(s)
    ensures Trim(s) == s
  {
  }

  /** Trimming is idempotent. */
  lemma TrimIdempotent(s: string)
    ensures Trim(Trim(s)) == Trim(s)
  {
    TrimOfTrimmed(Trim(s));
  }

  /** A string made of whitespace only trims to the empty string. */
  lemma {:induction false} TrimAllWhitespace(s: string)
    requires forall i :: 0 <= i < |s| ==> IsWhitespace(s[i])
    ensures Trim(s) == ""
  {
  }

  /** `toLowerCase` on one character; only the ASCII letters A-Z are folded. */
  function LowerChar(c: char): (d: char)
    ensures !('A' <= d <= 'Z')
    ensures ('A' <= c <= 'Z') ==> d as int == c as int + 32 && 'a' <= d <= 'z'
    ensures !('A' <= c <= 'Z') ==> d == c
  {
    if 'A' <= c <= 'Z' then (c as int + 32) as char else c
  }

  /** `String.prototype.toLowerCase`, restricted to ASCII letters. */
  function ToLower(s: string): (r: string)
    ensures |r| == |s|
    ensures forall i :: 0 <= i < |s| ==> r[i] == LowerChar(s[i])
  {
    seq(|s|, i requires 0 <= i < |s| => LowerChar(s[i]))
  }

  /** Lower-casing is idempotent. */
  lemma ToLowerIdempotent(s: string)
    ensures ToLower(ToLower(s)) == ToLower(s)
  {
  }

  /** Whitespace is left alone by lower-casing, so trimming and lower-casing commute. */
  lemma {:induction false} TrimToLowerCommute(s: string)
    ensures Trim(ToLower(s)) == ToLower(Trim(s))
  {
    TrimStartToLower(s);
    TrimEndToLower(TrimStart(s));
  }

  lemma TrimStartToLower(s: string)
    ensures TrimStart(ToLower(s)) == ToLower(TrimStart(s))
  {
    RunEndToLower(s, 0);
  }

  lemma TrimEndToLower(s: string)
    ensures TrimEnd(ToLower(s)) == ToLower(TrimEnd(s))
  {
    RunStartToLower(s, |s|);
  }

  /** Lower-casing keeps the runs of whitespace where they are. */
  lemma {:induction false} RunEndToLower(s: string, k: nat)
    requires k <= |s|
    ensures WhitespaceRunEnd(ToLower(s), k) == WhitespaceRunEnd(s, k)
    decreases |s| - k
  {
    if k < |s| {
      LowerCharWhitespace(s[k]);
      RunEndToLower(s, k + 1);
    }
  }

  lemma {:induction false} RunStartToLower(s: string, k: nat)
    requires k <= |s|
    ensures WhitespaceRunStart(ToLower(s), k) == WhitespaceRunStart(s, k)
  {
    if k > 0 {
      LowerCharWhitespace(s[k - 1]);
      RunStartToLower(s, k - 1);
    }
  }

  /** `dto.email.trim().toLowerCase()`, the normal form in which e-mail addresses are
      compared and stored, with the lower-casing restricted to ASCII letters. */
  function NormalizeEmail(s: string): (r: string)
    ensures IsTrimmed(r)
    ensures forall i :: 0 <= i < |r| ==> !('A' <= r[i] <= 'Z')
    ensures |r| == |Trim(s)| && forall i :: 0 <= i < |r| ==> r[i] == LowerChar(Trim(s)[i])
  {
    TrimToLowerCommute(s);
    ToLower(Trim(s))
  }

  /** An address already in normal form is its own normal form, so storing the normal
      form and normalising it again agree. */
  lemma NormalizeEmailIdempotent(s: string)
    ensures NormalizeEmail(NormalizeEmail(s)) == NormalizeEmail(s)
  {
    var r := NormalizeEmail(s);
    TrimOfTrimmed(r);
    TrimToLowerCommute(r);
    assert ToLower(ToLower(Trim(s))) == ToLower(Trim(s));
  }

  /** `s.startsWith(prefix)`. */
  predicate StartsWith(s: string, prefix: string) {
    |prefix| <= |s| && s[..|prefix|] == prefix
  }

  /** `needle` occurs in `haystack` as a contiguous substring (SQL `LIKE '%needle%'`
      without wildcard characters in the needle). */
  predicate Contains(haystack: string, needle: string) {
    exists i | 0 <= i <= |haystack| - |needle| :: OccursAt(haystack, needle, i)
  }

  /** `value ILIKE '%term%'`: the term occurs in the value, ASCII letters compared without
      regard to case. */
  predicate ILike(value: string, term: string) {
    Contains(ToLower(value), ToLower(term))
  }

  predicate OccursAt(haystack: string, needle: string, i: int) {
    0 <= i <= |haystack| - |needle| && haystack[i..i + |needle|] == needle
  }

  /** Number of occurrences of `c` in `s`. */
  function Count(s: string, c: char): nat {
    if s == [] then 0 else (if s[0] == c then 1 else 0) + Count(s[1..], c)
  }

  /** `s.split(sep)` for a one-character separator: the pieces between separators, in
      order; the empty string splits into one empty piece. */
  function Split(s: string, sep: char): (r: seq<string>)
    ensures |r| == Count(s, sep) + 1
    ensures forall i :: 0 <= i < |r| ==> sep !in r[i]
    decreases |s|
  {
    if s == [] then [""]
    else
      var rest := Split(s[1..], sep);
      if s[0] == sep then [""] + rest
      else [[s[0]] + rest[0]] + rest[1..]
  }

  /** `parts.join(sep)`. */
  function Join(parts: seq<string>, sep: char): string
    requires |parts| > 0
  {
    if |parts| == 1 then parts[0] else parts[0] + [sep] + Join(parts[1..], sep)
  }

  /** `parts.join(sep)` for a separator of any length; no parts join to the empty string. */
  function JoinText(parts: seq<string>, sep: string): (r: string)
    ensures |parts| == 1 ==> r == parts[0]
  {
    if parts == [] then "" else if |parts| == 1 then parts[0] else parts[0] + sep + JoinText(parts[1..], sep)
  }

  /** Joining with a one-character separator is the character join. */
  lemma {:induction false} JoinTextOneChar(parts: seq<string>, sep: char)
    requires |parts| > 0
    ensures JoinText(parts, [sep]) == Join(parts, sep)
  {
    if |parts| > 1 {
      JoinTextOneChar(parts[1..], sep);
    }
  }

  /** `join` is `split`'s inverse: splitting and joining again gives back the input. */
  lemma {:induction false} JoinSplit(s: string, sep: char)
    ensures Join(Split(s, sep), sep) == s
    decreases |s|
  {
    if s != [] {
      var rest := Split(s[1..], sep);
      JoinSplit(s[1..], sep);
      if s[0] == sep {
        assert Split(s, sep)[1..] == rest;
      } else {
        var r := Split(s, sep);
        if |rest| == 1 {
          assert r == [[s[0]] + rest[0]];
        } else {
          assert r[1..] == rest[1..];
          assert Join(rest, sep) == rest[0] + [sep] + Join(rest[1..], sep);
        }
      }
    }
  }

  /** And `split` is `join`'s inverse on pieces that hold no separator. */
  lemma {:induction false} SplitJoin(parts: seq<string>, sep: char)
    requires |parts| > 0
    requires forall i :: 0 <= i < |parts| ==> sep !in parts[i]
    ensures Split(Join(parts, sep), sep) == parts
    decreases |parts|, |parts[0]|
  {
    if |parts| == 1 {
      SplitNoSeparator(parts[0], sep);
    } else {
      var tail := Join(parts[1..], sep);
      SplitJoin(parts[1..], sep);
      SplitConcat(parts[0], tail, sep);
    }
  }

  lemma {:induction false} SplitNoSeparator(s: string, sep: char)
    requires sep !in s
    ensures Split(s, sep) == [s]
    decreases |s|
  {
    if s != [] {
      assert sep !in s[1..] by { assert forall c :: c in s[1..] ==> c in s; }
      SplitNoSeparator(s[1..], sep);
      assert [s[0]] + s[1..] == s;
    }
  }

  /** Splitting `a + sep + b` where `a` holds no separator. */
  lemma {:induction false} SplitConcat(a: string, b: string, sep: char)
    requires sep !in a
    ensures Split(a + [sep] + b, sep) == [a] + Split(b, sep)
    decreases |a|
  {
    var s := a + [sep] + b;
    if a == [] {
      assert s[1..] == b;
    } else {
      assert sep !in a[1..] by { assert forall c :: c in a[1..] ==> c in a; }
      assert s[1..] == a[1..] + [sep] + b;
      SplitConcat(a[1..], b, sep);
      assert [a[0]] + a[1..] == a;
    }
  }

  /** `.map(x => x.trim())` over the pieces of a split. */
  function TrimEach(parts: seq<string>): (r: seq<string>)
    ensures |r| == |parts|
    ensures forall i :: 0 <= i < |r| ==> r[i] == Trim(parts[i])
  {
    seq(|parts|, i requires 0 <= i < |parts| => Trim(parts[i]))
  }

  predicate IsDigit(c: char) {
    '0' <= c <= '9'
  }

  /** The decimal digits with which `s` starts. */
  function DigitPrefix(s: string): (r: string)
    ensures |r| <= |s| && r == s[..|r|]
    ensures forall i :: 0 <= i < |r| ==> IsDigit(r[i])
    ensures |r| < |s| ==> !IsDigit(s[|r|])
    decreases |s|
  {
    if s != [] && IsDigit(s[0]) then [s[0]] + DigitPrefix(s[1..]) else []
  }

  /** The value of a string of decimal digits, most significant first. */
  function DigitsValue(ds: string): nat
    requires forall i :: 0 <= i < |ds| ==> IsDigit(ds[i])
  {
    if ds == [] then 0 else DigitsValue(ds[..|ds| - 1]) * 10 + DigitValue(ds[|ds| - 1])
  }

  function DigitValue(c: char): nat
    requires IsDigit(c)
  {
    c as int - '0' as int
  }

  /** `parseInt(s, 10)`: skip leading whitespace, read an optional sign and the longest
      run of digits; `None` stands for `NaN` (no digit after the sign). */
  function ParseInt(s: string): (r: Option<int>)
    ensures r.None? <==> DigitPrefix(Unsigned(TrimStart(s))) == []
    ensures r.Some? ==> var t := TrimStart(s);
      && (if r.value < 0 then -r.value else r.value) == DigitsValue(DigitPrefix(Unsigned(t)))
      && (r.value < 0 ==> t[0] == '-')
      && (DigitsValue(DigitPrefix(Unsigned(t))) > 0 && t[0] == '-' ==> r.value < 0)
  {
    var t := TrimStart(s);
    var u := Unsigned(t);
    var ds := DigitPrefix(u);
    if ds == [] then None
    else if t != [] && t[0] == '-' then Some(-(DigitsValue(ds) as int))
    else Some(DigitsValue(ds))
  }

  /** `t` without one leading sign character. */
  function Unsigned(t: string): string {
    if t != [] && (t[0] == '-' || t[0] == '+') then t[1..] else t
  }

  /** `parseInt(" -12px", 10)` is -12: leading blanks, the sign and the digits are read,
      and the rest is ignored. `parseInt("px12", 10)` is NaN: the digits must come first. */
  lemma ParseIntExample()
    ensures ParseInt(" -12px") == Some(-12)
    ensures ParseInt("px12").None?
  {
    LetterFirstIsNaN();
    TrimStartExample();
    DigitPrefixTwelve();
    assert DigitsValue("12") == 12 by {
      assert "12"[..1] == "1" && "1"[..0] == "";
    }
  }

  lemma LetterFirstIsNaN()
    ensures ParseInt("px12").None?
  {
    var s := "px12";
    assert !IsWhitespace(s[0]) && !IsDigit(s[0]);
    assert TrimStart(s) == s && Unsigned(s) == s;
  }

  lemma TrimStartExample()
    ensures TrimStart(" -12px") == "-12px"
    ensures Unsigned("-12px") == "12px"
  {
    var s := " -12px";
    assert IsWhitespace(s[0]) && s[1..] == "-12px";
    assert !IsWhitespace(s[1..][0]);
  }

  lemma DigitPrefixTwelve()
    ensures DigitPrefix("12px") == "12"
  {
    assert DigitPrefix("px") == [] by {
      assert !IsDigit("px"[0]);
    }
    assert "12px"[1..] == "2px" && "2px"[1..] == "px";
  }

  /** The decimal representation of a natural number (`String(n)`). */
  function DecimalString(n: nat): (r: string)
    ensures |r| > 0 && forall i :: 0 <= i < |r| ==> IsDigit(r[i])
  {
    if n < 10 then [('0' as int + n) as char]
    else DecimalString(n / 10) + [('0' as int + n % 10) as char]
  }

  /** `String(i)` for an integer. */
  function IntString(i: int): string {
    if i < 0 then "-" + DecimalString(-i) else DecimalString(i)
  }

  lemma {:induction false} DigitsValueOfDecimal(n: nat)
    ensures DigitsValue(DecimalString(n)) == n
    decreases n
  {
    if n >= 10 {
      var r := DecimalString(n);
      assert r[..|r| - 1] == DecimalString(n / 10);
      DigitsValueOfDecimal(n / 10);
    }
  }

  lemma {:induction false} DigitPrefixOfDigits(s: string)
    requires forall i :: 0 <= i < |s| ==> IsDigit(s[i])
    ensures DigitPrefix(s) == s
  {
    var r := DigitPrefix(s);
    if |r| < |s| {
      assert false;
    }
  }

  /** `parseInt(String(i), 10) == i`: the subject claim written from a user id reads
      back as that id. */
  lemma ParseIntOfIntString(i: int)
    ensures ParseInt(IntString(i)) == Some(i)
  {
    var s := IntString(i);
    var d := DecimalString(if i < 0 then -i else i);
    DigitPrefixOfDigits(d);
    DigitsValueOfDecimal(if i < 0 then -i else i);
    assert !IsWhitespace(s[0]);
    if i < 0 {
      assert Unsigned(s) == d;
    } else {
      assert Unsigned(s) == d;
    }
  }
}
