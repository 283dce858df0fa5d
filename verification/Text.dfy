/**
 The string operations the codecs rely on: trimming, splitting, decimal printing and
 parsing, and byte-wise comparison. A string is a sequence of characters; where the
 program counts bytes a character stands for one byte.
 */
module Text {
  import opened Common

  // ---------------------------------------------------------------- white space

  // The white space both languages agree on.
  predicate CommonSpace(c: char) {
    var n := c as int;
    || 9 <= n <= 13 || n == 32 || n == 0xA0 || n == 0x1680 || 0x2000 <= n <= 0x200A
    || n == 0x2028 || n == 0x2029 || n == 0x202F || n == 0x205F || n == 0x3000
  }

  // What strings.TrimSpace removes.
  predicate GoSpace(c: char) { CommonSpace(c) || c as int == 0x85 }

  // What String.prototype.trim removes and \s matches.
  predicate JsSpace(c: char) { CommonSpace(c) || c as int == 0xFEFF }

  function TrimLeft(space: char -> bool, s: string): string {
    if s != [] && space(s[0]) then TrimLeft(space, s[1..]) else s
  }

  function TrimRight(space: char -> bool, s: string): string {
    if s != [] && space(s[|s| - 1]) then TrimRight(space, s[..|s| - 1]) else s
  }

  function Trim(space: char -> bool, s: string): string {
    TrimRight(space, TrimLeft(space, s))
  }

  predicate Trimmed(space: char -> bool, s: string) {
    s != [] ==> !space(s[0]) && !space(s[|s| - 1])
  }

  lemma TrimOfTrimmed(space: char -> bool, s: string)
    requires Trimmed(space, s)
    ensures Trim(space, s) == s
  {
  }

  lemma {:induction false} TrimLeftStops(space: char -> bool, s: string)
    ensures var t := TrimLeft(space, s); t == [] || !space(t[0])
  {
    if s != [] && space(s[0]) {
      TrimLeftStops(space, s[1..]);
    }
  }

  lemma {:induction false} TrimRightStops(space: char -> bool, s: string)
    ensures var t := TrimRight(space, s); |t| <= |s| && t == s[..|t|] && (t == [] || !space(t[|t| - 1]))
  {
    if s != [] && space(s[|s| - 1]) {
      TrimRightStops(space, s[..|s| - 1]);
    }
  }

  lemma TrimIsTrimmed(space: char -> bool, s: string)
    ensures Trimmed(space, Trim(space, s))
  {
    TrimLeftStops(space, s);
    TrimRightStops(space, TrimLeft(space, s));
  }

  predicate Blank(space: char -> bool, s: string) { forall i :: 0 <= i < |s| ==> space(s[i]) }

  // Trimming takes away white space at both ends and nothing else.
  lemma TrimReads(space: char -> bool, s: string) returns (left: string, right: string)
    ensures s == left + Trim(space, s) + right
    ensures Blank(space, left) && Blank(space, right)
  {
    left := TrimLeftReads(space, s);
    right := TrimRightReads(space, TrimLeft(space, s));
  }

  lemma {:induction false} TrimLeftReads(space: char -> bool, s: string) returns (left: string)
    ensures s == left + TrimLeft(space, s) && Blank(space, left)
  {
    left := [];
    if s != [] && space(s[0]) {
      var rest := TrimLeftReads(space, s[1..]);
      left := [s[0]] + rest;
    }
  }

  lemma {:induction false} TrimRightReads(space: char -> bool, s: string) returns (right: string)
    ensures s == TrimRight(space, s) + right && Blank(space, right)
  {
    right := [];
    if s != [] && space(s[|s| - 1]) {
      var rest := TrimRightReads(space, s[..|s| - 1]);
      right := rest + [s[|s| - 1]];
    }
  }

  lemma TrimOfBlank(space: char -> bool, s: string)
    requires Blank(space, s)
    ensures Trim(space, s) == ""
  {
    var left, right := TrimReads(space, s);
    var t := Trim(space, s);
    assert forall k :: 0 <= k < |t| ==> t[k] == s[|left| + k];
    TrimIsTrimmed(space, s);
  }

  function LowerChar(c: char): char {
    if 'A' <= c <= 'Z' then (c as int + 32) as char else c
  }

  function Lower(s: string): string {
    if s == [] then [] else [LowerChar(s[0])] + Lower(s[1..])
  }

  predicate StartsWith(s: string, prefix: string) {
    prefix == [] || (s != [] && s[0] == prefix[0] && StartsWith(s[1..], prefix[1..]))
  }

  lemma {:induction false} StartsWithPrefix(prefix: string, rest: string)
    ensures StartsWith(prefix + rest, prefix)
    ensures (prefix + rest)[|prefix|..] == rest
  {
    if prefix != [] {
      StartsWithPrefix(prefix[1..], rest);
      assert (prefix + rest)[1..] == prefix[1..] + rest;
    }
  }

  lemma {:induction false} StartsWithIff(s: string, prefix: string)
    ensures StartsWith(s, prefix) <==> prefix <= s
  {
    if prefix != [] && s != [] {
      StartsWithIff(s[1..], prefix[1..]);
      if prefix[0] == s[0] && prefix[1..] <= s[1..] {
        assert s[..|prefix|] == [s[0]] + s[1..][..|prefix| - 1] == prefix;
      }
    }
  }

  lemma {:induction false} StartsWithLength(s: string, prefix: string)
    requires StartsWith(s, prefix)
    ensures |prefix| <= |s| && s[..|prefix|] == prefix
  {
    if prefix != [] {
      StartsWithLength(s[1..], prefix[1..]);
      assert s == [s[0]] + s[1..] && prefix == [prefix[0]] + prefix[1..];
    }
  }

  // ---------------------------------------------------------------- splitting

  function Split(s: string, sep: char): (parts: seq<string>)
    ensures |parts| >= 1
  {
    if s == [] then [[]]
    else
      var rest := Split(s[1..], sep);
      if s[0] == sep then [[]] + rest else [[s[0]] + rest[0]] + rest[1..]
  }

  lemma {:induction false} SplitWithoutSeparator(s: string, sep: char)
    requires sep !in s
    ensures Split(s, sep) == [s]
  {
    if s != [] {
      SplitWithoutSeparator(s[1..], sep);
      assert [s[0]] + s[1..] == s;
    }
  }

  lemma {:induction false} SplitAtSeparator(a: string, sep: char, b: string)
    requires sep !in a
    ensures Split(a + [sep] + b, sep) == [a] + Split(b, sep)
  {
    var s := a + [sep] + b;
    if a == [] {
      assert s[1..] == b;
    } else {
      SplitAtSeparator(a[1..], sep, b);
      assert s[1..] == a[1..] + [sep] + b;
      assert [a[0]] + a[1..] == a;
    }
  }

  lemma {:induction false} SplitPieces(s: string, sep: char)
    ensures |Split(s, sep)| == 1 ==> s == Split(s, sep)[0]
    ensures |Split(s, sep)| == 2 ==> s == Split(s, sep)[0] + [sep] + Split(s, sep)[1]
  {
    if s != [] {
      SplitPieces(s[1..], sep);
      assert s == [s[0]] + s[1..];
    }
  }

  lemma LastCutNotLater(p: string, a: string, q: string, b: string, sep: char)
    requires p + [sep] + a == q + [sep] + b && sep !in a
    ensures |q| <= |p|
  {
    var s := p + [sep] + a;
    assert forall k :: |p| + 1 <= k < |s| ==> s[k] == a[k - |p| - 1];
    assert (q + [sep] + b)[|q|] == sep;
  }

  // A text can be cut at its last separator in only one way.
  lemma LastCutUnique(p: string, a: string, q: string, b: string, sep: char)
    requires p + [sep] + a == q + [sep] + b && sep !in a && sep !in b
    ensures p == q && a == b
  {
    LastCutNotLater(p, a, q, b, sep);
    LastCutNotLater(q, b, p, a, sep);
    var s, t := p + [sep] + a, q + [sep] + b;
    assert p == s[..|p|] && q == t[..|q|];
    assert a == s[|p| + 1..] && b == t[|q| + 1..];
  }

  // strings.Fields on ASCII text: the maximal runs of non-space characters.
  function Fields(s: string): seq<string>
    decreases |s|
  {
    var t := TrimLeft(GoSpace, s);
    if t == [] then []
    else
      TrimLeftLength(GoSpace, s);
      TrimLeftStops(GoSpace, s);
      var n := WordLength(t);
      [t[..n]] + Fields(t[n..])
  }

  lemma {:induction false} TrimLeftLength(space: char -> bool, s: string)
    ensures |TrimLeft(space, s)| <= |s|
  {
    if s != [] && space(s[0]) {
      TrimLeftLength(space, s[1..]);
    }
  }

  function WordLength(s: string): (n: nat)
    ensures n <= |s|
    ensures s != [] && !GoSpace(s[0]) ==> n > 0
    ensures forall i :: 0 <= i < n ==> !GoSpace(s[i])
    ensures n < |s| ==> GoSpace(s[n])
  {
    if s == [] || GoSpace(s[0]) then 0 else 1 + WordLength(s[1..])
  }

  predicate Word(s: string) {
    s != [] && forall c :: c in s ==> !GoSpace(c)
  }

  lemma FieldsOfWord(word: string)
    requires Word(word)
    ensures Fields(word) == [word]
  {
    var n := WordLength(word);
    assert forall i :: 0 <= i < |word| ==> word[i] in word;
    assert word[..n] == word && word[n..] == [];
  }

  lemma FieldsStep(word: string, rest: string)
    requires Word(word)
    ensures Fields(word + " " + rest) == [word] + Fields(rest)
  {
    var s := word + " " + rest;
    var n := WordLength(s);
    assert forall i :: 0 <= i < |word| ==> s[i] == word[i] && word[i] in word;
    assert s[|word|] == ' ';
    assert s[..n] == word && s[n..] == " " + rest;
    assert TrimLeft(GoSpace, " " + rest) == TrimLeft(GoSpace, rest) by {
      assert (" " + rest)[1..] == rest;
    }
  }

  // ---------------------------------------------------------------- decimal numbers

  const MIN_INT: int := -0x8000_0000_0000_0000
  const MAX_INT: int := 0x7FFF_FFFF_FFFF_FFFF

  predicate Int64(n: int) { MIN_INT <= n <= MAX_INT }

  predicate IsDigit(c: char) { '0' <= c <= '9' }

  predicate AllDigits(s: string) { forall c :: c in s ==> IsDigit(c) }

  function Digit(d: nat): char
    requires d < 10
  {
    ('0' as int + d) as char
  }

  function DigitValue(c: char): nat
    requires IsDigit(c)
  {
    c as int - '0' as int
  }

  function PrintNat(n: nat): string {
    if n < 10 then [Digit(n)] else PrintNat(n / 10) + [Digit(n % 10)]
  }

  function PrintInt(n: int): string {
    if n < 0 then "-" + PrintNat(-n) else PrintNat(n)
  }

  function ParseDigits(s: string): nat
    requires AllDigits(s)
  {
    if s == [] then 0
    else
      assert s[|s| - 1] in s;
      10 * ParseDigits(s[..|s| - 1]) + DigitValue(s[|s| - 1])
  }

  // strconv.Atoi: an optional sign, at least one digit, nothing else, and a 64-bit range check.
  function Atoi(s: string): Option<int> {
    var signed := s != [] && (s[0] == '-' || s[0] == '+');
    var digits := if signed then s[1..] else s;
    if digits == [] || !AllDigits(digits) then None
    else
      var value := if signed && s[0] == '-' then -(ParseDigits(digits) as int) else ParseDigits(digits);
      if Int64(value) then Some(value) else None
  }

  lemma {:induction false} PrintNatParses(n: nat)
    ensures PrintNat(n) != [] && AllDigits(PrintNat(n))
    ensures ParseDigits(PrintNat(n)) == n
  {
    if n < 10 {
      assert PrintNat(n)[..0] == [];
    } else {
      PrintNatParses(n / 10);
      var s := PrintNat(n);
      assert s[..|s| - 1] == PrintNat(n / 10);
    }
  }

  lemma AtoiOfPrintInt(n: int)
    requires Int64(n)
    ensures Atoi(PrintInt(n)) == Some(n)
  {
    PrintNatParses(if n < 0 then -n else n);
    var s := PrintInt(n);
    assert n >= 0 ==> s[0] in s;
    assert n < 0 ==> s[1..] == PrintNat(-n);
  }

  // Decimal text holds only digits and a minus sign.
  lemma PrintIntCharacters(n: int)
    ensures PrintInt(n) != []
    ensures forall c :: c in PrintInt(n) ==> IsDigit(c) || c == '-'
  {
    PrintNatParses(if n < 0 then -n else n);
  }

  lemma PrintIntInjective(a: int, b: int)
    requires PrintInt(a) == PrintInt(b)
    ensures a == b
  {
    PrintNatParses(if a < 0 then -a else a);
    PrintNatParses(if b < 0 then -b else b);
    var s, t := PrintInt(a), PrintInt(b);
    assert a >= 0 ==> s[0] in s;
    assert b >= 0 ==> t[0] in t;
    assert a < 0 ==> s[1..] == PrintNat(-a);
    assert b < 0 ==> t[1..] == PrintNat(-b);
  }

  // ---------------------------------------------------------------- byte-wise order

  predicate Less(a: string, b: string) {
    if b == [] then false
    else if a == [] then true
    else a[0] < b[0] || (a[0] == b[0] && Less(a[1..], b[1..]))
  }

  lemma {:induction false} LessTotal(a: string, b: string)
    ensures Less(a, b) || Less(b, a) || a == b
    ensures !(Less(a, b) && Less(b, a))
    ensures !Less(a, a)
  {
    if a != [] && b != [] {
      LessTotal(a[1..], b[1..]);
      if a[1..] == b[1..] && a[0] == b[0] {
        assert a == [a[0]] + a[1..] && b == [b[0]] + b[1..];
      }
    } else if a != [] {
      LessTotal(a[1..], a[1..]);
    }
  }

  lemma {:induction false} LessTransitive(a: string, b: string, c: string)
    requires Less(a, b) && Less(b, c)
    ensures Less(a, c)
  {
    if a != [] && a[0] == b[0] == c[0] {
      LessTransitive(a[1..], b[1..], c[1..]);
    }
  }

  // One text comes before another: it is a proper beginning of it, or is smaller where they first differ.
  ghost predicate Ascends(a: string, b: string) {
    exists k: nat :: k <= |a| && k <= |b| && FirstDifference(a, b, k)
  }

  predicate FirstDifference(a: string, b: string, k: nat)
    requires k <= |a| && k <= |b|
  {
    a[..k] == b[..k] && k < |b| && (k == |a| || a[k] < b[k])
  }

  lemma {:induction false} LessMeans(a: string, b: string)
    requires Less(a, b)
    ensures Ascends(a, b)
  {
    if a == [] || a[0] < b[0] {
      assert FirstDifference(a, b, 0);
    } else {
      LessMeans(a[1..], b[1..]);
      var k: nat :| k <= |a[1..]| && k <= |b[1..]| && FirstDifference(a[1..], b[1..], k);
      assert a[..k + 1] == [a[0]] + a[1..][..k] && b[..k + 1] == [b[0]] + b[1..][..k];
      assert FirstDifference(a, b, k + 1);
    }
  }
}
