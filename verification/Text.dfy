/** The parts of Go's string, number and ordering routines that the operator relies on. */
module Text {

  datatype Option<+T> = None | Some(value: T)

  // ---------------------------------------------------------------- white space

  /** Unicode White_Space, which strings.TrimSpace removes. */
  predicate IsSpace(c: char) {
    || '\t' <= c <= '\r' || c == ' ' || c == '\U{0085}' || c == '\U{00A0}' || c == '\U{1680}'
    || '\U{2000}' <= c <= '\U{200A}' || c == '\U{2028}' || c == '\U{2029}' || c == '\U{202F}'
    || c == '\U{205F}' || c == '\U{3000}'
  }

  predicate SpaceFree(s: string) {
    forall i :: 0 <= i < |s| ==> !IsSpace(s[i])
  }

  /** No white space at either edge. */
  predicate Trimmed(s: string) {
    s == "" || (!IsSpace(s[0]) && !IsSpace(s[|s| - 1]))
  }

  function TrimLeft(s: string): string {
    if s != "" && IsSpace(s[0]) then TrimLeft(s[1..]) else s
  }

  function TrimRight(s: string): string {
    if s != "" && IsSpace(s[|s| - 1]) then TrimRight(s[..|s| - 1]) else s
  }

  /** strings.TrimSpace */
  function TrimSpace(s: string): string { TrimRight(TrimLeft(s)) }

  lemma {:induction false} TrimLeftSuffix(s: string)
    ensures var r := TrimLeft(s); (r == "" || !IsSpace(r[0])) && |r| <= |s| && r == s[|s| - |r|..]
  {
    if s != "" && IsSpace(s[0]) { TrimLeftSuffix(s[1..]); }
  }

  lemma {:induction false} TrimRightPrefix(s: string)
    ensures var r := TrimRight(s); (r == "" || !IsSpace(r[|r| - 1])) && r <= s
    ensures s != "" && !IsSpace(s[0]) ==> TrimRight(s) != ""
  {
    if s != "" && IsSpace(s[|s| - 1]) { TrimRightPrefix(s[..|s| - 1]); }
  }

  /** Trimming leaves a trimmed substring, changes exactly the untrimmed strings, and is idempotent. */
  lemma TrimSpaceFacts(s: string)
    ensures Trimmed(TrimSpace(s))
    ensures TrimSpace(s) == s <==> Trimmed(s)
    ensures forall c :: c in TrimSpace(s) ==> c in s
  {
    TrimLeftSuffix(s);
    TrimRightPrefix(TrimLeft(s));
  }

  predicate AllSpace(s: string) { forall i :: 0 <= i < |s| ==> IsSpace(s[i]) }

  lemma SpaceCodes(c: char)
    ensures IsSpace(c) <==> (9 <= c as int <= 13) || (0x2000 <= c as int <= 0x200A)
                            || c as int in {0x20, 0x85, 0xA0, 0x1680, 0x2028, 0x2029, 0x202F, 0x205F, 0x3000}
  {
  }

  lemma {:induction false} TrimLeftMeans(s: string, i: nat)
    requires i <= |s| && AllSpace(s[..i]) && (i == |s| || !IsSpace(s[i]))
    ensures TrimLeft(s) == s[i..]
  {
    if i > 0 {
      assert IsSpace(s[..i][0]);
      assert s[1..][..i - 1] == s[..i][1..];
      TrimLeftMeans(s[1..], i - 1);
    }
  }

  lemma {:induction false} TrimRightMeans(s: string, j: nat)
    requires j <= |s| && AllSpace(s[j..]) && (j == 0 || !IsSpace(s[j - 1]))
    ensures TrimRight(s) == s[..j]
  {
    if j < |s| {
      assert IsSpace(s[j..][|s| - 1 - j]);
      assert s[..|s| - 1][j..] == s[j..][..|s| - 1 - j];
      TrimRightMeans(s[..|s| - 1], j);
      assert s[..|s| - 1][..j] == s[..j];
    } else {
      assert s[..j] == s;
    }
  }

  /** What is left is the part between the white space at the edges, wherever that part lies. */
  lemma TrimSpaceMeans(s: string, i: nat, j: nat)
    requires i <= j <= |s| && AllSpace(s[..i]) && AllSpace(s[j..]) && Trimmed(s[i..j])
    ensures TrimSpace(s) == s[i..j]
  {
    if i == j {
      assert s == s[..i] + s[j..];
      TrimLeftMeans(s, |s|);
    } else {
      assert s[i..j][0] == s[i] && s[i..j][j - i - 1] == s[j - 1];
      TrimLeftMeans(s, i);
      assert s[i..][j - i..] == s[j..];
      TrimRightMeans(s[i..], j - i);
      assert s[i..][..j - i] == s[i..j];
    }
  }

  /** There is such a part. */
  lemma TrimSpacePart(s: string) returns (i: nat, j: nat)
    ensures i <= j <= |s| && AllSpace(s[..i]) && AllSpace(s[j..]) && Trimmed(s[i..j]) && TrimSpace(s) == s[i..j]
  {
    i := 0;
    while i < |s| && IsSpace(s[i])
      invariant i <= |s| && AllSpace(s[..i])
    {
      i := i + 1;
    }
    j := |s|;
    while j > i && IsSpace(s[j - 1])
      invariant i <= j <= |s| && AllSpace(s[j..]) && (i < |s| ==> !IsSpace(s[i]))
    {
      j := j - 1;
    }
    TrimSpaceMeans(s, i, j);
  }

  /** `raw` is the word, in any case, with white space around it. */
  ghost predicate Spells(raw: string, word: string) {
    exists i, j :: 0 <= i <= j <= |raw| && AllSpace(raw[..i]) && AllSpace(raw[j..]) && SameButCase(raw[i..j], word)
  }

  /** Letter by letter the lower-case letter or its capital, or one of the two characters beyond ASCII that have
      the letter as their lower case. */
  predicate SameButCase(s: string, word: string) {
    |s| == |word| && forall k :: 0 <= k < |s| ==>
      || (s[k] == word[k] && !('A' <= s[k] <= 'Z'))
      || ('a' <= word[k] <= 'z' && s[k] as int == word[k] as int - 32)
      || (word[k] == 'i' && s[k] as int == 0x130) || (word[k] == 'k' && s[k] as int == 0x212A)
  }

  predicate LowerWord(word: string) { forall k :: 0 <= k < |word| ==> 'a' <= word[k] <= 'z' }

  lemma ToLowerMeans(s: string, word: string)
    requires LowerWord(word)
    ensures ToLower(s) == word <==> SameButCase(s, word)
  {
    if SameButCase(s, word) {
      assert forall k :: 0 <= k < |s| ==> ToLower(s)[k] == word[k];
      assert ToLower(s) == word;
    }
    if ToLower(s) == word {
      forall k | 0 <= k < |s| ensures LowerChar(s[k]) == word[k] {
        assert ToLower(s)[k] == word[k];
      }
    }
  }

  lemma NoSpaceInWords(s: string, word: string)
    requires LowerWord(word) && SameButCase(s, word)
    ensures Trimmed(s)
  {
  }

  /** Trimmed and in lower case a text is a word exactly if it spells it. */
  lemma SpellsMeans(raw: string, word: string)
    requires LowerWord(word)
    ensures ToLower(TrimSpace(raw)) == word <==> Spells(raw, word)
  {
    ToLowerMeans(TrimSpace(raw), word);
    var i, j := TrimSpacePart(raw);
    if Spells(raw, word) {
      var k, l :| 0 <= k <= l <= |raw| && AllSpace(raw[..k]) && AllSpace(raw[l..]) && SameButCase(raw[k..l], word);
      NoSpaceInWords(raw[k..l], word);
      TrimSpaceMeans(raw, k, l);
    }
  }

  /** strings.TrimSuffix(s, ".") */
  function TrimDot(s: string): string {
    if s != "" && s[|s| - 1] == '.' then s[..|s| - 1] else s
  }

  // ---------------------------------------------------------------- case

  /** The lower-case mapping as far as comparisons with ASCII words can see it: the ASCII letters
      and the two other code points whose lower case is an ASCII letter. */
  function LowerChar(c: char): char {
    if 'A' <= c <= 'Z' then ((c as int) + 32) as char
    else if c == '\U{0130}' then 'i'
    else if c == '\U{212A}' then 'k'
    else c
  }

  /** strings.ToLower */
  function ToLower(s: string): (r: string)
    ensures |r| == |s| && forall i :: 0 <= i < |s| ==> r[i] == LowerChar(s[i])
  {
    seq(|s|, i requires 0 <= i < |s| => LowerChar(s[i]))
  }

  // ---------------------------------------------------------------- decimal numerals

  predicate IsDigit(c: char) { '0' <= c <= '9' }

  predicate AllDigits(s: string) { forall i :: 0 <= i < |s| ==> IsDigit(s[i]) }

  function DigitsOf(n: nat): (s: string)
    ensures s != "" && AllDigits(s)
  {
    if n < 10 then [('0' as int + n) as char] else DigitsOf(n / 10) + [('0' as int + n % 10) as char]
  }

  /** fmt's %d */
  function Decimal(n: int): string {
    if n < 0 then "-" + DigitsOf(-n) else DigitsOf(n)
  }

  function DigitsValue(s: string): nat
    requires AllDigits(s)
  {
    if s == "" then 0 else 10 * DigitsValue(s[..|s| - 1]) + (s[|s| - 1] as int - '0' as int)
  }

  const INT64_LIMIT := 0x8000_0000_0000_0000

  /** strconv.ParseInt(s, 10, 64): an optional sign, at least one digit, and a value in range. */
  function ParseInt64(s: string): Option<int> {
    var negative := s != "" && s[0] == '-';
    var digits := if s != "" && (s[0] == '-' || s[0] == '+') then s[1..] else s;
    if digits == "" || !AllDigits(digits) then None
    else
      var magnitude: int := DigitsValue(digits);
      if negative then (if magnitude <= INT64_LIMIT then Some(-magnitude) else None)
      else if magnitude < INT64_LIMIT then Some(magnitude) else None
  }

  lemma {:induction false} DigitsRoundTrip(n: nat)
    ensures DigitsValue(DigitsOf(n)) == n
  {
    var s := DigitsOf(n);
    if n < 10 {
      assert s[..|s| - 1] == "";
    } else {
      DigitsRoundTrip(n / 10);
      assert s[..|s| - 1] == DigitsOf(n / 10);
    }
  }

  /** Reading back a printed 64-bit number gives the number. */
  lemma ParseDecimal(n: int)
    requires -INT64_LIMIT <= n < INT64_LIMIT
    ensures ParseInt64(Decimal(n)) == Some(n)
  {
    var magnitude := if n < 0 then -n else n;
    var digits := DigitsOf(magnitude);
    DigitsRoundTrip(magnitude);
    assert IsDigit(digits[0]);
    assert n < 0 ==> Decimal(n)[0] == '-' && Decimal(n)[1..] == digits;
  }

  /** A 64-bit number is a numeral up to the limit, with or without a sign before it. */
  lemma ParseInt64Means(s: string)
    requires s == "" || s[0] !in {'+', '-'}
    ensures ParseInt64(s) == ParseInt64("+" + s)
    ensures ParseInt64(s).Some? <==> s != "" && AllDigits(s) && DigitsValue(s) <= 9223372036854775807
    ensures ParseInt64(s).Some? ==> ParseInt64(s).value == DigitsValue(s)
  {
    assert ("+" + s)[1..] == s && ("+" + s)[0] == '+';
  }

  lemma ParseNegativeMeans(s: string)
    ensures ParseInt64("-" + s).Some? <==> s != "" && AllDigits(s) && DigitsValue(s) <= 9223372036854775808
    ensures ParseInt64("-" + s).Some? ==> ParseInt64("-" + s).value == 0 - DigitsValue(s)
  {
    assert ("-" + s)[1..] == s && ("-" + s)[0] == '-';
  }

  /** The value of a numeral is that of its last digit plus ten times that of the others. */
  lemma DigitsValueMeans(s: string, d: char)
    requires AllDigits(s) && IsDigit(d)
    ensures DigitsValue("") == 0 && AllDigits(s + [d]) && DigitsValue(s + [d]) == 10 * DigitsValue(s) + (d as int - 48)
  {
    assert (s + [d])[..|s|] == s;
  }

  /** Numbers are printed without leading zeros, and negative ones with a minus. */
  lemma {:induction false} DecimalShape(n: nat)
    ensures AllDigits(Decimal(n)) && Decimal(n) != "" && (n > 0 ==> Decimal(n)[0] != '0') && Decimal(0) == "0"
    ensures n > 0 ==> Decimal(0 - n) == "-" + Decimal(n)
  {
    if n >= 10 {
      DecimalShape(n / 10);
    }
  }

  lemma DecimalInjective(m: int, n: int)
    requires Decimal(m) == Decimal(n)
    ensures m == n
  {
    assert m < 0 <==> n < 0 by {
      assert m >= 0 ==> IsDigit(DigitsOf(m)[0]);
      assert n >= 0 ==> IsDigit(DigitsOf(n)[0]);
    }
    if m < 0 {
      assert Decimal(m)[1..] == DigitsOf(-m) && Decimal(n)[1..] == DigitsOf(-n);
      DigitsRoundTrip(-m);
      DigitsRoundTrip(-n);
    } else {
      DigitsRoundTrip(m);
      DigitsRoundTrip(n);
    }
  }

  // ---------------------------------------------------------------- string order

  /** Go's < on strings. */
  predicate StringLess(a: string, b: string) {
    b != "" && (a == "" || a[0] < b[0] || (a[0] == b[0] && StringLess(a[1..], b[1..])))
  }

  /** The first difference decides; without one, the shorter text comes first. */
  lemma {:induction false} StringLessMeans(a: string, b: string, i: nat)
    requires i <= |a| && i <= |b| && a[..i] == b[..i]
    requires i == |a| || i == |b| || a[i] != b[i]
    ensures StringLess(a, b) <==> if i == |a| || i == |b| then |a| < |b| else a[i] < b[i]
  {
    if i > 0 {
      assert a[..i][0] == b[..i][0];
      assert a[1..][..i - 1] == a[..i][1..] && b[1..][..i - 1] == b[..i][1..];
      StringLessMeans(a[1..], b[1..], i - 1);
    }
  }

  lemma {:induction false} StringLessTrichotomy(a: string, b: string)
    ensures !(StringLess(a, b) && StringLess(b, a))
    ensures a == b <==> !StringLess(a, b) && !StringLess(b, a)
  {
    if a != "" && b != "" && a[0] == b[0] {
      StringLessTrichotomy(a[1..], b[1..]);
      assert a == [a[0]] + a[1..] && b == [b[0]] + b[1..];
    }
  }

  lemma {:induction false} StringLessTransitive(a: string, b: string, c: string)
    requires StringLess(a, b) && StringLess(b, c)
    ensures StringLess(a, c)
  {
    if a != "" && a[0] == b[0] == c[0] {
      StringLessTransitive(a[1..], b[1..], c[1..]);
    }
  }
}
