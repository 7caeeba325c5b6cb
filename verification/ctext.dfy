/** The C library text routines the interpreters rely on: `strtol` in base
    10, `toupper` in the C locale, the 32-byte word buffer, and the decimal
    rendering `%ld` that `.` prints. */
module CText {

  import opened Options

  /** WORD_BUF: a word buffer holds 31 characters and a terminator. */
  const WordBuf := 32

  /** `isspace` in the C locale. */
  predicate IsSpace(c: char) {
    c == ' ' || c == '\t' || c == '\n' || c == '\U{B}' || c == '\U{C}' || c == '\r'
  }

  predicate IsDigit(c: char) {
    '0' <= c <= '9'
  }

  predicate AllDigits(s: string) {
    forall k :: 0 <= k < |s| ==> IsDigit(s[k])
  }

  function DigitValue(c: char): nat
    requires IsDigit(c)
  {
    (c as int) - ('0' as int)
  }

  function DigitChar(d: nat): (c: char)
    requires d < 10
    ensures IsDigit(c) && DigitValue(c) == d
  {
    ('0' as int + d) as char
  }

  /** The number a run of decimal digits denotes. */
  function DigitsValue(s: string): nat
    requires AllDigits(s)
  {
    if |s| == 0 then 0
    else DigitsValue(s[..|s| - 1]) * 10 + DigitValue(s[|s| - 1])
  }

  /** The first index at or after i that is not white space. */
  function SkipSpace(s: string, i: nat): (j: nat)
    requires i <= |s|
    ensures i <= j <= |s|
    ensures j == |s| || !IsSpace(s[j])
    decreases |s| - i
  {
    if i < |s| && IsSpace(s[i]) then SkipSpace(s, i + 1) else i
  }

  /** The end of the run of digits that starts at i. */
  function DigitRunEnd(s: string, i: nat): (j: nat)
    requires i <= |s|
    ensures i <= j <= |s|
    ensures j > i ==> IsDigit(s[j - 1])
    ensures j == |s| || !IsDigit(s[j])
    decreases |s| - i
  {
    if i < |s| && IsDigit(s[i]) then DigitRunEnd(s, i + 1) else i
  }

  /** Everything the digit run covers is a digit. */
  lemma {:induction false} DigitRunAll(s: string, i: nat)
    requires i <= |s|
    ensures AllDigits(s[i..DigitRunEnd(s, i)])
    decreases |s| - i
  {
    var j := DigitRunEnd(s, i);
    if i < j {
      DigitRunAll(s, i + 1);
      assert s[i..j] == [s[i]] + s[i + 1..j];
    }
  }

  /** Where the digits `strtol` reads must start: after the leading white
      space and an optional sign. */
  function SignEnd(s: string): (k: nat)
    ensures k <= |s|
  {
    var i := SkipSpace(s, 0);
    if i < |s| && (s[i] == '-' || s[i] == '+') then i + 1 else i
  }

  /** A successful conversion: the value and the index of the first
      character not used (C's `*endptr`). */
  datatype Conversion = Conversion(value: int, end: nat)

  /** `strtol(s, &end, 10)`: leading white space, an optional sign, then as
      many digits as follow. With no digit there is no conversion (C then
      sets `end` to `s` itself), written None. The C library's clamping on
      overflow is not modelled: the value is the exact integer. */
  function Strtol(s: string): (c: Option<Conversion>)
    ensures c.None? <==> SignEnd(s) == |s| || !IsDigit(s[SignEnd(s)])
    ensures c.Some? ==> SignEnd(s) < c.value.end <= |s| && IsDigit(s[c.value.end - 1])
    ensures c.Some? ==> c.value.end == |s| || !IsDigit(s[c.value.end])
  {
    var i := SkipSpace(s, 0);
    var signed := i < |s| && (s[i] == '-' || s[i] == '+');
    var k := if signed then i + 1 else i;
    var j := DigitRunEnd(s, k);
    DigitRunAll(s, k);
    if j == k then None
    else
      var n: int := DigitsValue(s[k..j]);
      Some(Conversion(if signed && s[i] == '-' then -n else n, j))
  }

  /** The test `*end == '\0'` after `strtol`: the whole token is a number.
      When nothing converts `end` is the token itself, so the test passes
      only for the empty token, which then reads as 0. */
  function WholeNumber(tok: string): (r: Option<int>)
    ensures r.Some? && |tok| > 0 ==> Strtol(tok).Some? && Strtol(tok).value.end == |tok|
    ensures r.Some? && |tok| > 0 ==> r.value == Strtol(tok).value.value
    ensures r.None? ==> |tok| > 0 && (Strtol(tok).None? || Strtol(tok).value.end < |tok|)
    ensures |tok| == 0 ==> r == Some(0)
  {
    match Strtol(tok)
    case Some(c) => if c.end == |tok| then Some(c.value) else None
    case None => if |tok| == 0 then Some(0) else None
  }

  /** The test `end != tok` after `strtol`: the token starts with a number,
      and whatever follows it is ignored. */
  function NumberPrefix(tok: string): (r: Option<int>)
    ensures r.Some? <==> Strtol(tok).Some?
    ensures r.Some? ==> r.value == Strtol(tok).value.value
  {
    match Strtol(tok)
    case Some(c) => Some(c.value)
    case None => None
  }

  /** `toupper` in the C locale: only the ASCII letters a-z change. */
  function ToUpper(c: char): (u: char)
    ensures 'a' <= c <= 'z' ==> u as int == c as int - 32
    ensures !('a' <= c <= 'z') ==> u == c
  {
    if 'a' <= c <= 'z' then (c as int - 32) as char else c
  }

  function Upcase(s: string): (u: string)
    ensures |u| == |s|
    ensures forall k :: 0 <= k < |s| ==> u[k] == ToUpper(s[k])
  {
    if |s| == 0 then [] else Upcase(s[..|s| - 1]) + [ToUpper(s[|s| - 1])]
  }

  /** The copy of a token into the word buffer: at most WordBuf - 1
      characters are kept. */
  function Truncate(tok: string): (w: string)
    ensures |w| <= WordBuf - 1
    ensures |w| <= |tok| && w == tok[..|w|]
    ensures |tok| < WordBuf ==> w == tok
    ensures |tok| >= WordBuf ==> |w| == WordBuf - 1
  {
    if |tok| >= WordBuf then tok[..WordBuf - 1] else tok
  }

  /** Upper-casing is idempotent. */
  lemma UpcaseIdempotent(s: string)
    ensures Upcase(Upcase(s)) == Upcase(s)
  {
  }

  /** Upper-casing and truncation commute. */
  lemma UpcaseTruncate(s: string)
    ensures Upcase(Truncate(s)) == Truncate(Upcase(s))
  {
  }

  /** The dictionary key of a token in the earlier phases: the word buffer
      upper-cased. */
  function Key(tok: string): (k: string)
    ensures |k| <= WordBuf - 1
  {
    Upcase(Truncate(tok))
  }

  /** Upper-casing a token first does not change its key. */
  lemma KeyUpcase(tok: string)
    ensures Key(Upcase(tok)) == Key(tok)
  {
    UpcaseTruncate(tok);
    UpcaseIdempotent(Truncate(tok));
  }

  /** Keys of the lower- and mixed-case spellings the tests type. */
  lemma KeyExamples()
    ensures Key("dup") == "DUP" && Key(".s") == ".S" && Key("Rot") == "ROT"
  {
    var u := Upcase("dup");
    assert |u| == 3 && u[0] == 'D' && u[1] == 'U' && u[2] == 'P';
    var v := Upcase(".s");
    assert |v| == 2 && v[0] == '.' && v[1] == 'S';
    var w := Upcase("Rot");
    assert |w| == 3 && w[0] == 'R' && w[1] == 'O' && w[2] == 'T';
  }

  // ---------------------------------------------------------------------
  // Decimal rendering, the partner of the parser.

  /** The digits of a natural number, most significant first. */
  function Digits(n: nat): (s: string)
    ensures |s| > 0 && AllDigits(s)
    ensures DigitsValue(s) == n
    decreases n
  {
    if n < 10 then [DigitChar(n)]
    else
      var s := Digits(n / 10) + [DigitChar(n % 10)];
      assert s[..|s| - 1] == Digits(n / 10);
      s
  }

  /** `printf("%ld", n)`. */
  function Decimal(n: int): (s: string)
    ensures |s| > 0 && IsDigit(s[|s| - 1])
    ensures s[0] == '-' || IsDigit(s[0])
  {
    if n < 0 then "-" + Digits(-n) else Digits(n)
  }

  /** Reading back a rendered number, possibly followed by text that does
      not start with a digit, stops right after the number and yields it. */
  lemma StrtolDecimal(n: int, rest: string)
    requires |rest| == 0 || !IsDigit(rest[0])
    ensures Strtol(Decimal(n) + rest) == Some(Conversion(n, |Decimal(n)|))
  {
    if n < 0 {
      StrtolNegative(Digits(-n), rest);
      assert Decimal(n) + rest == "-" + Digits(-n) + rest;
    } else {
      StrtolDigits(Digits(n), rest);
    }
  }

  /** Digits followed by text that does not start with a digit: `strtol`
      reads exactly the digits. */
  lemma StrtolDigits(ds: string, rest: string)
    requires |ds| > 0 && AllDigits(ds) && (|rest| == 0 || !IsDigit(rest[0]))
    ensures Strtol(ds + rest) == Some(Conversion(DigitsValue(ds), |ds|))
  {
    var s := ds + rest;
    DigitsAt("", ds, rest);
    assert s == "" + ds + rest;
    StrtolRun(s, 0, |ds|);
  }

  /** A minus sign, digits, then text that does not start with a digit:
      `strtol` reads the sign and the digits and negates. */
  lemma StrtolNegative(ds: string, rest: string)
    requires |ds| > 0 && AllDigits(ds) && (|rest| == 0 || !IsDigit(rest[0]))
    ensures Strtol("-" + ds + rest) == Some(Conversion(-(DigitsValue(ds) as int), 1 + |ds|))
  {
    var s := "-" + ds + rest;
    DigitsAt("-", ds, rest);
    assert s[0] == '-';
    StrtolRun(s, 1, 1 + |ds|);
  }

  /** A string that starts with an optional minus sign (k is 1 with the
      sign, 0 without) followed by a digit run that ends at e. */
  lemma StrtolRun(s: string, k: nat, e: nat)
    requires k < e <= |s| && (k == 0 || (k == 1 && s[0] == '-'))
    requires forall i :: k <= i < e ==> IsDigit(s[i])
    requires e == |s| || !IsDigit(s[e])
    ensures Strtol(s) == Some(Conversion(if k == 1 then -(DigitsValue(s[k..e]) as int) else DigitsValue(s[k..e]), e))
  {
    assert IsDigit(s[k]);
    assert SkipSpace(s, 0) == 0;
    DigitRunFrom(s, k, e);
  }

  /** Digits placed after a prefix and before text that does not start with
      a digit form a run that ends exactly where they end. */
  lemma DigitsAt(pre: string, ds: string, rest: string)
    requires AllDigits(ds) && (|rest| == 0 || !IsDigit(rest[0]))
    ensures var s := pre + ds + rest; var e := |pre| + |ds|;
      && (forall i :: |pre| <= i < e ==> IsDigit(s[i]))
      && (e == |s| || !IsDigit(s[e]))
      && s[|pre|..e] == ds
  {
    var s := pre + ds + rest;
    var e := |pre| + |ds|;
    forall i | |pre| <= i < e ensures IsDigit(s[i]) {
      assert s[i] == ds[i - |pre|];
    }
    assert e < |s| ==> s[e] == rest[0];
  }

  /** A digit run delimited at j ends at j. */
  lemma {:induction false} DigitRunFrom(s: string, i: nat, j: nat)
    requires i <= j <= |s|
    requires forall k :: i <= k < j ==> IsDigit(s[k])
    requires j == |s| || !IsDigit(s[j])
    ensures DigitRunEnd(s, i) == j
    decreases j - i
  {
    if i < j {
      DigitRunFrom(s, i + 1, j);
    }
  }

  /** The general shape `strtol` accepts: white space, an optional sign,
      digits, then text that does not start with a digit. It reads up to the
      end of the digits and takes the sign into account. */
  lemma {:induction false} StrtolShape(ws: string, sign: string, ds: string, tail: string)
    requires forall k :: 0 <= k < |ws| ==> IsSpace(ws[k])
    requires sign == "" || sign == "+" || sign == "-"
    requires |ds| > 0 && AllDigits(ds) && (|tail| == 0 || !IsDigit(tail[0]))
    ensures var n: int := DigitsValue(ds);
      Strtol(ws + sign + ds + tail)
        == Some(Conversion(if sign == "-" then -n else n, |ws| + |sign| + |ds|))
  {
    var s := ws + sign + ds + tail;
    ShapeFacts(ws, sign, ds, tail);
    StrtolAt(s, |ws|, |ws| + |sign|, |ws| + |sign| + |ds|);
    assert sign == "-" <==> |sign| == 1 && s[|ws|] == '-';
  }

  /** Where the parts of white space, sign, digits and tail sit. */
  lemma ShapeFacts(ws: string, sign: string, ds: string, tail: string)
    requires forall k :: 0 <= k < |ws| ==> IsSpace(ws[k])
    requires sign == "" || sign == "+" || sign == "-"
    requires |ds| > 0 && AllDigits(ds) && (|tail| == 0 || !IsDigit(tail[0]))
    ensures var s := ws + sign + ds + tail; var i := |ws|; var k := |ws| + |sign|; var e := k + |ds|;
      && e <= |s|
      && (forall j :: 0 <= j < i ==> IsSpace(s[j]))
      && !IsSpace(s[i])
      && (k == i || (k == i + 1 && (s[i] == '-' || s[i] == '+')))
      && (sign == "-" <==> k == i + 1 && s[i] == '-')
      && (forall j :: k <= j < e ==> IsDigit(s[j]))
      && (e == |s| || !IsDigit(s[e]))
      && s[k..e] == ds
  {
    var s := ws + sign + ds + tail;
    var p := ws + sign;
    assert s == p + ds + tail;
    DigitsAt(p, ds, tail);
    forall k | 0 <= k < |ws| ensures IsSpace(s[k]) {
      assert s[k] == ws[k];
    }
    if sign == "" {
      assert s[|ws|] == ds[0];
    } else {
      assert s[|ws|] == sign[0];
    }
  }

  /** `strtol` on a string with white space up to i, an optional sign at i,
      and a digit run from k to e. */
  lemma {:induction false} StrtolAt(s: string, i: nat, k: nat, e: nat)
    requires i <= k < e <= |s|
    requires forall j :: 0 <= j < i ==> IsSpace(s[j])
    requires !IsSpace(s[i])
    requires k == i || (k == i + 1 && (s[i] == '-' || s[i] == '+'))
    requires forall j :: k <= j < e ==> IsDigit(s[j])
    requires e == |s| || !IsDigit(s[e])
    ensures var n: int := DigitsValue(s[k..e]);
      Strtol(s) == Some(Conversion(if k == i + 1 && s[i] == '-' then -n else n, e))
  {
    SkipSpaceFrom(s, 0, i);
    DigitRunFrom(s, k, e);
  }

  /** White space delimited at j is skipped up to j. */
  lemma {:induction false} SkipSpaceFrom(s: string, i: nat, j: nat)
    requires i <= j < |s|
    requires forall k :: i <= k < j ==> IsSpace(s[k])
    requires !IsSpace(s[j])
    ensures SkipSpace(s, i) == j
    decreases j - i
  {
    if i < j {
      SkipSpaceFrom(s, i + 1, j);
    }
  }

  predicate AllZeros(s: string) {
    forall k :: 0 <= k < |s| ==> s[k] == '0'
  }

  /** Leading zeros do not change the value of a digit run. */
  lemma {:induction false} LeadingZeros(zeros: string, ds: string)
    requires AllZeros(zeros) && AllDigits(ds)
    ensures AllDigits(zeros + ds) && DigitsValue(zeros + ds) == DigitsValue(ds)
    decreases |ds|, |zeros|
  {
    var s := zeros + ds;
    assert AllDigits(s) by {
      forall k | 0 <= k < |s| ensures IsDigit(s[k]) {
        if k < |zeros| { assert s[k] == zeros[k]; } else { assert s[k] == ds[k - |zeros|]; }
      }
    }
    if |ds| == 0 {
      assert s == zeros;
      if |zeros| > 0 {
        LeadingZeros(zeros[..|zeros| - 1], []);
        assert zeros[..|zeros| - 1] + [] == s[..|s| - 1];
      }
    } else {
      LeadingZeros(zeros, ds[..|ds| - 1]);
      assert s[..|s| - 1] == zeros + ds[..|ds| - 1];
    }
  }

  /** What `strtol` yields on any well-formed number: white space, a sign,
      leading zeros and the decimal digits of n, then a non-digit. */
  lemma {:induction false} StrtolValue(ws: string, sign: string, zeros: string, n: nat, tail: string)
    requires forall k :: 0 <= k < |ws| ==> IsSpace(ws[k])
    requires sign == "" || sign == "+" || sign == "-"
    requires AllZeros(zeros) && (|tail| == 0 || !IsDigit(tail[0]))
    ensures Strtol(ws + sign + zeros + Digits(n) + tail)
      == Some(Conversion(if sign == "-" then -(n as int) else n, |ws| + |sign| + |zeros| + |Digits(n)|))
  {
    var d := Digits(n);
    var ds := zeros + d;
    LeadingZeros(zeros, d);
    StrtolShape(ws, sign, ds, tail);
    var v: int := if sign == "-" then -(n as int) else n;
    assert Strtol(ws + sign + ds + tail) == Some(Conversion(v, |ws| + |sign| + |ds|));
    Regroup(ws + sign, zeros, d, tail);
  }

  lemma Regroup(a: string, b: string, c: string, d: string)
    ensures a + b + c + d == a + (b + c) + d
  {
  }

  /** The key of a token that `strtol` converts starts with white space,
      with a digit, or with a sign followed by a digit. */
  predicate NumberLike(w: string) {
    && |w| > 0
    && (IsSpace(w[0]) || IsDigit(w[0]) || ((w[0] == '+' || w[0] == '-') && |w| >= 2 && IsDigit(w[1])))
  }

  lemma StrtolKey(s: string)
    requires Strtol(s).Some?
    ensures NumberLike(Key(s))
  {
    var k := SignEnd(s);
    var w := Key(s);
    assert |w| > 0 && w[0] == ToUpper(s[0]);
    if SkipSpace(s, 0) == 0 && k == 1 {
      assert |w| >= 2 && w[1] == ToUpper(s[1]);
    }
  }

  /** The rendered form of a number reads back as that number. */
  lemma WholeNumberDecimal(n: int)
    ensures WholeNumber(Decimal(n)) == Some(n)
  {
    StrtolDecimal(n, "");
    assert Decimal(n) + "" == Decimal(n);
  }

  /** A number followed by non-digit text is a number prefix but not a
      whole number: `12abc` reads as 12 by prefix and is rejected whole. */
  lemma PrefixVersusWhole(n: int, rest: string)
    requires |rest| > 0 && !IsDigit(rest[0])
    ensures NumberPrefix(Decimal(n) + rest) == Some(n)
    ensures WholeNumber(Decimal(n) + rest) == None
  {
    StrtolDecimal(n, rest);
  }
}
