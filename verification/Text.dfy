/** Decimal numerals and splitting at a separator. */
module Text {
  import opened Model

  // ----- separators -----

  /** The index of the first `c` in `s`, or the length of `s` when there is none. */
  function Find(s: string, c: char): (i: nat)
    ensures i <= |s| && c !in s[..i] && (i < |s| ==> s[i] == c)
  {
    if s == "" then 0
    else if s[0] == c then 0
    else
      assert s == [s[0]] + s[1..];
      assert s[..Find(s[1..], c) + 1] == [s[0]] + s[1..][..Find(s[1..], c)];
      Find(s[1..], c) + 1
  }

  lemma FindIsFirst(s: string, c: char, i: nat)
    requires i <= |s| && c !in s[..i] && (i < |s| ==> s[i] == c)
    ensures Find(s, c) == i
  {
    var j := Find(s, c);
    assert forall k :: 0 <= k < i ==> s[..i][k] == s[k];
    assert forall k :: 0 <= k < j ==> s[..j][k] == s[k];
  }

  /** A separator that does not occur in the first part splits the concatenation there. */
  lemma {:induction false} SplitsAt(a: string, c: char, b: string)
    requires c !in a
    ensures Find(a, c) == |a|
    ensures var s := a + [c] + b;
            Find(s, c) == |a| && s[..|a|] == a && s[|a| + 1..] == b
  {
    var s := a + [c] + b;
    assert s[..|a|] == a && a[..|a|] == a;
    FindIsFirst(s, c, |a|);
    FindIsFirst(a, c, |a|);
  }

  // ----- numerals -----

  predicate IsDigit(c: char) {
    '0' <= c <= '9'
  }

  predicate AllDigits(s: string) {
    forall i :: 0 <= i < |s| ==> IsDigit(s[i])
  }

  function Digits(n: nat): (s: string)
    ensures s != "" && AllDigits(s)
  {
    var d := ['0' + (n % 10) as char];
    if n < 10 then d else Digits(n / 10) + d
  }

  /** The %d of Go's formatting. */
  function Itoa(n: int): string {
    if n < 0 then "-" + Digits(-n) else Digits(n)
  }

  function ValueOf(s: string): nat
    requires AllDigits(s)
  {
    if s == "" then 0
    else 10 * ValueOf(s[..|s| - 1]) + (s[|s| - 1] - '0') as nat
  }

  lemma {:induction false} ValueOfDigits(n: nat)
    ensures ValueOf(Digits(n)) == n
  {
    var d := ['0' + (n % 10) as char];
    if n < 10 {
      assert Digits(n) == d;
      assert d[..0] == "";
    } else {
      ValueOfDigits(n / 10);
      assert Digits(n)[..|Digits(n)| - 1] == Digits(n / 10);
    }
  }

  /** Two numbers are never printed alike. */
  lemma ItoaIsInjective(m: int, n: int)
    ensures Itoa(m) == Itoa(n) ==> m == n
  {
    ValueOfDigits(if m < 0 then -m else m);
    ValueOfDigits(if n < 0 then -n else n);
    assert m < 0 ==> Itoa(m)[0] == '-' && Itoa(m)[1..] == Digits(-m);
    assert n < 0 ==> Itoa(n)[0] == '-' && Itoa(n)[1..] == Digits(-n);
    assert m >= 0 ==> IsDigit(Itoa(m)[0]);
    assert n >= 0 ==> IsDigit(Itoa(n)[0]);
  }

  const MAX_INT64 := 0x7fff_ffff_ffff_ffff

  /** strconv.Atoi on a 64-bit platform: an optional sign and digits, in range. */
  function Atoi(s: string): Option<int> {
    var unsigned := if s != "" && (s[0] == '+' || s[0] == '-') then s[1..] else s;
    if unsigned == "" || !AllDigits(unsigned) then None
    else
      var n := if s[0] == '-' then -(ValueOf(unsigned) as int) else ValueOf(unsigned);
      if -MAX_INT64 - 1 <= n <= MAX_INT64 then Some(n) else None
  }

  lemma AtoiInvertsItoa(n: int)
    requires -MAX_INT64 - 1 <= n <= MAX_INT64
    ensures Atoi(Itoa(n)) == Some(n)
  {
    ValueOfDigits(if n < 0 then -n else n);
    assert n < 0 ==> Itoa(n)[1..] == Digits(-n);
    assert n >= 0 ==> IsDigit(Itoa(n)[0]);
  }

  /** Zeros in front change nothing, so that every digit string has the value of a numeral. */
  lemma {:induction false} LeadingZeros(s: string)
    requires AllDigits(s)
    ensures AllDigits("0" + s) && ValueOf("0" + s) == ValueOf(s)
  {
    var z := "0" + s;
    if s == "" {
      assert z[..0] == "";
    } else {
      LeadingZeros(s[..|s| - 1]);
      assert z[..|z| - 1] == "0" + s[..|s| - 1];
    }
  }

  lemma {:induction false} DigitsAreNumerals(s: string) returns (n: nat, zeros: string)
    requires s != "" && AllDigits(s)
    ensures (forall i :: 0 <= i < |zeros| ==> zeros[i] == '0') && s == zeros + Digits(n) && ValueOf(s) == n
  {
    hide Digits, ValueOf;
    if s[0] == '0' && |s| > 1 {
      var rest;
      n, rest := DigitsAreNumerals(s[1..]);
      LeadingZeros(s[1..]);
      assert s == "0" + s[1..];
      zeros := "0" + rest;
      assert "0" + (rest + Digits(n)) == zeros + Digits(n);
    } else {
      n, zeros := ValueOf(s), "";
      NumeralsArePrinted(s);
    }
  }

  /** A digit string that does not start with a zero is how its value is printed. */
  lemma {:induction false} NumeralsArePrinted(s: string)
    requires s != "" && AllDigits(s) && (s[0] != '0' || |s| == 1)
    ensures Digits(ValueOf(s)) == s && (|s| > 1 ==> ValueOf(s) > 0)
  {
    var init, last := s[..|s| - 1], s[|s| - 1];
    assert s == init + [last];
    if init == "" {
      assert ValueOf(s) == (last - '0') as nat;
    } else {
      NumeralsArePrinted(init);
      if |init| == 1 {
        assert init[..0] == "";
      }
      assert ValueOf(s) / 10 == ValueOf(init) && ValueOf(s) % 10 == (last - '0') as nat;
    }
  }

  /** The text is an optional sign and the digits `d`, whose value with the sign is `n`. */
  predicate Numeral(s: string, d: string, n: int) {
    && d != "" && (forall i :: 0 <= i < |d| ==> '0' <= d[i] <= '9') && AllDigits(d)
    && (|| (s == "-" + d && n == -(ValueOf(d) as int))
        || ((s == d || s == "+" + d) && n == ValueOf(d)))
  }

  lemma NumeralOf(s: string) returns (d: string)
    requires Atoi(s).Some?
    ensures Numeral(s, d, Atoi(s).value)
  {
    hide ValueOf;
    d := if s[0] == '+' || s[0] == '-' then s[1..] else s;
    assert s[0] == '-' ==> s == "-" + d;
    assert s[0] == '+' ==> s == "+" + d;
  }

  lemma ReadsNumeral(s: string, d: string, n: int)
    requires Numeral(s, d, n)
    ensures Atoi(s) == if -9223372036854775808 <= n <= 9223372036854775807 then Some(n) else None
  {
    hide ValueOf;
    if s == d {
      assert IsDigit(s[0]);
    } else if s == "-" + d {
      assert s[0] == '-' && s[1..] == d;
    } else {
      assert s[0] == '+' && s[1..] == d;
    }
  }

  /** A text is read as an integer exactly if it is a numeral and its value fits 64 bits. */
  lemma AtoiReads(s: string, n: int)
    ensures Atoi(s) == Some(n)
            <==> -9223372036854775808 <= n <= 9223372036854775807 && exists d :: Numeral(s, d, n)
  {
    if Atoi(s) == Some(n) {
      var d := NumeralOf(s);
      ReadsNumeral(s, d, n);
    }
    if d :| Numeral(s, d, n) {
      ReadsNumeral(s, d, n);
    }
  }
}
