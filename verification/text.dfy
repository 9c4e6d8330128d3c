/** The java.lang.String and Integer operations the application's helpers
    call: trim, Integer.parseInt (radix 10), lastIndexOf and toLowerCase, on
    ASCII text. */
module Text {
  import opened Wrappers

  /** The 32-bit range of a Java int. */
  const IntMin: int := -0x8000_0000
  const IntMax: int := 0x7fff_ffff

  // ---------------------------------------------------------------------------
  // trim

  /** trim drops every character up to and including U+0020. */
  predicate IsTrimmed(c: char)
  {
    c <= ' '
  }

  /** The characters trim removes from the front. */
  function TrimStart(s: string): (t: string)
    ensures |t| <= |s| && t == s[|s| - |t|..]
    ensures forall k :: 0 <= k < |s| - |t| ==> IsTrimmed(s[k])
    ensures |t| > 0 ==> !IsTrimmed(t[0])
    decreases |s|
  {
    if |s| > 0 && IsTrimmed(s[0]) then TrimStart(s[1..]) else s
  }

  /** The characters trim removes from the back. */
  function TrimEnd(s: string): (t: string)
    ensures |t| <= |s| && t == s[..|t|]
    ensures forall k :: |t| <= k < |s| ==> IsTrimmed(s[k])
    ensures |t| > 0 ==> !IsTrimmed(t[|t| - 1])
    decreases |s|
  {
    if |s| > 0 && IsTrimmed(s[|s| - 1]) then TrimEnd(s[..|s| - 1]) else s
  }

  /** String.trim. */
  function Trim(s: string): (t: string)
    ensures |t| <= |s|
    ensures |t| > 0 ==> !IsTrimmed(t[0]) && !IsTrimmed(t[|t| - 1])
    ensures exists a :: BlankAround(s, t, a)
  {
    var front := TrimStart(s);
    var t := TrimEnd(front);
    TrimSlice(s, front, t);
    t
  }

  /** t is the slice of s that starts at a, and every character of s outside
      it is blank. */
  predicate BlankAround(s: string, t: string, a: int)
  {
    && 0 <= a <= |s| - |t|
    && t == s[a..][..|t|]
    && (forall k :: 0 <= k < a ==> IsTrimmed(s[k]))
    && (forall k :: a + |t| <= k < |s| ==> IsTrimmed(s[k]))
  }

  /** A blank-free-at-the-edges prefix t of a suffix `front` of s, where only
      blanks were dropped on either side, is a slice of s with only blanks
      around it: what trimming the front and then the back leaves. */
  lemma TrimSlice(s: string, front: string, t: string)
    requires |front| <= |s| && front == s[|s| - |front|..]
    requires forall k :: 0 <= k < |s| - |front| ==> IsTrimmed(s[k])
    requires |t| <= |front| && t == front[..|t|]
    requires forall k :: |t| <= k < |front| ==> IsTrimmed(front[k])
    ensures BlankAround(s, t, |s| - |front|)
  {
    var a := |s| - |front|;
    assert t == s[a..][..|t|];
    forall k | a + |t| <= k < |s|
      ensures IsTrimmed(s[k])
    {
      assert s[k] == front[k - a];
    }
  }

  /** Trimming twice trims nothing more. */
  lemma TrimIdempotent(s: string)
    ensures Trim(Trim(s)) == Trim(s)
  {
    var t := Trim(s);
    if |t| > 0 {
      assert TrimStart(t) == t;
      assert TrimEnd(t) == t;
    }
  }

  // ---------------------------------------------------------------------------
  // Integer.parseInt and Integer.toString

  predicate IsDigit(c: char)
  {
    '0' <= c <= '9'
  }

  predicate AllDigits(s: string)
  {
    forall k :: 0 <= k < |s| ==> IsDigit(s[k])
  }

  function DigitValue(c: char): int
    requires IsDigit(c)
  {
    c as int - '0' as int
  }

  /** The value of a digit string, most significant digit first. */
  function Value(s: string): nat
    requires AllDigits(s)
  {
    if |s| == 0 then 0 else Value(s[..|s| - 1]) * 10 + DigitValue(s[|s| - 1])
  }

  /** Integer.parseInt(s): an optional '-' or '+', then at least one digit, the
      value in the int range; None where it throws NumberFormatException. */
  function ParseInt(s: string): (r: Option<int>)
    ensures r.Some? ==> IntMin <= r.value <= IntMax
    ensures |s| == 0 ==> r.None?
  {
    if |s| == 0 then None
    else
      var negative := s[0] == '-';
      var digits := if s[0] == '-' || s[0] == '+' then s[1..] else s;
      if |digits| == 0 || !AllDigits(digits) then None
      else
        var v: int := if negative then 0 - Value(digits) as int else Value(digits);
        if IntMin <= v <= IntMax then Some(v) else None
  }

  /** s is an optional sign followed by at least one digit: no sign when k is
      0, a leading '-' or '+' when k is 1, and digits from position k on. */
  predicate SignedDigits(s: string, k: int)
  {
    0 <= k <= 1 && k < |s| && (k == 1 ==> s[0] == '-' || s[0] == '+') && AllDigits(s[k..])
  }

  /** The value a signed digit string denotes: negated under a '-'. */
  function SignedValue(s: string, k: int): int
    requires SignedDigits(s, k)
  {
    if k == 1 && s[0] == '-' then 0 - Value(s[k..]) as int else Value(s[k..])
  }

  /** parseInt accepts exactly the signed digit strings whose value is an int,
      and returns that value. */
  lemma ParseIntCharacterised(s: string, v: int)
    ensures ParseInt(s) == Some(v)
            <==> (exists k :: SignedDigits(s, k) && SignedValue(s, k) == v) && IntMin <= v <= IntMax
  {
    if |s| > 0 {
      var k := if s[0] == '-' || s[0] == '+' then 1 else 0;
      if SignedDigits(s, k) {
        assert ParseInt(s) == if IntMin <= SignedValue(s, k) <= IntMax then Some(SignedValue(s, k)) else None;
      }
    }
  }

  /** Leading zeros do not change the value of a digit string. */
  lemma {:induction false} LeadingZero(d: string)
    requires AllDigits(d)
    ensures AllDigits("0" + d) && Value("0" + d) == Value(d)
  {
    if |d| > 0 {
      var z := "0" + d;
      assert z[..|z| - 1] == "0" + d[..|d| - 1];
      LeadingZero(d[..|d| - 1]);
    }
  }

  /** A zero after the sign, or at the front, is ignored: "007" reads as "07"
      and so as 7. */
  lemma ParseIntLeadingZero(sign: string, d: string)
    requires sign == "" || sign == "-" || sign == "+"
    requires |d| > 0 && AllDigits(d)
    ensures ParseInt(sign + "0" + d) == ParseInt(sign + d)
  {
    LeadingZero(d);
    var s1, s2 := sign + "0" + d, sign + d;
    assert s1[|sign|..] == "0" + d;
    assert s2[|sign|..] == d;
    if sign == "" {
      assert s1 == "0" + d && s2 == d;
      assert IsDigit(s1[0]) && IsDigit(s2[0]);
    } else {
      assert s1[0] == s2[0] == sign[0];
    }
  }

  /** A character that is neither a digit nor the leading sign is refused
      wherever it stands, as in "1a2". */
  lemma ParseIntRejectsAnywhere(s: string, i: int)
    requires 0 <= i < |s| && !IsDigit(s[i])
    requires i == 0 ==> s[0] != '-' && s[0] != '+'
    ensures ParseInt(s) == None
  {
    if i > 0 && (s[0] == '-' || s[0] == '+') {
      assert s[1..][i - 1] == s[i];
    }
  }

  function DigitChar(d: int): char
    requires 0 <= d < 10
  {
    ('0' as int + d) as char
  }

  /** The decimal digits of n, as Integer.toString writes them. */
  function Digits(n: nat): (s: string)
    ensures |s| > 0 && AllDigits(s)
  {
    if n < 10 then [DigitChar(n)] else Digits(n / 10) + [DigitChar(n % 10)]
  }

  /** Integer.toString. */
  function IntToString(n: int): string
  {
    if n < 0 then "-" + Digits(-n) else Digits(n)
  }

  /** Reading back the digits of n gives n. */
  lemma {:induction false} ValueOfDigits(n: nat)
    ensures Value(Digits(n)) == n
  {
    if n >= 10 {
      var s := Digits(n);
      ValueOfDigits(n / 10);
      assert s[..|s| - 1] == Digits(n / 10);
    }
  }

  /** parseInt reads back every int toString writes. */
  lemma ParseIntToString(n: int)
    requires IntMin <= n <= IntMax
    ensures ParseInt(IntToString(n)) == Some(n)
  {
    if n < 0 {
      ValueOfDigits(-n);
      assert IntToString(n)[1..] == Digits(-n);
    } else {
      ValueOfDigits(n);
      assert Digits(n)[0] != '-' && Digits(n)[0] != '+';
    }
  }

  /** Integer.toString of a value outside the int range, such as 2147483648,
      is refused. */
  lemma ParseIntOutOfRange(n: int)
    requires n < IntMin || n > IntMax
    ensures ParseInt(IntToString(n)) == None
  {
    var s := IntToString(n);
    if n < 0 {
      ValueOfDigits(-n);
      assert s[0] == '-' && s[1..] == Digits(-n);
      assert 0 - Value(s[1..]) as int == n;
    } else {
      ValueOfDigits(n);
      assert s == Digits(n) && IsDigit(s[0]);
      assert Value(s) == n;
    }
  }

  /** A leading '+' is accepted and changes nothing. */
  lemma ParseIntPlus(n: int)
    requires 0 <= n <= IntMax
    ensures ParseInt("+" + IntToString(n)) == Some(n)
  {
    ValueOfDigits(n);
    assert ("+" + IntToString(n))[1..] == Digits(n);
  }

  /** A sign alone, or any character other than a digit after the sign, is
      rejected. */
  lemma ParseIntRejects(s: string)
    requires s == "-" || s == "+" || (|s| > 0 && !IsDigit(s[|s| - 1]))
    ensures ParseInt(s) == None
  {
    if |s| > 1 {
      var digits := if s[0] == '-' || s[0] == '+' then s[1..] else s;
      assert digits[|digits| - 1] == s[|s| - 1];
    }
  }

  // ---------------------------------------------------------------------------
  // lastIndexOf and toLowerCase

  /** String.lastIndexOf(c): the last position holding c, or −1. */
  function LastIndexOf(s: string, c: char): (i: int)
    ensures -1 <= i < |s|
    ensures i == -1 <==> c !in s
    ensures i >= 0 ==> s[i] == c
    ensures forall k :: i < k < |s| ==> s[k] != c
    decreases |s|
  {
    if |s| == 0 then -1
    else if s[|s| - 1] == c then |s| - 1
    else LastIndexOf(s[..|s| - 1], c)
  }

  /** What follows the last c holds no c. */
  lemma AfterLastIndex(s: string, c: char)
    ensures c !in s[LastIndexOf(s, c) + 1..]
  {
  }

  function LowerChar(c: char): char
  {
    if 'A' <= c <= 'Z' then (c as int - 'A' as int + 'a' as int) as char else c
  }

  /** toLowerCase on ASCII letters. */
  function ToLower(s: string): (t: string)
    ensures |t| == |s|
    ensures forall k :: 0 <= k < |s| ==> t[k] == LowerChar(s[k])
  {
    seq(|s|, k requires 0 <= k < |s| => LowerChar(s[k]))
  }

  /** Lower-casing maps '.' to itself and nothing else to '.', and leaves no
      upper-case ASCII letter. */
  lemma LowerKeepsDots(s: string)
    ensures '.' in ToLower(s) <==> '.' in s
    ensures forall k :: 0 <= k < |s| ==> !('A' <= ToLower(s)[k] <= 'Z')
  {
    var t := ToLower(s);
    if '.' in t {
      var k :| 0 <= k < |t| && t[k] == '.';
      assert s[k] == '.';
    }
    if '.' in s {
      var k :| 0 <= k < |s| && s[k] == '.';
      assert t[k] == '.';
    }
  }
}
