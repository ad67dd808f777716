/** The string operations of Python that the modelled code relies on. */
module PyText {
  import opened Outcomes

  /** The characters that `str.strip()` removes. */
  predicate IsSpace(c: char) {
    || '\t' <= c <= '\r'
    || '\U{1c}' <= c <= ' '
    || c == '\U{85}' || c == '\U{a0}' || c == '\U{1680}'
    || '\U{2000}' <= c <= '\U{200a}'
    || c == '\U{2028}' || c == '\U{2029}' || c == '\U{202f}' || c == '\U{205f}' || c == '\U{3000}'
  }

  /** The twenty-nine characters that count as white space. */
  lemma SpacesExactly(c: char)
    ensures IsSpace(c) <==>
      || c as int in {9, 10, 11, 12, 13, 28, 29, 30, 31, 32, 133, 160, 5760}
      || c as int in {8192, 8193, 8194, 8195, 8196, 8197, 8198, 8199, 8200, 8201, 8202}
      || c as int in {8232, 8233, 8239, 8287, 12288}
  {
  }

  function StripLeft(s: string): string {
    if s != "" && IsSpace(s[0]) then StripLeft(s[1..]) else s
  }

  function StripRight(s: string): string {
    if s != "" && IsSpace(s[|s| - 1]) then StripRight(s[..|s| - 1]) else s
  }

  function Strip(s: string): string {
    StripRight(StripLeft(s))
  }

  predicate Blank(s: string) {
    forall i :: 0 <= i < |s| ==> IsSpace(s[i])
  }

  /** No character to strip at either end. */
  predicate Trimmed(s: string) {
    s != "" ==> !IsSpace(s[0]) && !IsSpace(s[|s| - 1])
  }

  lemma {:induction false} StripLeftParts(s: string) returns (lead: string)
    ensures s == lead + StripLeft(s) && Blank(lead)
    ensures StripLeft(s) != "" ==> !IsSpace(StripLeft(s)[0])
  {
    if s != "" && IsSpace(s[0]) {
      var rest := StripLeftParts(s[1..]);
      lead := [s[0]] + rest;
    } else {
      lead := "";
    }
  }

  lemma {:induction false} StripRightParts(s: string) returns (trail: string)
    ensures s == StripRight(s) + trail && Blank(trail)
    ensures StripRight(s) != "" ==> !IsSpace(StripRight(s)[|StripRight(s)| - 1])
  {
    if s != "" && IsSpace(s[|s| - 1]) {
      var rest := StripRightParts(s[..|s| - 1]);
      trail := rest + [s[|s| - 1]];
      hide StripRight, IsSpace;
    } else {
      trail := "";
    }
  }

  /** Stripping removes blanks only, and leaves a trimmed string. */
  lemma StripParts(s: string) returns (lead: string, trail: string)
    ensures s == lead + Strip(s) + trail && Blank(lead) && Blank(trail) && Trimmed(Strip(s))
  {
    lead := StripLeftParts(s);
    trail := StripRightParts(StripLeft(s));
    assert Strip(s) != "" ==> Strip(s)[0] == StripLeft(s)[0];
  }

  lemma {:induction false} StripLeftBlank(lead: string, s: string)
    requires Blank(lead)
    ensures StripLeft(lead + s) == StripLeft(s)
  {
    if lead == "" {
      assert lead + s == s;
    } else {
      assert (lead + s)[1..] == lead[1..] + s;
      StripLeftBlank(lead[1..], s);
    }
  }

  lemma {:induction false} StripRightBlank(s: string, trail: string)
    requires Blank(trail)
    ensures StripRight(s + trail) == StripRight(s)
  {
    if trail == "" {
      assert s + trail == s;
    } else {
      var n := |trail| - 1;
      assert (s + trail)[..|s + trail| - 1] == s + trail[..n];
      StripRightBlank(s, trail[..n]);
    }
  }

  /** The converse: blanks around a trimmed string are exactly what stripping removes. */
  lemma StripAround(lead: string, s: string, trail: string)
    requires Blank(lead) && Blank(trail) && Trimmed(s)
    ensures Strip(lead + s + trail) == s
  {
    if s == "" {
      assert lead + s + trail == lead + trail;
      StripLeftBlank(lead, trail);
      StripLeftBlank(trail, "");
      assert trail + "" == trail;
    } else {
      assert lead + s + trail == lead + (s + trail);
      StripLeftBlank(lead, s + trail);
      assert StripLeft(s + trail) == s + trail;
      StripRightBlank(s, trail);
    }
  }

  lemma StripBlank(s: string)
    ensures Strip(s) == "" <==> Blank(s)
  {
    var lead, trail := StripParts(s);
    if Blank(s) {
      StripAround(s, "", "");
      assert s + "" + "" == s;
    }
  }

  // --------------------------------------------------------------- order

  /** Python's order on strings. */
  predicate Before(a: string, b: string) {
    b != "" && (a == "" || a[0] < b[0] || (a[0] == b[0] && Before(a[1..], b[1..])))
  }

  lemma {:induction false} BeforeTotal(a: string, b: string)
    ensures Before(a, b) || a == b || Before(b, a)
  {
    if a != "" && b != "" && a[0] == b[0] {
      BeforeTotal(a[1..], b[1..]);
      assert a == [a[0]] + a[1..] && b == [b[0]] + b[1..];
    }
  }

  lemma {:induction false} BeforeTransitive(a: string, b: string, c: string)
    requires Before(a, b) && Before(b, c)
    ensures Before(a, c)
  {
    if a != "" && a[0] == b[0] == c[0] {
      BeforeTransitive(a[1..], b[1..], c[1..]);
    }
  }

  lemma {:induction false} BeforeIrreflexive(a: string)
    ensures !Before(a, a)
  {
    if a != "" {
      BeforeIrreflexive(a[1..]);
    }
  }

  // ------------------------------------------------------------ integers

  function Digit(d: nat): char
    requires d < 10
  {
    ('0' as int + d) as char
  }

  /** `str(n)` of a natural number. */
  function NatText(n: nat): string {
    if n < 10 then [Digit(n)] else NatText(n / 10) + [Digit(n % 10)]
  }

  /** Decimal digits, with single underscores between them allowed. */
  function ParseDigits(s: string): Option<nat> {
    if s == "" || !('0' <= s[|s| - 1] <= '9') then None else
      var d := s[|s| - 1] as int - '0' as int;
      if |s| == 1 then Some(d) else
        var rest := ParseDigits(if s[|s| - 2] == '_' then s[..|s| - 2] else s[..|s| - 1]);
        if rest.Some? then Some(10 * rest.value + d) else None
  }

  /** `int(s)`: None models the ValueError. */
  function ParseInt(s: string): Option<int> {
    var t := Strip(s);
    if t == "" then None
    else if t[0] == '-' then
      match ParseDigits(t[1..])
      case Some(m) => Some(-(m as int))
      case None => None
    else
      match ParseDigits(if t[0] == '+' then t[1..] else t)
      case Some(m) => Some(m as int)
      case None => None
  }

  lemma {:induction false} NatTextDigits(n: nat)
    ensures NatText(n) != "" && forall i :: 0 <= i < |NatText(n)| ==> '0' <= NatText(n)[i] <= '9'
  {
    if n >= 10 {
      NatTextDigits(n / 10);
    }
  }

  lemma {:induction false} ParseNatText(n: nat)
    ensures ParseDigits(NatText(n)) == Some(n)
  {
    if n >= 10 {
      ParseNatText(n / 10);
      NatTextDigits(n / 10);
      var s := NatText(n);
      assert s[..|s| - 1] == NatText(n / 10);
    }
  }

  lemma StripNatText(n: nat)
    ensures Strip(NatText(n)) == NatText(n)
  {
    NatTextDigits(n);
    StripAround("", NatText(n), "");
    assert "" + NatText(n) + "" == NatText(n);
  }

  /** Decimal text reads back as the number it was written from. */
  lemma IntRoundTrip(n: nat)
    ensures ParseInt(NatText(n)) == Some(n)
  {
    StripNatText(n);
    NatTextDigits(n);
    ParseNatText(n);
  }

  /** Digits with single underscores between them. */
  predicate DigitGroups(s: string) {
    && s != "" && '0' <= s[0] <= '9' && '0' <= s[|s| - 1] <= '9'
    && (forall i :: 0 <= i < |s| ==> s[i] == '_' || '0' <= s[i] <= '9')
    && (forall i :: 0 < i < |s| && s[i] == '_' ==> s[i - 1] != '_')
  }

  lemma {:induction false} ReadableExactly(s: string)
    ensures ParseDigits(s).Some? <==> DigitGroups(s)
  {
    if |s| > 1 && '0' <= s[|s| - 1] <= '9' {
      ReadableExactly(if s[|s| - 2] == '_' then s[..|s| - 2] else s[..|s| - 1]);
    }
  }

  function Ungrouped(s: string): string {
    if s == "" then "" else Ungrouped(s[..|s| - 1]) + if s[|s| - 1] == '_' then "" else [s[|s| - 1]]
  }

  /** Underscores do not change the number that is read. */
  lemma {:induction false} GroupsDoNotMatter(s: string)
    requires ParseDigits(s).Some?
    ensures Ungrouped(s) != "" && (forall i :: 0 <= i < |Ungrouped(s)| ==> '0' <= Ungrouped(s)[i] <= '9')
    ensures ParseDigits(Ungrouped(s)) == ParseDigits(s)
  {
    if |s| == 1 {
      assert s[..0] == "" && Ungrouped(s) == s;
    } else {
      var rest := if s[|s| - 2] == '_' then s[..|s| - 2] else s[..|s| - 1];
      GroupsDoNotMatter(rest);
      UngroupedDigit(s);
      var plain := Ungrouped(s);
      assert plain[..|plain| - 1] == Ungrouped(rest) && plain[|plain| - 2] == Ungrouped(rest)[|Ungrouped(rest)| - 1];
      ReadOneMore(plain);
      GroupedRead(s);
      hide ParseDigits, Ungrouped;
    }
  }

  lemma UngroupedDigit(s: string)
    requires |s| > 1 && s[|s| - 1] != '_'
    ensures Ungrouped(s) == Ungrouped(if s[|s| - 2] == '_' then s[..|s| - 2] else s[..|s| - 1]) + [s[|s| - 1]]
  {
    var plain := s[..|s| - 1];
    assert plain[|plain| - 1] == s[|s| - 2] && plain[..|plain| - 1] == s[..|s| - 2];
  }

  lemma GroupedRead(s: string)
    requires |s| > 1 && ParseDigits(s).Some?
    ensures var rest := ParseDigits(if s[|s| - 2] == '_' then s[..|s| - 2] else s[..|s| - 1]);
      && '0' <= s[|s| - 1] <= '9' && rest.Some?
      && ParseDigits(s) == Some(10 * rest.value + (s[|s| - 1] as int - '0' as int))
  {
  }

  lemma ReadOneMore(s: string)
    requires |s| > 1 && '0' <= s[|s| - 1] <= '9' && s[|s| - 2] != '_'
    ensures var rest := ParseDigits(s[..|s| - 1]);
      ParseDigits(s) == if rest.Some? then Some(10 * rest.value + (s[|s| - 1] as int - '0' as int)) else None
  {
  }

  /** A text of digits is the decimal text of the number it reads as, with zeros in front. */
  lemma {:induction false} DigitsAreDecimal(s: string, value: nat) returns (zeros: nat)
    requires ParseDigits(s) == Some(value) && '_' !in s
    ensures s == Zeros(zeros) + NatText(value)
  {
    if |s| == 1 {
      zeros := 0;
      assert s == [Digit(value)];
    } else {
      GroupedRead(s);
      zeros := DigitsAreDecimal(s[..|s| - 1], value / 10);
      hide ParseDigits, Zeros, NatText;
      assert s == s[..|s| - 1] + [Digit(value % 10)];
      zeros := OneMoreDigit(s[..|s| - 1], zeros, value);
    }
  }

  lemma OneMoreDigit(earlier: string, before: nat, value: nat) returns (zeros: nat)
    requires earlier == Zeros(before) + NatText(value / 10)
    ensures earlier + [Digit(value % 10)] == Zeros(zeros) + NatText(value)
  {
    if value < 10 {
      assert NatText(0) == "0" && NatText(value) == [Digit(value)];
      ZeroAtEnd(before);
      zeros := before + 1;
    } else {
      assert NatText(value) == NatText(value / 10) + [Digit(value % 10)];
      zeros := before;
    }
  }

  lemma {:induction false} ZeroAtEnd(n: nat)
    ensures Zeros(n) + "0" == Zeros(n + 1)
  {
    if n > 0 {
      ZeroAtEnd(n - 1);
    }
  }

  /** `int` reads stripped text: a sign or none, and then the digits of the number. */
  lemma IntExactly(s: string, body: string)
    requires body != "" && body[0] != '+' && body[0] != '-'
    ensures Strip(s) == "" ==> ParseInt(s) == None
    ensures Strip(s) == body || Strip(s) == "+" + body ==> (ParseInt(s).Some? <==> ParseDigits(body).Some?)
    ensures (Strip(s) == body || Strip(s) == "+" + body) && ParseDigits(body).Some? ==> ParseInt(s).value == ParseDigits(body).value
    ensures Strip(s) == "-" + body ==> (ParseInt(s).Some? <==> ParseDigits(body).Some?)
    ensures Strip(s) == "-" + body && ParseDigits(body).Some? ==> ParseInt(s).value + ParseDigits(body).value == 0
  {
    hide ParseDigits, Strip;
    var t := Strip(s);
    assert t == "+" + body || t == "-" + body ==> t[1..] == body;
  }

  lemma NatTextInjective(m: nat, n: nat)
    requires NatText(m) == NatText(n)
    ensures m == n
  {
    ParseNatText(m);
    ParseNatText(n);
  }

  function Zeros(n: nat): (zeros: string)
    ensures forall i :: 0 <= i < |zeros| ==> zeros[i] == '0'
  {
    if n == 0 then "" else "0" + Zeros(n - 1)
  }

  /** `f"{n:03d}"`. */
  function Padded(n: nat): string {
    var text := NatText(n);
    Zeros(if |text| < 3 then 3 - |text| else 0) + text
  }

  lemma {:induction false} ParseZeros(zeros: nat, digits: string)
    requires digits != "" && forall i :: 0 <= i < |digits| ==> '0' <= digits[i] <= '9'
    ensures ParseDigits(Zeros(zeros) + digits) == ParseDigits(digits)
  {
    hide ParseDigits;
    if zeros == 0 {
      assert Zeros(zeros) + digits == digits;
    } else {
      ParseZeros(zeros - 1, digits);
      var rest := Zeros(zeros - 1) + digits;
      assert Zeros(zeros) + digits == "0" + rest;
      LeadingZero(rest);
    }
  }

  lemma {:induction false} LeadingZero(digits: string)
    requires digits != "" && forall i :: 0 <= i < |digits| ==> '0' <= digits[i] <= '9'
    ensures ParseDigits("0" + digits) == ParseDigits(digits)
  {
    var s := "0" + digits;
    if |digits| > 1 {
      LeadingZero(digits[..|digits| - 1]);
      assert s[..|s| - 1] == "0" + digits[..|digits| - 1];
    } else {
      assert s[..1] == "0";
    }
  }

  /** Below a thousand a number is written with three digits, from there on as it is. */
  lemma PaddedExactly(n: nat)
    ensures n < 10 ==> Padded(n) == "00" + NatText(n)
    ensures 10 <= n < 100 ==> Padded(n) == "0" + NatText(n)
    ensures 100 <= n ==> Padded(n) == NatText(n)
    ensures 100 <= n < 1000 ==> |Padded(n)| == 3
  {
    NatTextLength(n);
    hide NatText, Digit;
    assert Zeros(2) == "0" + Zeros(1) && Zeros(1) == "0" + Zeros(0) && Zeros(0) == "";
  }

  lemma NatTextLength(n: nat)
    ensures |NatText(n)| == 1 <==> n < 10
    ensures |NatText(n)| == 2 <==> 10 <= n < 100
    ensures |NatText(n)| == 3 <==> 100 <= n < 1000
    ensures |NatText(n)| > 0
  {
    NatTextDigits(n);
    if 10 <= n {
      NatTextDigits(n / 10);
    }
    if 100 <= n {
      NatTextDigits(n / 100);
    }
    if 1000 <= n {
      NatTextDigits(n / 1000);
    }
    hide Digit;
  }

  lemma PaddedInjective(m: nat, n: nat)
    requires Padded(m) == Padded(n)
    ensures m == n
  {
    NatTextDigits(m);
    NatTextDigits(n);
    ParseZeros(if |NatText(m)| < 3 then 3 - |NatText(m)| else 0, NatText(m));
    ParseZeros(if |NatText(n)| < 3 then 3 - |NatText(n)| else 0, NatText(n));
    ParseNatText(m);
    ParseNatText(n);
  }
}
