/**
  Reading a single-quoted workflow name, as section 7.3.2 of YAML 1.2.2 writes one on a line:
  an apostrophe inside the quotes is doubled, and a comment may follow.
 */
module WorkflowNames {
  import opened Outcomes
  import opened PyText

  datatype NameError = EmptyName | Unterminated | TrailingContent

  const QUOTE := '\''

  /** The text with every apostrophe doubled. */
  function Double(s: string): string {
    if s == "" then "" else (if s[0] == QUOTE then [QUOTE, QUOTE] else [s[0]]) + Double(s[1..])
  }

  /** Left to right, every pair of apostrophes becomes one. */
  function Undouble(s: string): string {
    if |s| >= 2 && s[0] == QUOTE && s[1] == QUOTE then [QUOTE] + Undouble(s[2..])
    else if s == "" then "" else [s[0]] + Undouble(s[1..])
  }

  /** How far the quoted body reaches in what follows the opening quote. */
  function BodyLength(rest: string): (n: nat)
    ensures n <= |rest|
  {
    if rest == "" then 0
    else if rest[0] != QUOTE then 1 + BodyLength(rest[1..])
    else if |rest| > 1 && rest[1] == QUOTE then 2 + BodyLength(rest[2..])
    else 0
  }

  /** Only a comment may follow the closing quote. */
  predicate CommentOrNothing(tail: string) {
    Strip(tail) == "" || Strip(tail)[0] == '#'
  }

  /** A stripped value that opens with an apostrophe. */
  function SingleQuoted(value: string): Result<string, NameError>
    requires value != "" && value[0] == QUOTE
  {
    var n := BodyLength(value[1..]);
    if 1 + n == |value| then Err(Unterminated)
    else if !CommentOrNothing(value[n + 2..]) then Err(TrailingContent)
    else
      var name := Strip(Undouble(value[1..n + 1]));
      if name == "" then Err(EmptyName) else Ok(name)
  }

  /** `otherForm` stands for the branches of double-quoted and plain names. */
  function ParseNameValue(raw: string, otherForm: string -> Result<string, NameError>): Result<string, NameError> {
    var value := Strip(raw);
    if value == "" then Err(EmptyName)
    else if value[0] == QUOTE then SingleQuoted(value)
    else otherForm(value)
  }

  /** The scan for the closing quote, character by character. */
  method ParseName(raw: string, otherForm: string -> Result<string, NameError>) returns (r: Result<string, NameError>)
    ensures r == ParseNameValue(raw, otherForm)
  {
    hide Strip, StripLeft, StripRight, IsSpace, Undouble;
    var value := Strip(raw);
    if value == "" {
      return Err(EmptyName);
    }
    if value[0] != QUOTE {
      return otherForm(value);
    }
    var end := 1;
    while end < |value|
      invariant 1 <= end <= |value|
      invariant end + BodyLength(value[end..]) == 1 + BodyLength(value[1..])
    {
      if value[end] != QUOTE {
        assert value[end..][1..] == value[end + 1..];
        end := end + 1;
        continue;
      }
      if end + 1 < |value| && value[end + 1] == QUOTE {
        assert value[end..][2..] == value[end + 2..];
        end := end + 2;
        continue;
      }
      break;
    }
    if end >= |value| {
      return Err(Unterminated);
    }
    var suffix := Strip(value[end + 1..]);
    if suffix != "" && suffix[0] != '#' {
      return Err(TrailingContent);
    }
    var parsed := Strip(Undouble(value[1..end]));
    if parsed == "" {
      return Err(EmptyName);
    }
    r := Ok(parsed);
  }

  // --------------------------------------------------------- quoting laws

  lemma {:induction false} UndoubleDouble(s: string)
    ensures Undouble(Double(s)) == s
  {
    if s != "" {
      UndoubleDouble(s[1..]);
      var head := if s[0] == QUOTE then [QUOTE, QUOTE] else [s[0]];
      assert Double(s)[|head|..] == Double(s[1..]);
    }
  }

  lemma PairRedoubles(later: string)
    ensures Double(Undouble([QUOTE, QUOTE] + later)) == [QUOTE, QUOTE] + Double(Undouble(later))
  {
    assert ([QUOTE, QUOTE] + later)[2..] == later;
    assert ([QUOTE] + Undouble(later))[1..] == Undouble(later);
  }

  lemma PlainRedoubles(c: char, later: string)
    requires c != QUOTE
    ensures Double(Undouble([c] + later)) == [c] + Double(Undouble(later))
  {
    assert ([c] + later)[1..] == later;
    assert ([c] + Undouble(later))[1..] == Undouble(later);
  }

  /** The scanned body is a doubled text. */
  lemma {:induction false} BodyIsDoubled(rest: string)
    ensures Double(Undouble(rest[..BodyLength(rest)])) == rest[..BodyLength(rest)]
  {
    hide Double, Undouble;
    var n := BodyLength(rest);
    if n == 0 {
      NothingRedoubles();
      assert rest[..n] == "";
    } else {
      var k := if rest[0] == QUOTE then 2 else 1;
      BodyIsDoubled(rest[k..]);
      var later := rest[k..][..n - k];
      assert rest[..n] == rest[..k] + later;
      if k == 2 {
        PairRedoubles(later);
        assert rest[..k] == [QUOTE, QUOTE];
      } else {
        PlainRedoubles(rest[0], later);
        assert rest[..k] == [rest[0]];
      }
    }
  }

  lemma NothingRedoubles()
    ensures Double(Undouble("")) == ""
  {
  }

  /** The scan stops at the end or at an apostrophe that is not doubled. */
  lemma {:induction false} BodyEndsAtQuote(rest: string)
    ensures var n := BodyLength(rest);
      n < |rest| ==> rest[n] == QUOTE && (n + 1 < |rest| ==> rest[n + 1] != QUOTE)
  {
    if rest != "" && BodyLength(rest) > 0 {
      BodyEndsAtQuote(rest[if rest[0] == QUOTE then 2 else 1..]);
    }
  }

  /** The scan finds the end of a doubled text, whatever unquoted tail follows. */
  lemma {:induction false} DoubledIsBody(s: string, tail: string)
    requires tail != "" ==> tail[0] != QUOTE
    ensures BodyLength(Double(s) + [QUOTE] + tail) == |Double(s)|
  {
    var rest := Double(s) + [QUOTE] + tail;
    if s != "" {
      DoubledIsBody(s[1..], tail);
      var head := if s[0] == QUOTE then [QUOTE, QUOTE] else [s[0]];
      assert rest[|head|..] == Double(s[1..]) + [QUOTE] + tail;
    }
  }

  function Quoted(s: string): string {
    [QUOTE] + Double(s) + [QUOTE]
  }

  /** The value is a quoted text with a tail that does not go on with a quote. */
  predicate OpensWith(value: string, s: string, tail: string) {
    value == Quoted(s) + tail && (tail != "" ==> tail[0] != QUOTE)
  }

  /** What the parser makes of a correctly quoted text and an unquoted tail. */
  lemma QuotedValue(s: string, tail: string)
    requires tail != "" ==> tail[0] != QUOTE
    ensures SingleQuoted(Quoted(s) + tail) ==
      if !CommentOrNothing(tail) then Err(TrailingContent)
      else if Strip(s) == "" then Err(EmptyName)
      else Ok(Strip(s))
  {
    var value := Quoted(s) + tail;
    DoubledIsBody(s, tail);
    UndoubleDouble(s);
    assert value[1..] == Double(s) + [QUOTE] + tail;
    var n := |Double(s)|;
    assert value[1..n + 1] == Double(s);
    assert value[n + 2..] == tail;
  }

  /** Every value that opens with an apostrophe is unterminated or is a quoted text with an unquoted tail. */
  lemma ValueSplits(value: string) returns (s: string, tail: string)
    requires value != "" && value[0] == QUOTE && SingleQuoted(value) != Err(Unterminated)
    ensures OpensWith(value, s, tail)
  {
    var rest := value[1..];
    var n := BodyLength(rest);
    BodyIsDoubled(rest);
    BodyEndsAtQuote(rest);
    s := Undouble(rest[..n]);
    tail := value[n + 2..];
    assert value == [value[0]] + rest[..n] + [rest[n]] + tail;
  }

  lemma CommentNotQuote(tail: string)
    requires CommentOrNothing(tail)
    ensures tail != "" ==> tail[0] != QUOTE
  {
    var lead, trail := StripParts(tail);
    if tail != "" && lead == "" {
      assert tail == Strip(tail) + trail;
      if Strip(tail) == "" {
        assert IsSpace(trail[0]);
      }
    } else if tail != "" {
      assert IsSpace(lead[0]);
    }
  }

  /** A value that starts with text to keep loses only the blanks at its end. */
  lemma StripTail(head: string, tail: string)
    requires head != "" && !IsSpace(head[0]) && !IsSpace(head[|head| - 1])
    ensures Strip(head + tail) == head + StripRight(tail)
  {
    hide IsSpace, Strip, StripRight;
    var trail := StripRightParts(tail);
    var kept := head + StripRight(tail);
    assert kept[|kept| - 1] == if StripRight(tail) == "" then head[|head| - 1] else StripRight(tail)[|StripRight(tail)| - 1];
    assert head + tail == "" + kept + trail;
    StripAround("", kept, trail);
  }

  lemma StripOfStripRight(tail: string)
    ensures Strip(StripRight(tail)) == Strip(tail)
  {
    hide IsSpace, Strip, StripRight;
    var trail := StripRightParts(tail);
    var lead, end := StripParts(StripRight(tail));
    assert tail == lead + Strip(StripRight(tail)) + (end + trail);
    StripAround(lead, Strip(StripRight(tail)), end + trail);
  }

  /** Quoting a text and reading it back gives the stripped text, also before a comment and after blanks. */
  lemma SingleQuotedRoundTrip(lead: string, s: string, tail: string, otherForm: string -> Result<string, NameError>)
    requires Blank(lead) && CommentOrNothing(tail) && !Blank(s)
    ensures ParseNameValue(lead + Quoted(s) + tail, otherForm) == Ok(Strip(s))
  {
    var value := Strip(lead + Quoted(s) + tail);
    StripLeadingBlank(lead, Quoted(s) + tail);
    assert lead + Quoted(s) + tail == lead + (Quoted(s) + tail);
    StripTail(Quoted(s), tail);
    StripOfStripRight(tail);
    CommentNotQuote(StripRight(tail));
    StripBlank(s);
    QuotedValue(s, StripRight(tail));
  }

  lemma StripLeadingBlank(lead: string, s: string)
    requires Blank(lead)
    ensures Strip(lead + s) == Strip(s)
  {
    StripLeftBlank(lead, s);
  }

  /** A single-quoted value is accepted exactly if it is a non-blank text, quoted, before nothing or a comment; the name is that text stripped. */
  lemma AcceptedExactly(raw: string, name: string, otherForm: string -> Result<string, NameError>)
    requires Strip(raw) != "" && Strip(raw)[0] == QUOTE
    ensures ParseNameValue(raw, otherForm) == Ok(name) <==>
      exists s, tail :: OpensWith(Strip(raw), s, tail) && CommentOrNothing(tail) && Strip(s) == name && name != ""
  {
    var value := Strip(raw);
    if ParseNameValue(raw, otherForm) == Ok(name) {
      var s, tail := ValueSplits(value);
      QuotedValue(s, tail);
      assert OpensWith(value, s, tail) && CommentOrNothing(tail);
    }
    if s, tail :| OpensWith(value, s, tail) && CommentOrNothing(tail) && Strip(s) == name && name != "" {
      QuotedValue(s, tail);
    }
  }

  /** The value ends inside the quotes exactly if no quoted text starts it. */
  lemma UnterminatedExactly(raw: string, otherForm: string -> Result<string, NameError>)
    requires Strip(raw) != "" && Strip(raw)[0] == QUOTE
    ensures ParseNameValue(raw, otherForm) == Err(Unterminated) <==>
      !exists s, tail :: OpensWith(Strip(raw), s, tail)
  {
    var value := Strip(raw);
    if ParseNameValue(raw, otherForm) != Err(Unterminated) {
      var s, tail := ValueSplits(value);
      assert OpensWith(value, s, tail);
    }
    if s, tail :| OpensWith(value, s, tail) {
      QuotedValue(s, tail);
    }
  }

  /** The quoted body of an accepted value is its decoded text with the apostrophes doubled again. */
  lemma DecodedBodyRedoubles(value: string) returns (n: nat)
    requires value != "" && value[0] == QUOTE && SingleQuoted(value).Ok?
    ensures 1 + n < |value| && value[1 + n] == QUOTE
    ensures Double(Undouble(value[1..1 + n])) == value[1..1 + n]
    ensures SingleQuoted(value) == Ok(Strip(Undouble(value[1..1 + n])))
  {
    n := BodyLength(value[1..]);
    BodyIsDoubled(value[1..]);
    BodyEndsAtQuote(value[1..]);
    assert value[1..][..n] == value[1..1 + n];
  }
}
