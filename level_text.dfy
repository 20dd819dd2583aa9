/** Reading a level from a job label and writing a level into the name label:
    `text.Split(' ')[0]`, `int.TryParse` and `int.ToString()` for the
    values the handler produces. */
module LevelText {
  import opened Wrappers
  import Int32

  predicate IsDigit(c: char) {
    '0' <= c <= '9'
  }

  predicate AllDigits(s: string) {
    forall i :: 0 <= i < |s| ==> IsDigit(s[i])
  }

  /** The first element of `text.Split(' ')`: everything before the first
      space, or the whole text when it has none. */
  function FirstToken(text: string): (t: string)
    ensures t <= text
    ensures ' ' !in t
    ensures |t| < |text| ==> text[|t|] == ' '
  {
    if text == [] || text[0] == ' ' then []
    else [text[0]] + FirstToken(text[1..])
  }

  /** A word without spaces, followed by nothing or by a space, is the
      first token of the text. */
  lemma {:induction false} FirstTokenOfWord(w: string, rest: string)
    requires ' ' !in w
    requires rest == [] || rest[0] == ' '
    ensures FirstToken(w + rest) == w
  {
    if w != [] {
      assert (w + rest)[1..] == w[1..] + rest;
      FirstTokenOfWord(w[1..], rest);
    }
  }

  /** The value of a run of decimal digits, most significant first. */
  function DigitsValue(s: string): nat
    requires AllDigits(s)
  {
    if s == [] then 0
    else DigitsValue(s[..|s| - 1]) * 10 + (s[|s| - 1] - '0') as int
  }

  /** The digits of an integer text: the text without its leading sign. */
  function Unsigned(s: string): string {
    if |s| > 0 && (s[0] == '-' || s[0] == '+') then s[1..] else s
  }

  /** The text `int.TryParse` accepts: an optional `+` or `-` sign followed
      by at least one decimal digit. */
  predicate IsIntegerText(s: string) {
    |Unsigned(s)| > 0 && AllDigits(Unsigned(s))
  }

  /** `int.TryParse`: the value of an integer text, when it fits in an `int`. */
  function TryParseInt(s: string): (r: Option<int>)
    ensures r.Some? ==> IsIntegerText(s) && Int32.InRange(r.value)
    ensures r.Some? && |s| > 0 && s[0] == '-' ==> r.value <= 0
    ensures r.Some? && !(|s| > 0 && s[0] == '-') ==> r.value >= 0
    ensures IsIntegerText(s) && s[0] == '-' ==>
      (r.Some? <==> DigitsValue(Unsigned(s)) <= -Int32.Min) &&
      (r.Some? ==> r.value == -(DigitsValue(Unsigned(s)) as int))
    ensures IsIntegerText(s) && s[0] != '-' ==>
      (r.Some? <==> DigitsValue(Unsigned(s)) <= Int32.Max) &&
      (r.Some? ==> r.value == DigitsValue(Unsigned(s)))
  {
    if !IsIntegerText(s) then None
    else
      var magnitude: int := DigitsValue(Unsigned(s));
      var v: int := if |s| > 0 && s[0] == '-' then -magnitude else magnitude;
      if Int32.InRange(v) then Some(v) else None
  }

  /** `n.ToString()` for a non-negative `n`: its decimal digits, with no
      leading zero. */
  function NatToString(n: nat): (s: string)
    ensures |s| > 0 && AllDigits(s)
    ensures n > 0 ==> s[0] != '0'
  {
    var last := ['0' + (n % 10) as char];
    if n < 10 then last else NatToString(n / 10) + last
  }

  lemma {:induction false} DigitsValueOfNatToString(n: nat)
    ensures DigitsValue(NatToString(n)) == n
  {
    var s := NatToString(n);
    if n >= 10 {
      DigitsValueOfNatToString(n / 10);
      assert s[..|s| - 1] == NatToString(n / 10);
    }
  }

  /** What `int.ToString()` writes, `int.TryParse` reads back. */
  lemma ParseFormatRoundTrip(n: nat)
    requires n <= Int32.Max
    ensures TryParseInt(NatToString(n)) == Some(n)
  {
    DigitsValueOfNatToString(n);
  }

  /** A label that starts with a written level, and is followed by nothing
      or by a space, yields that level. */
  lemma ReadLevelRoundTrip(n: nat, rest: string)
    requires n <= Int32.Max
    requires rest == [] || rest[0] == ' '
    ensures TryParseInt(FirstToken(NatToString(n) + rest)) == Some(n)
  {
    FirstTokenOfWord(NatToString(n), rest);
    ParseFormatRoundTrip(n);
  }

  /** A leading `+` changes nothing: "+5" reads as "5" does. */
  lemma PlusSignIgnored(s: string)
    requires !(|s| > 0 && (s[0] == '+' || s[0] == '-'))
    ensures TryParseInt("+" + s) == TryParseInt(s)
  {
    assert Unsigned("+" + s) == s;
  }

  /** A leading zero adds nothing to the value of a run of digits. */
  lemma {:induction false} DigitsValueLeadingZero(d: string)
    requires AllDigits(d)
    ensures AllDigits("0" + d) && DigitsValue("0" + d) == DigitsValue(d)
  {
    if d != [] {
      var init := d[..|d| - 1];
      DigitsValueLeadingZero(init);
      assert ("0" + d)[..|d|] == "0" + init;
    }
  }

  /** A leading zero changes nothing: "07" reads as "7" does, and "-07" as "-7". */
  lemma LeadingZeroIgnored(sign: string, d: string)
    requires sign == "" || sign == "+" || sign == "-"
    requires |d| > 0 && AllDigits(d)
    ensures TryParseInt(sign + "0" + d) == TryParseInt(sign + d)
  {
    DigitsValueLeadingZero(d);
    assert Unsigned(sign + "0" + d) == "0" + d;
    assert Unsigned(sign + d) == d;
  }

  /** A minus sign before a written magnitude reads back as its negation,
      down to the least `int`. */
  lemma NegativeRoundTrip(n: nat)
    requires n <= -Int32.Min
    ensures TryParseInt("-" + NatToString(n)) == Some(-(n as int))
  {
    DigitsValueOfNatToString(n);
    assert Unsigned("-" + NatToString(n)) == NatToString(n);
  }
}
