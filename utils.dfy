/**
 * utils.ts: the display formatter for Brazilian phone numbers. It is also the
 * "placeholder name" test of the reconciliation engine: a conversation whose
 * name equals the formatted phone still carries a generic name.
 */
module Utils {
  import opened Wrappers
  import opened Text

  /** Country code 55 followed by a two-digit area code and 8 or 9 digits. */
  predicate IsBrazilian(d: string) {
    |d| >= 2 && d[..2] == "55" && (|d| == 12 || |d| == 13)
  }

  /** `formatPhone`; the empty string covers every falsy argument. */
  function FormatPhone(phone: string): string {
    if phone == "" then ""
    else
      var cleaned := Digits(phone);
      if IsBrazilian(cleaned) then
        var ddd := cleaned[2..4];
        if |cleaned| == 13 then "+55 (" + ddd + ") " + cleaned[4..9] + "-" + cleaned[9..]
        else "+55 (" + ddd + ") " + cleaned[4..8] + "-" + cleaned[8..]
      else phone
  }

  /** A missing phone formats to the empty string too. */
  function FormatOptionalPhone(phone: Option<string>): (r: string)
    ensures phone.None? ==> r == ""
    ensures phone.Some? ==> r == FormatPhone(phone.value)
  {
    match phone
    case None => ""
    case Some(p) => FormatPhone(p)
  }

  lemma MaskLayout(ddd: string, p1: string, p2: string)
    requires |ddd| == 2
    ensures var r := "+55 (" + ddd + ") " + p1 + "-" + p2;
            && |r| == 10 + |p1| + |p2|
            && r[..5] == "+55 (" && r[5..7] == ddd && r[7..9] == ") "
            && r[9..9 + |p1|] == p1 && r[9 + |p1|] == '-' && r[10 + |p1|..] == p2
  {
    var r := "+55 (" + ddd + ") " + p1 + "-" + p2;
    assert r == ("+55 (" + ddd + ") ") + (p1 + "-" + p2);
    assert r[9..] == p1 + "-" + p2;
    assert r[9..][..|p1|] == p1;
    assert r[9..][|p1| + 1..] == p2;
  }

  /** The layout of the result, character by character, for both masks. */
  lemma FormatPhoneShape(phone: string)
    ensures phone == "" ==> FormatPhone(phone) == ""
    ensures phone != "" && !IsBrazilian(Digits(phone)) ==> FormatPhone(phone) == phone
    ensures phone != "" && IsBrazilian(Digits(phone)) && |Digits(phone)| == 13 ==>
              var d, r := Digits(phone), FormatPhone(phone);
              && |r| == 19 && r[..5] == "+55 (" && r[5..7] == d[2..4] && r[7..9] == ") "
              && r[9..14] == d[4..9] && r[14] == '-' && r[15..] == d[9..]
    ensures phone != "" && IsBrazilian(Digits(phone)) && |Digits(phone)| == 12 ==>
              var d, r := Digits(phone), FormatPhone(phone);
              && |r| == 18 && r[..5] == "+55 (" && r[5..7] == d[2..4] && r[7..9] == ") "
              && r[9..13] == d[4..8] && r[13] == '-' && r[14..] == d[8..]
  {
    var d := Digits(phone);
    if phone != "" && IsBrazilian(d) {
      if |d| == 13 {
        MaskLayout(d[2..4], d[4..9], d[9..]);
      } else {
        MaskLayout(d[2..4], d[4..8], d[8..]);
      }
    }
  }

  lemma DigitsOfMaskPieces()
    ensures Digits("+55 (") == "55"
    ensures Digits(") ") == ""
    ensures Digits("-") == ""
  {
    assert "+55 ("[1..] == "55 (";
    assert "55 ("[1..] == "5 (";
    assert "5 ("[1..] == " (";
    assert " ("[1..] == "(";
    assert "("[1..] == "";
    assert ") "[1..] == " ";
    assert " "[1..] == "";
    assert "-"[1..] == "";
  }

  lemma {:induction false} DigitsOfMask(ddd: string, p1: string, p2: string)
    requires AllDigits(ddd) && AllDigits(p1) && AllDigits(p2)
    ensures Digits("+55 (" + ddd + ") " + p1 + "-" + p2) == "55" + ddd + p1 + p2
  {
    DigitsOfMaskPieces();
    DigitsConcat("+55 (" + ddd + ") " + p1 + "-", p2);
    DigitsConcat("+55 (" + ddd + ") " + p1, "-");
    DigitsConcat("+55 (" + ddd + ") ", p1);
    DigitsConcat("+55 (" + ddd, ") ");
    DigitsConcat("+55 (", ddd);
    DigitsOfAllDigits(ddd);
    DigitsOfAllDigits(p1);
    DigitsOfAllDigits(p2);
  }

  /** Formatting keeps exactly the digits of the input. */
  lemma {:induction false} FormatPhoneKeepsDigits(phone: string)
    ensures Digits(FormatPhone(phone)) == Digits(phone)
  {
    var d := Digits(phone);
    if phone != "" && IsBrazilian(d) {
      if |d| == 13 {
        DigitsOfMask(d[2..4], d[4..9], d[9..]);
        assert d == d[..2] + d[2..4] + d[4..9] + d[9..];
      } else {
        DigitsOfMask(d[2..4], d[4..8], d[8..]);
        assert d == d[..2] + d[2..4] + d[4..8] + d[8..];
      }
    }
  }

  /** Formatting an already formatted phone changes nothing. */
  lemma {:induction false} FormatPhoneIdempotent(phone: string)
    ensures FormatPhone(FormatPhone(phone)) == FormatPhone(phone)
  {
    var r := FormatPhone(phone);
    FormatPhoneKeepsDigits(phone);
    if phone != "" && IsBrazilian(Digits(phone)) {
      assert r != "" by { assert |r| >= 5; }
    }
  }
}
