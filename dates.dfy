/**
 * The date format `getDateFormat()` returns: the pattern `yyyyMMddHHmmss`, six
 * abutting numeric fields of widths 4, 2, 2, 2, 2, 2. A date is modelled by the
 * six numbers the pattern prints, so only whole seconds; milliseconds and calendar
 * arithmetic are not part of the model.
 */
module Dates {
  import opened Outcomes
  import opened Decimal

  datatype DateRec = DateRec(year: nat, month: nat, day: nat, hour: nat, minute: nat, second: nat)

  /** Every field fits the width its pattern letter gives it. */
  predicate Representable(d: DateRec)
  {
    d.year < 10000 && d.month < 100 && d.day < 100 &&
    d.hour < 100 && d.minute < 100 && d.second < 100
  }

  /** `format(date)`: each field zero-padded to its width. */
  function FormatDate(d: DateRec): string
  {
    Digits(d.year, 4) + Digits(d.month, 2) + Digits(d.day, 2) +
    Digits(d.hour, 2) + Digits(d.minute, 2) + Digits(d.second, 2)
  }

  /**
   * `parse(s, new ParsePosition(0))`, read as a 14-digit codec: the first 14 characters
   * must be digits and are read field by field, and the rest is ignored. Java's
   * seconds field is not bounded to two digits and may be shorter; this reading
   * keeps it to exactly two. `None` is the `null` that `parse` returns when it fails.
   */
  function ParseDate(s: string): Option<DateRec>
  {
    if |s| >= 14 && AllDigits(s[..14]) then Some(ReadFields(s[..14])) else None
  }

  /** The six numbers of a 14-digit string, read at the pattern's offsets. */
  function ReadFields(t: string): DateRec
    requires |t| == 14 && AllDigits(t)
  {
    DateRec(ValueOf(t[0..4]), ValueOf(t[4..6]), ValueOf(t[6..8]),
            ValueOf(t[8..10]), ValueOf(t[10..12]), ValueOf(t[12..14]))
  }

  lemma Field(n: nat, w: nat)
    requires w == 2 || w == 4
    requires n < if w == 2 then 100 else 10000
    ensures |Digits(n, w)| == w && AllDigits(Digits(n, w)) && ValueOf(Digits(n, w)) == n
  {
    assert Pow10(2) == 100;
    assert Pow10(4) == 10000;
    DigitsWidth(n, w);
    ValueOfDigits(n, w);
  }

  /** Two digit strings side by side are a digit string. */
  lemma AllDigitsConcat(a: string, b: string)
    requires AllDigits(a) && AllDigits(b)
    ensures AllDigits(a + b)
  {
    forall i | 0 <= i < |a + b| ensures IsDigit((a + b)[i]) {
      if i >= |a| { assert (a + b)[i] == b[i - |a|]; }
    }
  }

  /** The six fields of a 14-character pattern sit at fixed offsets. */
  lemma FieldOffsets(y: string, mo: string, dd: string, h: string, mi: string, se: string)
    requires |y| == 4 && |mo| == 2 && |dd| == 2 && |h| == 2 && |mi| == 2 && |se| == 2
    ensures var s := y + mo + dd + h + mi + se;
            |s| == 14 && s[0..4] == y && s[4..6] == mo && s[6..8] == dd &&
            s[8..10] == h && s[10..12] == mi && s[12..14] == se
  {
    var s5 := y + mo + dd + h + mi;
    var s4 := y + mo + dd + h;
    var s3 := y + mo + dd;
    var s2 := y + mo;
    var s := s5 + se;
    assert s[12..14] == se;
    assert s[..12] == s5 && s[10..12] == s5[10..12] == mi;
    assert s5[..10] == s4 && s[8..10] == s4[8..10] == h;
    assert s4[..8] == s3 && s[6..8] == s3[6..8] == dd;
    assert s3[..6] == s2 && s[4..6] == s2[4..6] == mo;
    assert s[0..4] == s2[0..4] == y;
  }

  /** A representable date prints as 14 digits, and parsing them gives the date back. */
  lemma FormatThenParse(d: DateRec)
    requires Representable(d)
    ensures |FormatDate(d)| == 14
    ensures ParseDate(FormatDate(d)) == Some(d)
  {
    var y, mo, dd := Digits(d.year, 4), Digits(d.month, 2), Digits(d.day, 2);
    var h, mi, se := Digits(d.hour, 2), Digits(d.minute, 2), Digits(d.second, 2);
    Field(d.year, 4);
    Field(d.month, 2);
    Field(d.day, 2);
    Field(d.hour, 2);
    Field(d.minute, 2);
    Field(d.second, 2);
    FieldOffsets(y, mo, dd, h, mi, se);
    AllDigitsConcat(y, mo);
    AllDigitsConcat(y + mo, dd);
    AllDigitsConcat(y + mo + dd, h);
    AllDigitsConcat(y + mo + dd + h, mi);
    AllDigitsConcat(y + mo + dd + h + mi, se);
    var s := FormatDate(d);
    assert s[..14] == s;
  }

  /** A 14-character string is its six fields side by side. */
  lemma Reassemble(t: string)
    requires |t| == 14
    ensures t == t[0..4] + t[4..6] + t[6..8] + t[8..10] + t[10..12] + t[12..14]
  {
    FieldOffsets(t[0..4], t[4..6], t[6..8], t[8..10], t[10..12], t[12..14]);
  }

  /** One field read back: its digits print as themselves at the field's width. */
  lemma FieldBack(t: string, i: nat, j: nat)
    requires i < j <= |t| && AllDigits(t)
    ensures AllDigits(t[i..j]) && Digits(ValueOf(t[i..j]), j - i) == t[i..j]
  {
    assert forall k :: 0 <= k < j - i ==> t[i..j][k] == t[i + k];
    DigitsOfValue(t[i..j]);
  }

  /** The fields read from 14 digits fit the pattern and print as those digits. */
  lemma ReadThenFormat(t: string)
    requires |t| == 14 && AllDigits(t)
    ensures Representable(ReadFields(t))
    ensures FormatDate(ReadFields(t)) == t
  {
    assert Pow10(2) == 100 && Pow10(4) == 10000;
    var r := ReadFields(t);
    FieldBack(t, 0, 4);
    FieldBack(t, 4, 6);
    FieldBack(t, 6, 8);
    FieldBack(t, 8, 10);
    FieldBack(t, 10, 12);
    FieldBack(t, 12, 14);
    Reassemble(t);
    assert Digits(r.year, 4) == t[0..4] && Digits(r.month, 2) == t[4..6] && Digits(r.day, 2) == t[6..8];
    assert Digits(r.hour, 2) == t[8..10] && Digits(r.minute, 2) == t[10..12] && Digits(r.second, 2) == t[12..14];
  }

  /** Whatever parses is representable and prints as the 14 characters it was read from. */
  lemma ParseThenFormat(s: string)
    requires ParseDate(s).Some?
    ensures Representable(ParseDate(s).value)
    ensures FormatDate(ParseDate(s).value) == s[..14]
  {
    ReadThenFormat(s[..14]);
  }
}
