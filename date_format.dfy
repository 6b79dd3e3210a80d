/** The date shown on a review card (reviews.js, formatDate): `DD.MM.YYYY HH:MM`,
    built from the fields a JavaScript Date reports in the viewer's time zone.
    Each field is turned into text with String(n) and left-padded with "0" to
    two characters by padStart; the year is not padded. */
module DateFormat {

  datatype Option<T> = None | Some(value: T)

  /** The fields formatDate reads: getFullYear, getMonth (0-based), getDate,
      getHours and getMinutes. */
  datatype DateParts = DateParts(year: int, month: nat, day: nat, hours: nat, minutes: nat)

  /** The ranges a valid Date's getters stay in. */
  predicate InRange(d: DateParts)
  {
    d.month < 12 && 1 <= d.day <= 31 && d.hours < 24 && d.minutes < 60
  }

  predicate IsDigit(c: char) { '0' <= c <= '9' }

  predicate AllDigits(s: string) { forall i :: 0 <= i < |s| ==> IsDigit(s[i]) }

  function DigitValue(c: char): (v: nat)
    requires IsDigit(c)
    ensures v < 10
  {
    c as int - '0' as int
  }

  function DigitChar(v: nat): (c: char)
    requires v < 10
    ensures IsDigit(c) && DigitValue(c) == v
  {
    ('0' as int + v) as char
  }

  /** String(n) for a non-negative integer: its decimal digits, the shortest
      run that spells n, so it starts with '0' only for 0 itself. */
  function NatToString(n: nat): (s: string)
    ensures |s| >= 1 && AllDigits(s)
    ensures |s| == 1 <==> n < 10
    ensures s[0] == '0' <==> n == 0
  {
    if n < 10 then [DigitChar(n)] else NatToString(n / 10) + [DigitChar(n % 10)]
  }

  /** String(i) for any integer: a minus sign before the digits of a negative
      one, and no leading zeros. */
  function IntToString(i: int): (s: string)
    ensures |s| >= 1 && (s[0] == '-' <==> i < 0)
    ensures var t := if i < 0 then s[1..] else s;
              |t| >= 1 && AllDigits(t) && (t[0] == '0' <==> i == 0)
  {
    if i < 0 then "-" + NatToString(-i) else NatToString(i)
  }

  /** s.padStart(width, fill) with a one-character fill: the fill is repeated on
      the left until the text is `width` long; longer text is left alone. */
  function PadStart(s: string, width: nat, fill: char): (r: string)
    ensures |r| == if |s| >= width then |s| else width
    ensures r[|r| - |s|..] == s
    ensures forall i :: 0 <= i < |r| - |s| ==> r[i] == fill
  {
    if |s| >= width then s else seq(width - |s|, _ => fill) + s
  }

  /** String(n).padStart(2, "0"): one leading zero for a single digit, none
      for two digits or more. */
  function Pad2(n: nat): (r: string)
    ensures n < 10 ==> r == ['0'] + NatToString(n)
    ensures n >= 10 ==> r == NatToString(n)
  {
    var s := NatToString(n);
    var r := PadStart(s, 2, '0');
    assert n < 10 ==> r == ['0'] + s by {
      if n < 10 {
        assert r[..1] == ['0'] && r[1..] == s;
        assert r == r[..1] + r[1..];
      }
    }
    r
  }

  /** formatDate: for the fields of a valid Date the text is 12 characters plus
      the year, with '.', '.', ' ' and ':' between the fields. */
  function FormatDate(d: DateParts): (r: string)
    ensures InRange(d) ==>
              |r| == 12 + |IntToString(d.year)| &&
              r[2] == '.' && r[5] == '.' && r[|r| - 6] == ' ' && r[|r| - 3] == ':'
  {
    var r := Pad2(d.day) + "." + Pad2(d.month + 1) + "." + IntToString(d.year) + " " +
             Pad2(d.hours) + ":" + Pad2(d.minutes);
    assert InRange(d) ==>
             |r| == 12 + |IntToString(d.year)| &&
             r[2] == '.' && r[5] == '.' && r[|r| - 6] == ' ' && r[|r| - 3] == ':'
    by {
      if InRange(d) {
        FieldsLayout(d);
      }
    }
    r
  }

  /** The layout of the fields of a valid Date, each padded to two digits. */
  lemma FieldsLayout(d: DateParts)
    requires InRange(d)
    ensures var r := Pad2(d.day) + "." + Pad2(d.month + 1) + "." + IntToString(d.year) + " " +
                     Pad2(d.hours) + ":" + Pad2(d.minutes);
      |r| == 12 + |IntToString(d.year)| &&
      r[2] == '.' && r[5] == '.' && r[|r| - 6] == ' ' && r[|r| - 3] == ':'
  {
    var dd, mm, yy, hh, mi := Pad2(d.day), Pad2(d.month + 1), IntToString(d.year), Pad2(d.hours), Pad2(d.minutes);
    assert |dd| == 2 by { Pad2Parses(d.day); }
    assert |mm| == 2 by { Pad2Parses(d.month + 1); }
    assert |hh| == 2 by { Pad2Parses(d.hours); }
    assert |mi| == 2 by { Pad2Parses(d.minutes); }
    LayoutSlices(dd + "." + mm + "." + yy + " " + hh + ":" + mi, dd, mm, yy, hh, mi);
  }

  // ---- Reading a formatted date back: the inverse of FormatDate ----

  function ParseNat(s: string): nat
    requires AllDigits(s)
  {
    if s == [] then 0 else 10 * ParseNat(s[..|s| - 1]) + DigitValue(s[|s| - 1])
  }

  function ParseInt(s: string): Option<int>
  {
    if |s| > 1 && s[0] == '-' && AllDigits(s[1..]) then Some(0 - ParseNat(s[1..]) as int)
    else if |s| > 0 && AllDigits(s) then Some(ParseNat(s))
    else None
  }

  function ParseTwoDigits(s: string): Option<nat>
  {
    if |s| == 2 && AllDigits(s) then Some(ParseNat(s)) else None
  }

  /** Reads `DD.MM.Y… HH:MM` back into its fields (the month given 1-based). */
  function ParseDate(s: string): Option<DateParts>
  {
    if |s| < 13 || s[2] != '.' || s[5] != '.' || s[|s| - 6] != ' ' || s[|s| - 3] != ':' then None
    else
      var day := ParseTwoDigits(s[..2]);
      var month := ParseTwoDigits(s[3..5]);
      var year := ParseInt(s[6..|s| - 6]);
      var hours := ParseTwoDigits(s[|s| - 5..|s| - 3]);
      var minutes := ParseTwoDigits(s[|s| - 2..]);
      if day.None? || month.None? || month.value == 0 || year.None? || hours.None? || minutes.None?
      then None
      else Some(DateParts(year.value, month.value - 1, day.value, hours.value, minutes.value))
  }

  lemma {:induction false} NatToStringParses(n: nat)
    ensures ParseNat(NatToString(n)) == n
  {
    if n >= 10 {
      var s := NatToString(n);
      assert s[..|s| - 1] == NatToString(n / 10);
      NatToStringParses(n / 10);
    }
  }

  lemma IntToStringParses(i: int)
    ensures ParseInt(IntToString(i)) == Some(i)
  {
    var s := IntToString(i);
    if i < 0 {
      var digits := NatToString(-i);
      assert s[1..] == digits;
      NatToStringParses(-i);
      assert ParseNat(s[1..]) == -i;
    } else {
      NatToStringParses(i);
      assert IsDigit(s[0]);
    }
  }

  /** Every field under 100 is padded to exactly two digits that read back as it. */
  lemma Pad2Parses(n: nat)
    requires n < 100
    ensures |Pad2(n)| == 2
    ensures ParseTwoDigits(Pad2(n)) == Some(n)
  {
    var s := NatToString(n);
    NatToStringParses(n);
    if n < 10 {
      var r := Pad2(n);
      assert r == ['0'] + s;
      assert r[..1] == ['0'] && r[1] == s[0] && ParseNat(['0']) == 0;
      assert ParseNat(r) == 10 * ParseNat(r[..1]) + DigitValue(r[1]);
      assert ParseNat(s) == 10 * ParseNat([]) + DigitValue(s[0]);
    } else {
      assert |NatToString(n / 10)| == 1;
    }
  }

  /** The formatted date is unambiguous: for the fields of a valid Date, reading
      the text back gives the same day, month, year, hours and minutes, so each
      field sits in its place, padded to two digits, with the separators between. */
  lemma FormatDateRoundTrip(d: DateParts)
    requires InRange(d)
    ensures ParseDate(FormatDate(d)) == Some(d)
  {
    var dd, mm, yy, hh, mi := Pad2(d.day), Pad2(d.month + 1), IntToString(d.year), Pad2(d.hours), Pad2(d.minutes);
    assert |dd| == 2 && ParseTwoDigits(dd) == Some(d.day) by { Pad2Parses(d.day); }
    assert |mm| == 2 && ParseTwoDigits(mm) == Some(d.month + 1) by { Pad2Parses(d.month + 1); }
    assert ParseInt(yy) == Some(d.year) by { IntToStringParses(d.year); }
    assert |hh| == 2 && ParseTwoDigits(hh) == Some(d.hours) by { Pad2Parses(d.hours); }
    assert |mi| == 2 && ParseTwoDigits(mi) == Some(d.minutes) by { Pad2Parses(d.minutes); }
    ParseLayout(dd, mm, yy, hh, mi, d);
  }

  /** ParseDate reads each field back from its place in the layout. */
  lemma ParseLayout(dd: string, mm: string, yy: string, hh: string, mi: string, d: DateParts)
    requires |dd| == 2 && |mm| == 2 && |yy| >= 1 && |hh| == 2 && |mi| == 2
    requires ParseTwoDigits(dd) == Some(d.day) && ParseTwoDigits(mm) == Some(d.month + 1)
    requires ParseInt(yy) == Some(d.year)
    requires ParseTwoDigits(hh) == Some(d.hours) && ParseTwoDigits(mi) == Some(d.minutes)
    ensures ParseDate(dd + "." + mm + "." + yy + " " + hh + ":" + mi) == Some(d)
  {
    var s := dd + "." + mm + "." + yy + " " + hh + ":" + mi;
    LayoutSlices(s, dd, mm, yy, hh, mi);
    ParseDateOfFields(s, d);
  }

  /** Where each field of `DD.MM.Y… HH:MM` sits, whatever the year's length. */
  lemma LayoutSlices(s: string, dd: string, mm: string, yy: string, hh: string, mi: string)
    requires |dd| == 2 && |mm| == 2 && |yy| >= 1 && |hh| == 2 && |mi| == 2
    requires s == dd + "." + mm + "." + yy + " " + hh + ":" + mi
    ensures |s| == 12 + |yy| && s[2] == '.' && s[5] == '.' && s[|s| - 6] == ' ' && s[|s| - 3] == ':'
    ensures s[..2] == dd && s[3..5] == mm && s[6..|s| - 6] == yy
    ensures s[|s| - 5..|s| - 3] == hh && s[|s| - 2..] == mi
  {
  }

  /** ParseDate succeeds on a text whose separators and fields read as `d`'s. */
  lemma ParseDateOfFields(s: string, d: DateParts)
    requires |s| >= 13 && s[2] == '.' && s[5] == '.' && s[|s| - 6] == ' ' && s[|s| - 3] == ':'
    requires ParseTwoDigits(s[..2]) == Some(d.day)
    requires ParseTwoDigits(s[3..5]) == Some(d.month + 1)
    requires ParseInt(s[6..|s| - 6]) == Some(d.year)
    requires ParseTwoDigits(s[|s| - 5..|s| - 3]) == Some(d.hours)
    requires ParseTwoDigits(s[|s| - 2..]) == Some(d.minutes)
    ensures ParseDate(s) == Some(d)
  {
  }

  /** The worked example: 5 March 2024, 09:07 is shown as "05.03.2024 09:07". */
  lemma FormatDateExample()
    ensures FormatDate(DateParts(2024, 2, 5, 9, 7)) == "05.03.2024 09:07"
  {
  }
}
