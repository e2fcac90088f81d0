/**
 * Second-precision timestamps and the fixed-width parser that reads the
 * first 19 characters of an API timestamp in the pattern
 * `YYYY-MM-DDTHH:MM:SS` (what Python's `strptime` with the ISO date-time format
 * accepts on a 19-character prefix).
 */
module Timestamp {
  import opened Wrappers
  import opened Calendar

  datatype DateTime = DateTime(date: Date, hour: int, minute: int, second: int)

  /** A timestamp Python's `datetime` constructor accepts. */
  predicate ValidDateTime(t: DateTime) {
    ValidDate(t.date) && 0 <= t.hour < 24 && 0 <= t.minute < 60 && 0 <= t.second < 60
  }

  /** The timestamps a parsed slot can hold. */
  type Instant = t: DateTime | ValidDateTime(t) witness DateTime(FirstDate, 0, 0, 0)

  // ---- decimal digits ----

  predicate IsDigit(c: char) {
    '0' <= c <= '9'
  }

  predicate AllDigits(s: string) {
    forall i :: 0 <= i < |s| ==> IsDigit(s[i])
  }

  function DigitChar(d: int): (c: char)
    requires 0 <= d < 10
    ensures IsDigit(c)
  {
    ('0' as int + d) as char
  }

  function Pow10(w: nat): (p: nat)
    ensures p >= 1
  {
    if w == 0 then 1 else 10 * Pow10(w - 1)
  }

  /** The number a string of decimal digits denotes. */
  function DigitsValue(s: string): (n: nat)
    requires AllDigits(s)
  {
    if s == [] then 0
    else DigitsValue(s[..|s| - 1]) * 10 + (s[|s| - 1] as int - '0' as int)
  }

  /** `n` written in exactly `w` decimal digits, with leading zeros (`%02d`, `%04d`). */
  function Padded(n: nat, w: nat): (s: string)
    requires n < Pow10(w)
    ensures |s| == w && AllDigits(s)
  {
    if w == 0 then [] else Padded(n / 10, w - 1) + [DigitChar(n % 10)]
  }

  /** Reading back a padded number gives the number. */
  lemma {:induction false} ValueOfPadded(n: nat, w: nat)
    requires n < Pow10(w)
    ensures DigitsValue(Padded(n, w)) == n
  {
    if w > 0 {
      var s := Padded(n, w);
      assert s[..|s| - 1] == Padded(n / 10, w - 1);
      ValueOfPadded(n / 10, w - 1);
    }
  }

  /** Padding the value of a digit string to its own width gives the string back. */
  lemma {:induction false} PaddedOfValue(s: string)
    requires AllDigits(s)
    ensures DigitsValue(s) < Pow10(|s|)
    ensures Padded(DigitsValue(s), |s|) == s
  {
    if s != [] {
      var init := s[..|s| - 1];
      PaddedOfValue(init);
      var n := DigitsValue(s);
      assert n / 10 == DigitsValue(init) && n % 10 == s[|s| - 1] as int - '0' as int;
    }
  }

  // ---- the 19-character pattern ----

  /** `s[:19]`: the whole string if it is shorter. */
  function Prefix(s: string): (p: string)
    ensures |p| == if |s| < 19 then |s| else 19
    ensures p == s[..|p|]
  {
    if |s| <= 19 then s else s[..19]
  }

  /**
   * The day field: two digits, or a space and a digit from 1 to 9 (strptime's
   * `%d` admits a space-padded day).
   */
  predicate DayChars(s: string) {
    |s| == 2 && (AllDigits(s) || (s[0] == ' ' && '1' <= s[1] <= '9'))
  }

  function DayValue(s: string): (n: nat)
    requires DayChars(s)
    ensures n < 100
  {
    if s[0] == ' ' then s[1] as int - '0' as int
    else PaddedOfValue(s); DigitsValue(s)
  }

  /** A 19-character string laid out as `YYYY-MM-DDTHH:MM:SS` (the `T` in either case). */
  predicate Layout(p: string) {
    && |p| == 19
    && AllDigits(p[0..4]) && p[4] == '-'
    && AllDigits(p[5..7]) && p[7] == '-'
    && DayChars(p[8..10]) && (p[10] == 'T' || p[10] == 't')
    && AllDigits(p[11..13]) && p[13] == ':'
    && AllDigits(p[14..16]) && p[16] == ':'
    && AllDigits(p[17..19])
  }

  /** The fields a well-laid-out string spells, whether or not they form a real instant. */
  function Fields(p: string): DateTime
    requires Layout(p)
  {
    DateTime(Date(DigitsValue(p[0..4]), DigitsValue(p[5..7]), DayValue(p[8..10])),
             DigitsValue(p[11..13]), DigitsValue(p[14..16]), DigitsValue(p[17..19]))
  }

  /**
   * Parses the first 19 characters of `s`; None where strptime or the
   * `datetime` constructor raises ValueError.
   */
  function ParseTimestamp(s: string): (r: Option<DateTime>)
    ensures r.Some? ==> |s| >= 19 && Layout(s[..19]) && ValidDateTime(r.value)
    ensures r.Some? <==> |s| >= 19 && Layout(s[..19]) && ValidDateTime(Fields(s[..19]))
  {
    var p := Prefix(s);
    if Layout(p) && ValidDateTime(Fields(p)) then Some(Fields(p)) else None
  }

  /** Only the first 19 characters matter. */
  lemma ParseIgnoresSuffix(s: string, rest: string)
    requires |s| >= 19
    ensures ParseTimestamp(s + rest) == ParseTimestamp(s[..19])
  {
    assert (s + rest)[..19] == s[..19];
    assert Prefix(s[..19]) == s[..19];
  }

  /** `datetime.isoformat()` at second precision: the layout the parser reads. */
  function FormatIso(t: DateTime): (s: string)
    requires ValidDateTime(t)
    ensures |s| == 19
  {
    var y, mo, d := Padded(t.date.year, 4), Padded(t.date.month, 2), Padded(t.date.day, 2);
    var h, mi, se := Padded(t.hour, 2), Padded(t.minute, 2), Padded(t.second, 2);
    [y[0], y[1], y[2], y[3], '-', mo[0], mo[1], '-', d[0], d[1], 'T',
     h[0], h[1], ':', mi[0], mi[1], ':', se[0], se[1]]
  }

  /** Parsing undoes formatting, whatever follows the 19 characters (fractions, a zone). */
  lemma ParseFormatIso(t: DateTime, rest: string)
    requires ValidDateTime(t)
    ensures ParseTimestamp(FormatIso(t) + rest) == Some(t)
  {
    var p := FormatIso(t);
    ParseIgnoresSuffix(p, rest);
    assert p[..19] == p && Prefix(p) == p;
    IsoFields(t);
  }

  /** The ISO form is laid out as the parser expects and spells the fields of `t`. */
  lemma IsoFields(t: DateTime)
    requires ValidDateTime(t)
    ensures Layout(FormatIso(t)) && Fields(FormatIso(t)) == t
  {
    var p := FormatIso(t);
    IsoSlices(t);
    ValueOfPadded(t.date.year, 4);
    ValueOfPadded(t.date.month, 2);
    ValueOfPadded(t.date.day, 2);
    ValueOfPadded(t.hour, 2);
    ValueOfPadded(t.minute, 2);
    ValueOfPadded(t.second, 2);
    assert DayValue(p[8..10]) == t.date.day;
  }

  /** Each field of the ISO form is the zero-padded number, between the fixed separators. */
  lemma IsoSlices(t: DateTime)
    requires ValidDateTime(t)
    ensures var p := FormatIso(t);
      && p[0..4] == Padded(t.date.year, 4) && p[4] == '-'
      && p[5..7] == Padded(t.date.month, 2) && p[7] == '-'
      && p[8..10] == Padded(t.date.day, 2) && p[10] == 'T'
      && p[11..13] == Padded(t.hour, 2) && p[13] == ':'
      && p[14..16] == Padded(t.minute, 2) && p[16] == ':'
      && p[17..19] == Padded(t.second, 2)
  {
    var p := FormatIso(t);
    var y, mo, d := Padded(t.date.year, 4), Padded(t.date.month, 2), Padded(t.date.day, 2);
    var h, mi, se := Padded(t.hour, 2), Padded(t.minute, 2), Padded(t.second, 2);
    assert p[0..4] == [y[0], y[1], y[2], y[3]] == y;
    assert p[5..7] == [mo[0], mo[1]] == mo;
    assert p[8..10] == [d[0], d[1]] == d;
    assert p[11..13] == [h[0], h[1]] == h;
    assert p[14..16] == [mi[0], mi[1]] == mi;
    assert p[17..19] == [se[0], se[1]] == se;
  }

  /** The accepted spelling variants mapped to the canonical one: `T` upper-case, the day zero-padded. */
  function Canonical(p: string): (c: string)
    requires Layout(p)
    ensures |c| == 19
  {
    (if p[8] == ' ' then p[8 := '0'] else p)[10 := 'T']
  }

  /**
   * Formatting undoes parsing up to the spelling variants: whatever the parser
   * accepts is the ISO rendering of its result, so two prefixes parse to the
   * same timestamp only if they spell it the same way.
   */
  lemma FormatParse(s: string, t: DateTime)
    requires ParseTimestamp(s) == Some(t)
    ensures FormatIso(t) == Canonical(s[..19])
  {
    var p := s[..19];
    assert Prefix(s) == p;
    assert Layout(p) && Fields(p) == t;
    PaddedOfValue(p[0..4]);
    PaddedOfValue(p[5..7]);
    DayPadded(p[8..10]);
    PaddedOfValue(p[11..13]);
    PaddedOfValue(p[14..16]);
    PaddedOfValue(p[17..19]);
    CanonicalMatches(p, t);
  }

  /** A day field is the zero-padded form of its value once a leading space is read as `0`. */
  lemma DayPadded(q: string)
    requires DayChars(q)
    ensures Padded(DayValue(q), 2) == if q[0] == ' ' then "0" + [q[1]] else q
  {
    var day := if q[0] == ' ' then "0" + [q[1]] else q;
    assert AllDigits(day);
    PaddedOfValue(day);
    assert DigitsValue(day) == DayValue(q);
  }

  /** Character by character: the canonical spelling of `p` is the ISO form of `t` when their fields agree. */
  lemma CanonicalMatches(p: string, t: DateTime)
    requires Layout(p) && ValidDateTime(t)
    requires Padded(t.date.year, 4) == p[0..4] && Padded(t.date.month, 2) == p[5..7]
    requires Padded(t.date.day, 2) == if p[8..10][0] == ' ' then "0" + [p[8..10][1]] else p[8..10]
    requires Padded(t.hour, 2) == p[11..13] && Padded(t.minute, 2) == p[14..16] && Padded(t.second, 2) == p[17..19]
    ensures FormatIso(t) == Canonical(p)
  {
    var c := Canonical(p);
    var f := FormatIso(t);
    forall i | 0 <= i < 19
      ensures c[i] == f[i]
    {
      if i < 4 { assert p[i] == p[0..4][i]; }
      else if 5 <= i < 7 { assert p[i] == p[5..7][i - 5]; }
      else if 8 <= i < 10 { assert p[8..10] == [p[8], p[9]]; }
      else if 11 <= i < 13 { assert p[i] == p[11..13][i - 11]; }
      else if 14 <= i < 16 { assert p[i] == p[14..16][i - 14]; }
      else if 17 <= i { assert p[i] == p[17..19][i - 17]; }
    }
  }
}
