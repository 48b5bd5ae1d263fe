/**
 Journal timestamps.  A record stores an instant as fixed-width text
 `2006-01-02T15:04:05.000000000Z`, and the stores compare those texts with `<`.
 This module proves that comparing the texts compares the instants, and that a
 text is accepted exactly when it is the rendering of an instant.
 */
module Timestamps {

  import opened Wrappers

  // ---------------------------------------------------------------- calendar

  datatype Civil = Civil(year: nat, month: nat, day: nat, hour: nat, minute: nat, second: nat, nano: nat)

  predicate Leap(year: nat) {
    year % 4 == 0 && (year % 100 != 0 || year % 400 == 0)
  }

  function DaysInMonth(year: nat, month: nat): (days: nat)
    ensures 28 <= days <= 31
  {
    if month == 2 then (if Leap(year) then 29 else 28)
    else if month in {4, 6, 9, 11} then 30
    else 31
  }

  predicate ValidCivil(c: Civil) {
    && c.year <= 9999
    && 1 <= c.month <= 12
    && 1 <= c.day <= DaysInMonth(c.year, c.month)
    && c.hour < 24 && c.minute < 60 && c.second < 60 && c.nano < 1_000_000_000
  }

  /** A UTC instant that RFC 3339 can write down. */
  type Instant = c: Civil | ValidCivil(c) witness Civil(1, 1, 1, 0, 0, 0, 0)

  /** Go's zero time, which the stores refuse as a clock reading. */
  const ZERO_TIME: Instant := Civil(1, 1, 1, 0, 0, 0, 0)

  ghost function DaysBeforeMonth(year: nat, month: nat): nat {
    if month <= 1 then 0 else DaysBeforeMonth(year, month - 1) + DaysInMonth(year, month - 1)
  }

  ghost function DaysInYear(year: nat): nat {
    DaysBeforeMonth(year, 13)
  }

  ghost function DaysBeforeYear(year: nat): nat {
    if year == 0 then 0 else DaysBeforeYear(year - 1) + DaysInYear(year - 1)
  }

  ghost function DayNumber(c: Civil): nat {
    DaysBeforeYear(c.year) + DaysBeforeMonth(c.year, c.month) + c.day
  }

  /** Nanoseconds since the start of the calendar: the order of time. */
  ghost function Nanos(c: Civil): nat {
    (((DayNumber(c) * 24 + c.hour) * 60 + c.minute) * 60 + c.second) * 1_000_000_000 + c.nano
  }

  /** `t.Before(u)`. */
  predicate Before(t: Civil, u: Civil) {
    FieldsBefore(Fields(t), Fields(u))
  }

  lemma {:induction false} MonthsAccumulate(year: nat, m: nat, n: nat)
    requires 1 <= m < n
    ensures DaysBeforeMonth(year, m) + DaysInMonth(year, m) <= DaysBeforeMonth(year, n)
    decreases n
  {
    if m < n - 1 {
      MonthsAccumulate(year, m, n - 1);
    }
  }

  lemma {:induction false} YearsAccumulate(y: nat, z: nat)
    requires y < z
    ensures DaysBeforeYear(y) + DaysInYear(y) <= DaysBeforeYear(z)
    decreases z
  {
    if y < z - 1 {
      YearsAccumulate(y, z - 1);
    }
  }

  lemma DayOrder(t: Instant, u: Instant)
    requires t.year < u.year || (t.year == u.year && t.month < u.month)
          || (t.year == u.year && t.month == u.month && t.day < u.day)
    ensures DayNumber(t) < DayNumber(u)
  {
    if t.year < u.year {
      YearsAccumulate(t.year, u.year);
      MonthsAccumulate(t.year, t.month, 13);
    } else if t.month < u.month {
      MonthsAccumulate(t.year, t.month, u.month);
    }
  }

  // ------------------------------------------------------- fixed-width fields

  /** One field of the layout: a number, its width and the character after it. */
  datatype Field = Field(value: nat, width: nat, after: char)

  function Fields(c: Civil): (fs: seq<Field>) {
    [Field(c.year, 4, '-'), Field(c.month, 2, '-'), Field(c.day, 2, 'T'), Field(c.hour, 2, ':'),
     Field(c.minute, 2, ':'), Field(c.second, 2, '.'), Field(c.nano, 9, 'Z')]
  }

  function Pow10(n: nat): (p: nat)
    ensures p > 0
  {
    if n == 0 then 1 else 10 * Pow10(n - 1)
  }

  predicate Fits(f: Field) {
    f.value < Pow10(f.width)
  }

  predicate AllFit(fs: seq<Field>) {
    forall i :: 0 <= i < |fs| ==> Fits(fs[i])
  }

  /** Lexicographic order of the values of two field lists. */
  predicate FieldsBefore(fs: seq<Field>, gs: seq<Field>) {
    fs != [] && gs != [] &&
    (fs[0].value < gs[0].value || (fs[0].value == gs[0].value && FieldsBefore(fs[1..], gs[1..])))
  }

  ghost predicate SameLayout(fs: seq<Field>, gs: seq<Field>) {
    |fs| == |gs| && forall i :: 0 <= i < |fs| ==> fs[i].width == gs[i].width && fs[i].after == gs[i].after
  }

  function Digit(n: nat): (c: char)
    requires n < 10
    ensures '0' <= c <= '9'
  {
    '0' + n as char
  }

  function Digits(n: nat, width: nat): (text: string)
    requires n < Pow10(width)
    ensures |text| == width
  {
    if width == 0 then "" else Digits(n / 10, width - 1) + [Digit(n % 10)]
  }

  function Render(fs: seq<Field>): (text: string)
    requires AllFit(fs)
  {
    if fs == [] then ""
    else Digits(fs[0].value, fs[0].width) + [fs[0].after] + Render(fs[1..])
  }

  lemma InstantFits(t: Instant)
    ensures AllFit(Fields(t))
  {
    assert Pow10(2) == 100;
    assert Pow10(4) == 100 * Pow10(2);
    assert Pow10(6) == 100 * Pow10(4);
    assert Pow10(8) == 100 * Pow10(6);
    assert Pow10(9) == 10 * Pow10(8);
  }

  /** `profileTime`: the text a record carries. */
  function ProfileTime(t: Instant): (text: string) {
    InstantFits(t);
    Render(Fields(t))
  }

  // ------------------------------------------------------------- text order

  /** Go's `<` on strings. */
  predicate TextBefore(a: string, b: string) {
    b != [] && (a == [] || a[0] < b[0] || (a[0] == b[0] && TextBefore(a[1..], b[1..])))
  }

  lemma {:induction false} TextBeforeConcat(a: string, b: string, x: string, y: string)
    requires |a| == |b|
    ensures TextBefore(a + x, b + y) <==> TextBefore(a, b) || (a == b && TextBefore(x, y))
  {
    if a == [] {
      assert a + x == x && b + y == y;
    } else {
      assert (a + x)[1..] == a[1..] + x && (b + y)[1..] == b[1..] + y;
      TextBeforeConcat(a[1..], b[1..], x, y);
      if a[0] == b[0] && a[1..] == b[1..] {
        assert a == [a[0]] + a[1..] == b;
      }
    }
  }

  lemma {:induction false} DigitsOrder(m: nat, n: nat, width: nat)
    requires m < Pow10(width) && n < Pow10(width)
    ensures TextBefore(Digits(m, width), Digits(n, width)) <==> m < n
    ensures Digits(m, width) == Digits(n, width) <==> m == n
  {
    if width > 0 {
      var (a, b) := (Digits(m / 10, width - 1), Digits(n / 10, width - 1));
      var (x, y) := ([Digit(m % 10)], [Digit(n % 10)]);
      DigitsOrder(m / 10, n / 10, width - 1);
      TextBeforeConcat(a, b, x, y);
      assert TextBefore(x, y) <==> m % 10 < n % 10;
      if a + x == b + y {
        assert a == (a + x)[..width - 1] == b && x == (a + x)[width - 1..] == y;
        assert x[0] == y[0];
      }
    }
  }

  lemma {:induction false} RenderOrder(fs: seq<Field>, gs: seq<Field>)
    requires SameLayout(fs, gs)
    requires AllFit(fs)
    requires AllFit(gs)
    ensures TextBefore(Render(fs), Render(gs)) <==> FieldsBefore(fs, gs)
  {
    if fs != [] {
      var (a, b) := (Digits(fs[0].value, fs[0].width), Digits(gs[0].value, gs[0].width));
      DigitsOrder(fs[0].value, gs[0].value, fs[0].width);
      RenderOrder(fs[1..], gs[1..]);
      var (x, y) := ([fs[0].after] + Render(fs[1..]), [gs[0].after] + Render(gs[1..]));
      assert Render(fs) == a + x && Render(gs) == b + y;
      TextBeforeConcat(a, b, x, y);
      TextBeforeConcat([fs[0].after], [gs[0].after], Render(fs[1..]), Render(gs[1..]));
    }
  }

  /** Field order is the order of time. */
  lemma FieldOrderIsTimeOrder(t: Instant, u: Instant)
    ensures Before(t, u) <==> Nanos(t) < Nanos(u)
    ensures Before(t, u) || Before(u, t) || t == u
  {
    UnfoldBefore(t, u);
    UnfoldBefore(u, t);
    if (t.year, t.month, t.day) != (u.year, u.month, u.day) {
      if t.year < u.year || (t.year == u.year && (t.month < u.month || (t.month == u.month && t.day < u.day))) {
        DayOrder(t, u);
      } else {
        DayOrder(u, t);
      }
    }
  }

  lemma UnfoldBefore(t: Civil, u: Civil)
    ensures Before(t, u) <==>
            t.year < u.year || (t.year == u.year && (
            t.month < u.month || (t.month == u.month && (
            t.day < u.day || (t.day == u.day && (
            t.hour < u.hour || (t.hour == u.hour && (
            t.minute < u.minute || (t.minute == u.minute && (
            t.second < u.second || (t.second == u.second && t.nano < u.nano)))))))))))
  {
    var (fs, gs) := (Fields(t), Fields(u));
    assert fs[6..][1..] == [] && fs[5..][1..] == fs[6..] && fs[4..][1..] == fs[5..] && fs[3..][1..] == fs[4..]
        && fs[2..][1..] == fs[3..] && fs[1..][1..] == fs[2..];
    assert gs[6..][1..] == [] && gs[5..][1..] == gs[6..] && gs[4..][1..] == gs[5..] && gs[3..][1..] == gs[4..]
        && gs[2..][1..] == gs[3..] && gs[1..][1..] == gs[2..];
    assert FieldsBefore(fs[6..], gs[6..]) <==> t.nano < u.nano;
    assert FieldsBefore(fs[4..], gs[4..]) <==>
           || t.minute < u.minute
           || (t.minute == u.minute && (t.second < u.second || (t.second == u.second && t.nano < u.nano)));
    assert FieldsBefore(fs[2..], gs[2..]) <==>
           || t.day < u.day
           || (t.day == u.day && (t.hour < u.hour || (t.hour == u.hour && FieldsBefore(fs[4..], gs[4..]))));
    assert FieldsBefore(fs, gs) <==>
           || t.year < u.year
           || (t.year == u.year && (t.month < u.month || (t.month == u.month && FieldsBefore(fs[2..], gs[2..]))));
  }

  /** The stores compare stamps as text; that is comparing the instants. */
  lemma StampOrder(t: Instant, u: Instant)
    ensures TextBefore(ProfileTime(t), ProfileTime(u)) <==> Nanos(t) < Nanos(u)
    ensures TextBefore(ProfileTime(t), ProfileTime(u)) <==> Before(t, u)
  {
    InstantFits(t);
    InstantFits(u);
    RenderOrder(Fields(t), Fields(u));
    FieldOrderIsTimeOrder(t, u);
  }

  // ---------------------------------------------------------------- parsing

  function ParseDigits(text: string): (r: Option<nat>) {
    if text == "" then Some(0)
    else
      var last := text[|text| - 1];
      var front := ParseDigits(text[..|text| - 1]);
      if front.Some? && '0' <= last <= '9' then Some(10 * front.value + (last - '0') as nat) else None
  }

  /** Reads the values of a field list with the layout of `shape`. */
  function ParseFields(text: string, shape: seq<Field>): (r: Option<seq<nat>>)
    ensures r.Some? ==> |r.value| == |shape|
  {
    if shape == [] then (if text == "" then Some([]) else None)
    else
      var w := shape[0].width;
      if |text| <= w || text[w] != shape[0].after then None
      else
        var head, tail := ParseDigits(text[..w]), ParseFields(text[w + 1..], shape[1..]);
        if head.Some? && tail.Some? then Some([head.value] + tail.value) else None
  }

  function ParseStamp(text: string): (r: Option<Instant>) {
    var fields := ParseFields(text, Fields(ZERO_TIME));
    if fields.None? then None
    else
      var v := fields.value;
      var c := Civil(v[0], v[1], v[2], v[3], v[4], v[5], v[6]);
      if ValidCivil(c) then Some(c) else None
  }

  /** `validProfileTime`: the text parses and renders back to itself. */
  predicate ValidStamp(text: string) {
    ParseStamp(text).Some?
  }

  lemma {:induction false} ParseRenderedDigits(n: nat, width: nat)
    requires n < Pow10(width)
    ensures ParseDigits(Digits(n, width)) == Some(n)
  {
    if width > 0 {
      ParseRenderedDigits(n / 10, width - 1);
      var text := Digits(n, width);
      assert text[..|text| - 1] == Digits(n / 10, width - 1);
    }
  }

  lemma {:induction false} RenderParsedDigits(text: string)
    requires ParseDigits(text).Some?
    ensures var n := ParseDigits(text).value; n < Pow10(|text|) && Digits(n, |text|) == text
  {
    if text != "" {
      var front := text[..|text| - 1];
      RenderParsedDigits(front);
      assert text == front + [text[|text| - 1]];
    }
  }

  function Values(fs: seq<Field>): (vs: seq<nat>)
    ensures |vs| == |fs|
  {
    seq(|fs|, i requires 0 <= i < |fs| => fs[i].value)
  }

  lemma {:induction false} ParseRendered(fs: seq<Field>, shape: seq<Field>)
    requires SameLayout(fs, shape)
    requires AllFit(fs)
    ensures ParseFields(Render(fs), shape) == Some(Values(fs))
  {
    if fs != [] {
      var w := fs[0].width;
      var text := Render(fs);
      ParseRenderedDigits(fs[0].value, w);
      ParseRendered(fs[1..], shape[1..]);
      assert text[..w] == Digits(fs[0].value, w);
      assert text[w + 1..] == Render(fs[1..]);
      assert Values(fs) == [fs[0].value] + Values(fs[1..]);
    }
  }

  lemma ValuesCons(fs: seq<Field>)
    requires fs != []
    ensures Values(fs) == [fs[0].value] + Values(fs[1..])
  {
  }

  lemma AllFitCons(fs: seq<Field>)
    requires fs != [] && Fits(fs[0]) && AllFit(fs[1..])
    ensures AllFit(fs)
  {
    assert forall i :: 1 <= i < |fs| ==> fs[i] == fs[1..][i - 1];
  }

  lemma {:induction false} RenderParsed(text: string, fs: seq<Field>)
    requires ParseFields(text, fs) == Some(Values(fs))
    ensures AllFit(fs) && Render(fs) == text
  {
    if fs != [] {
      var w := fs[0].width;
      hide ParseDigits, Digits, Pow10;
      var tail := ParseFields(text[w + 1..], fs[1..]).value;
      ValuesCons(fs);
      assert tail == Values(fs)[1..] == Values(fs[1..]);
      RenderParsedDigits(text[..w]);
      RenderParsed(text[w + 1..], fs[1..]);
      assert text == text[..w] + [text[w]] + text[w + 1..];
      AllFitCons(fs);
    }
  }

  lemma {:induction false} ParseSameLayout(text: string, shape: seq<Field>, other: seq<Field>)
    requires SameLayout(shape, other)
    ensures ParseFields(text, shape) == ParseFields(text, other)
  {
    hide ParseDigits;
    if shape != [] && |text| > shape[0].width {
      ParseSameLayout(text[shape[0].width + 1..], shape[1..], other[1..]);
    }
  }

  /** A rendered instant parses back to the same instant. */
  lemma StampRoundTrip(t: Instant)
    ensures ParseStamp(ProfileTime(t)) == Some(t)
  {
    InstantFits(t);
    ParseRendered(Fields(t), Fields(ZERO_TIME));
    assert Values(Fields(t)) == [t.year, t.month, t.day, t.hour, t.minute, t.second, t.nano];
  }

  /** A text is accepted exactly when it is the rendering of an instant. */
  lemma ValidStampIsRendering(text: string)
    ensures ValidStamp(text) ==> ProfileTime(ParseStamp(text).value) == text
    ensures ValidStamp(text) <==> exists t: Instant :: ProfileTime(t) == text
  {
    if ValidStamp(text) {
      var t := ParseStamp(text).value;
      ParseSameLayout(text, Fields(ZERO_TIME), Fields(t));
      assert Values(Fields(t)) == ParseFields(text, Fields(ZERO_TIME)).value;
      RenderParsed(text, Fields(t));
    }
    forall t: Instant | ProfileTime(t) == text
      ensures ValidStamp(text)
    {
      StampRoundTrip(t);
    }
  }
}
