/** The text formatters of the client: Ukrainian plural selection, the
    "time ago" phrase and phone-number formatting.

    Dates are given as millisecond time stamps; the current time is a
    parameter, and so is the text the locale date formatter produces for
    dates thirty days old or more. */
module Formatters {
  import opened JsCore

  // ---------------------------------------------------------------------------
  // Ukrainian plural selection

  /** The three Ukrainian plural forms ("одна хвилина", "дві хвилини",
      "п'ять хвилин"). */
  datatype PluralForm = One | Few | Many

  /** The form `getUkrainianPlural` selects, with JavaScript's `%`. */
  function PluralFormOf(n: int): PluralForm {
    var mod10 := JsRem(n, 10);
    var mod100 := JsRem(n, 100);
    if mod10 == 1 && mod100 != 11 then One
    else if 2 <= mod10 <= 4 && (mod100 < 10 || mod100 >= 20) then Few
    else Many
  }

  /** `getUkrainianPlural(n, one, few, many)`. */
  function UkrainianPlural(n: int, one: string, few: string, many: string): (r: string)
    ensures PluralFormOf(n) == One ==> r == one
    ensures PluralFormOf(n) == Few ==> r == few
    ensures PluralFormOf(n) == Many ==> r == many
  {
    match PluralFormOf(n)
    case One => one
    case Few => few
    case Many => many
  }

  /** "One" exactly when the last digit is 1 and the last two are not 11. */
  lemma PluralOneIff(n: nat)
    ensures PluralFormOf(n) == One <==> n % 10 == 1 && n % 100 != 11
  {
  }

  /** "Few" exactly when the last digit is 2, 3 or 4 and the last two digits
      are not in 10..19 (that is, not 12, 13 or 14). */
  lemma PluralFewIff(n: nat)
    ensures PluralFormOf(n) == Few <==> 2 <= n % 10 <= 4 && !(10 <= n % 100 <= 19)
  {
  }

  /** The form depends only on the last two decimal digits. */
  lemma PluralDependsOnLastTwoDigits(n: nat)
    ensures PluralFormOf(n) == PluralFormOf(n % 100)
  {
    assert (n % 100) % 10 == n % 10;
  }

  /** JavaScript's `%` keeps the sign of a negative count, so no remainder
      reaches 1 to 4 and every negative count takes the "many" form. */
  lemma PluralNegativeIsMany(n: int)
    requires n < 0
    ensures PluralFormOf(n) == Many
  {
    assert JsRem(n, 10) <= 0;
  }

  // ---------------------------------------------------------------------------
  // The "time ago" phrase

  const JustNow := "щойно"

  /** "<n> <word> тому" with the plural of the unit's word. */
  function Ago(n: nat, one: string, few: string, many: string): string {
    NatToString(n) + " " + UkrainianPlural(n, one, few, many) + " тому"
  }

  function MinutesAgo(n: nat): string { Ago(n, "хвилину", "хвилини", "хвилин") }

  function HoursAgo(n: nat): string { Ago(n, "годину", "години", "годин") }

  function DaysAgo(n: nat): string { Ago(n, "день", "дні", "днів") }

  /** `formatRelativeTime`: whole seconds, then minutes, hours and days
      obtained by repeated flooring; `formattedDate` is what the date formatter
      yields for the date. */
  function FormatRelativeTime(nowMs: int, dateMs: int, formattedDate: string): string {
    var seconds := (nowMs - dateMs) / 1000;
    if seconds < 60 then JustNow
    else
      var minutes := seconds / 60;
      if minutes < 60 then MinutesAgo(minutes)
      else
        var hours := minutes / 60;
        if hours < 24 then HoursAgo(hours)
        else
          var days := hours / 24;
          if days < 30 then DaysAgo(days) else formattedDate
  }

  /** Less than a minute ago, and any date in the future, is "just now". */
  lemma RelativeJustNow(nowMs: int, dateMs: int, formattedDate: string)
    requires nowMs - dateMs < 60000
    ensures FormatRelativeTime(nowMs, dateMs, formattedDate) == JustNow
  {
  }

  /** From one minute up to an hour: whole minutes, 1 to 59. */
  lemma RelativeMinutes(nowMs: int, dateMs: int, formattedDate: string)
    requires 60000 <= nowMs - dateMs < 3600000
    ensures 1 <= (nowMs - dateMs) / 60000 <= 59
    ensures FormatRelativeTime(nowMs, dateMs, formattedDate) == MinutesAgo((nowMs - dateMs) / 60000)
  {
    var d := nowMs - dateMs;
    assert (d / 1000) / 60 == d / 60000;
  }

  /** From one hour up to a day: whole hours, 1 to 23. */
  lemma RelativeHours(nowMs: int, dateMs: int, formattedDate: string)
    requires 3600000 <= nowMs - dateMs < 86400000
    ensures 1 <= (nowMs - dateMs) / 3600000 <= 23
    ensures FormatRelativeTime(nowMs, dateMs, formattedDate) == HoursAgo((nowMs - dateMs) / 3600000)
  {
    var d := nowMs - dateMs;
    assert (d / 1000) / 60 == d / 60000;
    assert ((d / 1000) / 60) / 60 == d / 3600000;
  }

  /** From one day up to thirty days: whole days, 1 to 29. */
  lemma RelativeDays(nowMs: int, dateMs: int, formattedDate: string)
    requires 86400000 <= nowMs - dateMs < 2592000000
    ensures 1 <= (nowMs - dateMs) / 86400000 <= 29
    ensures FormatRelativeTime(nowMs, dateMs, formattedDate) == DaysAgo((nowMs - dateMs) / 86400000)
  {
    var d := nowMs - dateMs;
    assert (d / 1000) / 60 == d / 60000;
    assert ((d / 1000) / 60) / 60 == d / 3600000;
    assert (((d / 1000) / 60) / 60) / 24 == d / 86400000;
  }

  /** Thirty days or more: the date formatter's text. */
  lemma RelativeOld(nowMs: int, dateMs: int, formattedDate: string)
    requires nowMs - dateMs >= 2592000000
    ensures FormatRelativeTime(nowMs, dateMs, formattedDate) == formattedDate
  {
    var d := nowMs - dateMs;
    assert (d / 1000) / 60 == d / 60000;
    assert ((d / 1000) / 60) / 60 == d / 3600000;
    assert (((d / 1000) / 60) / 60) / 24 == d / 86400000;
  }

  // ---------------------------------------------------------------------------
  // Phone numbers

  /** `formatPhoneNumber`: a number whose digits are twelve, starting with 38,
      becomes `+38 (XXX) XXX-XX-XX`; anything else is returned unchanged. */
  function FormatPhoneNumber(phone: string): string {
    var c := DigitsOf(phone);
    if |c| == 12 && StartsWith(c, "38") then PhoneLayout(c) else phone
  }

  /** The layout of twelve cleaned digits. */
  function PhoneLayout(c: string): string
    requires |c| == 12
  {
    "+" + c[..2] + " (" + c[2..5] + ") " + c[5..8] + "-" + c[8..10] + "-" + c[10..]
  }

  predicate Reformats(phone: string) {
    |DigitsOf(phone)| == 12 && StartsWith(DigitsOf(phone), "38")
  }

  /** Appending a separator without digits and then digits adds just those
      digits. */
  lemma DigitsOfStep(acc: string, sep: string, d: string)
    requires forall i :: 0 <= i < |sep| ==> !IsDigit(sep[i])
    requires AllDigits(d)
    ensures DigitsOf(acc + sep + d) == DigitsOf(acc) + d
  {
    DigitsOfConcat(acc + sep, d);
    DigitsOfConcat(acc, sep);
    DigitsOfNone(sep);
    DigitsOfDigits(d);
  }

  lemma PhoneLayoutShape(c: string)
    requires |c| == 12
    ensures var r := PhoneLayout(c);
      |r| == 19 && r[..3] == "+" + c[..2] && r[3..5] == " (" && r[8..10] == ") " && r[13] == '-' && r[16] == '-'
  {
  }

  lemma PhoneLayoutDigits(c: string)
    requires |c| == 12 && AllDigits(c)
    ensures DigitsOf(PhoneLayout(c)) == c
  {
    var p1, p2, p3, p4, p5 := c[..2], c[2..5], c[5..8], c[8..10], c[10..];
    SliceDigits(c, 0, 2);
    SliceDigits(c, 2, 5);
    SliceDigits(c, 5, 8);
    SliceDigits(c, 8, 10);
    SliceDigits(c, 10, 12);
    assert c[0..2] == p1 && c[10..12] == p5;
    var a1 := "+" + p1;
    DigitsOfConcat("+", p1);
    DigitsOfNone("+");
    DigitsOfDigits(p1);
    var a2 := a1 + " (" + p2;
    DigitsOfStep(a1, " (", p2);
    var a3 := a2 + ") " + p3;
    DigitsOfStep(a2, ") ", p3);
    var a4 := a3 + "-" + p4;
    DigitsOfStep(a3, "-", p4);
    DigitsOfStep(a4, "-", p5);
    JoinSlices(c);
  }

  lemma JoinSlices(c: string)
    requires |c| == 12
    ensures c[..2] + c[2..5] + c[5..8] + c[8..10] + c[10..] == c
  {
    assert c[..2] + c[2..5] == c[..5];
    assert c[..5] + c[5..8] == c[..8];
    assert c[..8] + c[8..10] == c[..10];
    assert c[..10] + c[10..] == c;
  }

  /** A reformatted number has the fixed shape `+38 (XXX) XXX-XX-XX` and the
      same digits in the same order; a number that is not reformatted is
      returned as it is. */
  lemma FormatPhoneKeepsDigits(phone: string)
    ensures var r := FormatPhoneNumber(phone);
      Reformats(phone) ==>
        && |r| == 19 && r[..5] == "+38 (" && r[8..10] == ") " && r[13] == '-' && r[16] == '-'
        && DigitsOf(r) == DigitsOf(phone)
    ensures !Reformats(phone) ==> FormatPhoneNumber(phone) == phone
  {
    if Reformats(phone) {
      var c := DigitsOf(phone);
      PhoneLayoutShape(c);
      PhoneLayoutDigits(c);
    }
  }

  /** Formatting a formatted number changes nothing. */
  lemma FormatPhoneIdempotent(phone: string)
    ensures FormatPhoneNumber(FormatPhoneNumber(phone)) == FormatPhoneNumber(phone)
  {
    FormatPhoneKeepsDigits(phone);
    if Reformats(phone) {
      FormatPhoneKeepsDigits(FormatPhoneNumber(phone));
    }
  }
}
