/**
 * `LicenseManager`: a map from license key to expiry date, written as
 * "YYYY-MM-DD". Generating a key stores it with its expiry; validating a key
 * looks it up and compares the current time with midnight of the expiry date.
 * Key derivation (random bytes, SHA-256, base64), the JSON file and the clock
 * stay outside: the caller supplies the fresh key, the expiry date and "now".
 */
module License {
  import opened Wrappers

  datatype Date = Date(year: int, month: int, day: int)

  predicate IsLeapYear(year: int)
  {
    year % 4 == 0 && (year % 100 != 0 || year % 400 == 0)
  }

  function DaysInMonth(year: int, month: int): int
  {
    if month == 2 then (if IsLeapYear(year) then 29 else 28)
    else if month == 4 || month == 6 || month == 9 || month == 11 then 30
    else 31
  }

  /** A date Python's `datetime` can hold. */
  predicate ValidDate(d: Date)
  {
    1 <= d.year <= 9999 && 1 <= d.month <= 12 && 1 <= d.day <= DaysInMonth(d.year, d.month)
  }

  /** A valid date whose `%Y` is four digits, so that it is written zero-padded. */
  predicate Writable(d: Date)
  {
    ValidDate(d) && 1000 <= d.year
  }

  predicate DateBefore(a: Date, b: Date)
  {
    a.year < b.year || (a.year == b.year && (a.month < b.month || (a.month == b.month && a.day < b.day)))
  }

  /** A moment: a date and the microseconds elapsed since its midnight. */
  datatype Instant = Instant(date: Date, micros: nat)

  predicate InstantBefore(a: Instant, b: Instant)
  {
    DateBefore(a.date, b.date) || (a.date == b.date && a.micros < b.micros)
  }

  /** What `strptime` gives for a date without a time: its midnight. */
  function Midnight(d: Date): Instant
  {
    Instant(d, 0)
  }

  /** A key is still valid on every day before its expiry date and no longer on that day itself. */
  lemma BeforeMidnightIsEarlierDay(now: Instant, d: Date)
    ensures InstantBefore(now, Midnight(d)) <==> DateBefore(now.date, d)
  {
  }

  predicate IsDigit(c: char)
  {
    '0' <= c <= '9'
  }

  predicate AllDigits(s: string)
  {
    forall i :: 0 <= i < |s| ==> IsDigit(s[i])
  }

  function DigitChar(n: int): char
    requires 0 <= n < 10
  {
    ('0' as int + n) as char
  }

  function Pow10(w: nat): nat
  {
    if w == 0 then 1 else 10 * Pow10(w - 1)
  }

  /** `n` written in decimal with exactly `width` digits, zero-padded on the left. */
  function Digits(n: nat, width: nat): (s: string)
    ensures |s| == width && AllDigits(s)
  {
    if width == 0 then [] else Digits(n / 10, width - 1) + [DigitChar(n % 10)]
  }

  /** The value of a string of decimal digits. */
  function Number(s: string): (n: nat)
    requires AllDigits(s)
    ensures n < Pow10(|s|)
  {
    if s == [] then 0 else Number(s[..|s| - 1]) * 10 + (s[|s| - 1] as int - '0' as int)
  }

  lemma {:induction false} NumberOfDigits(n: nat, width: nat)
    requires n < Pow10(width)
    ensures Number(Digits(n, width)) == n
  {
    if width > 0 {
      var s := Digits(n, width);
      assert s[..|s| - 1] == Digits(n / 10, width - 1);
      NumberOfDigits(n / 10, width - 1);
    }
  }

  lemma {:induction false} DigitsOfNumber(s: string)
    requires AllDigits(s)
    ensures Digits(Number(s), |s|) == s
  {
    if s != [] {
      var init := s[..|s| - 1];
      var n := Number(s);
      assert n / 10 == Number(init) && n % 10 == s[|s| - 1] as int - '0' as int;
      DigitsOfNumber(init);
      assert s == init + [s[|s| - 1]];
    }
  }

  /** `strftime('%Y-%m-%d')`. */
  function FormatDate(d: Date): (s: string)
    requires Writable(d)
    ensures |s| == 10 && s[4] == '-' && s[7] == '-'
    ensures AllDigits(s[..4]) && AllDigits(s[5..7]) && AllDigits(s[8..])
  {
    var s := Digits(d.year, 4) + "-" + Digits(d.month, 2) + "-" + Digits(d.day, 2);
    assert s[..4] == Digits(d.year, 4) && s[5..7] == Digits(d.month, 2) && s[8..] == Digits(d.day, 2);
    s
  }

  /**
   * `strptime(s, '%Y-%m-%d')` on the zero-padded form `FormatDate` writes:
   * None where Python raises ValueError (wrong shape or no such date).
   */
  function ParseDate(s: string): (r: Option<Date>)
    ensures r.Some? ==> ValidDate(r.value)
  {
    if |s| == 10 && s[4] == '-' && s[7] == '-' && AllDigits(s[..4]) && AllDigits(s[5..7]) && AllDigits(s[8..]) then
      var d := Date(Number(s[..4]), Number(s[5..7]), Number(s[8..]));
      if ValidDate(d) then Some(d) else None
    else None
  }

  /** An expiry date written by `generate_key` reads back as the same date. */
  lemma ParseFormatDate(d: Date)
    requires Writable(d)
    ensures ParseDate(FormatDate(d)) == Some(d)
  {
    var s := FormatDate(d);
    assert s[..4] == Digits(d.year, 4) && s[5..7] == Digits(d.month, 2) && s[8..] == Digits(d.day, 2);
    NumberOfDigits(d.year, 4);
    NumberOfDigits(d.month, 2);
    NumberOfDigits(d.day, 2);
  }

  /** A zero-padded date that parses is written back unchanged. */
  lemma FormatParseDate(s: string)
    requires ParseDate(s).Some? && 1000 <= ParseDate(s).value.year
    ensures FormatDate(ParseDate(s).value) == s
  {
    DigitsOfNumber(s[..4]);
    DigitsOfNumber(s[5..7]);
    DigitsOfNumber(s[8..]);
    assert s == s[..4] + "-" + s[5..7] + "-" + s[8..];
  }

  /** The pair `validate_key` returns. */
  datatype Validation = Validation(valid: bool, expiry: Option<string>)

  /** `validate_key`'s outcome: its pair, or the ValueError `strptime` raises on a stored text that is not a date. */
  datatype Checked = Checked(validation: Validation) | MalformedExpiry(text: string)

  /**
   * `validate_key`: a key that is absent or stored with an empty expiry is
   * invalid with no expiry; otherwise the stored text is returned with whether
   * now is before midnight of that date.
   */
  function ValidateKey(licenses: map<string, string>, key: string, now: Instant): (r: Checked)
    ensures key !in licenses || licenses[key] == "" ==> r == Checked(Validation(false, None))
    ensures r.MalformedExpiry? <==> key in licenses && licenses[key] != "" && ParseDate(licenses[key]).None?
    ensures r.Checked? && r.validation.expiry.Some? ==> key in licenses && r.validation.expiry.value == licenses[key]
    ensures r.Checked? && r.validation.valid <==>
      key in licenses && ParseDate(licenses[key]).Some? && DateBefore(now.date, ParseDate(licenses[key]).value)
    ensures key in licenses && licenses[key] != "" && ParseDate(licenses[key]).Some? ==>
      r == Checked(Validation(DateBefore(now.date, ParseDate(licenses[key]).value), Some(licenses[key])))
  {
    if key !in licenses || licenses[key] == "" then Checked(Validation(false, None))
    else
      match ParseDate(licenses[key])
      case None => MalformedExpiry(licenses[key])
      case Some(expiry) => Checked(Validation(InstantBefore(now, Midnight(expiry)), Some(licenses[key])))
  }

  /** A freshly generated key validates, with its expiry text, exactly until its expiry date. */
  lemma GeneratedKeyValidUntilExpiry(licenses: map<string, string>, key: string, expiry: Date, now: Instant)
    requires Writable(expiry)
    ensures ValidateKey(licenses[key := FormatDate(expiry)], key, now)
      == Checked(Validation(DateBefore(now.date, expiry), Some(FormatDate(expiry))))
  {
    ParseFormatDate(expiry);
  }

  /** Storing one key changes the validation of no other key. */
  lemma GenerateKeepsOtherKeys(licenses: map<string, string>, key: string, text: string, other: string, now: Instant)
    requires other != key
    ensures ValidateKey(licenses[key := text], other, now) == ValidateKey(licenses, other, now)
  {
  }

  class LicenseManager {
    var licenses: map<string, string>

    /** `__init__`: the licenses already stored (the file's contents, or none). */
    constructor (stored: map<string, string>)
      ensures licenses == stored
    {
      licenses := stored;
    }

    /**
     * `generate_key`: `freshKey` stands for the encoded random key and `expiry`
     * for today plus the duration; the key is stored (added or overwritten)
     * with the written expiry and every other entry is left as it was.
     */
    method GenerateKey(freshKey: string, expiry: Date) returns (key: string, expiryText: string)
      requires Writable(expiry)
      modifies this
      ensures key == freshKey && expiryText == FormatDate(expiry)
      ensures licenses == old(licenses)[key := expiryText]
      ensures forall now :: ValidateKey(licenses, key, now) == Checked(Validation(DateBefore(now.date, expiry), Some(expiryText)))
    {
      expiryText := FormatDate(expiry);
      key := freshKey;
      licenses := licenses[key := expiryText];
      forall now: Instant ensures ValidateKey(licenses, key, now) == Checked(Validation(DateBefore(now.date, expiry), Some(expiryText))) {
        GeneratedKeyValidUntilExpiry(old(licenses), key, expiry, now);
      }
    }

    /** `validate_key` on the stored map. */
    function Validate(key: string, now: Instant): (r: Checked)
      reads this
      ensures r.Checked? && r.validation.valid ==> key in licenses
    {
      ValidateKey(licenses, key, now)
    }
  }
}
