/** The input validators of the client. Each regular expression of the
    source is written out as the test it performs; its meaning is stated by a
    separate characterisation and an if-and-only-if lemma connects the two. */
module Validators {
  import opened JsCore

  // ---------------------------------------------------------------------------
  // E-mail: /^[^\s@]+@[^\s@]+\.[^\s@]+$/

  /** A character of the class `[^\s@]`. */
  predicate EmailChar(c: char) {
    !IsJsSpace(c) && c != '@'
  }

  /** `validateEmail`: no white space, the first `@` is not at the start, no
      second `@`, and a `.` strictly inside the part after the `@`. */
  predicate ValidateEmail(email: string) {
    var at := IndexOf(email, "@");
    && at > 0
    && (forall k :: 0 <= k < |email| ==> !IsJsSpace(email[k]))
    && IndexOf(email[at + 1..], "@") == -1
    && at + 3 <= |email|
    && Includes(email[at + 2..|email| - 1], ".")
  }

  /** What the expression matches: a split into `local@middle.last` with all
      three parts non-empty and made of `[^\s@]` characters. */
  ghost predicate MatchesEmailPattern(s: string) {
    exists i, j ::
      && 0 < i && i + 1 < j && j + 1 < |s|
      && s[i] == '@' && s[j] == '.'
      && (forall k :: 0 <= k < |s| && k != i ==> EmailChar(s[k]))
  }

  lemma ValidateEmailSound(s: string)
    requires ValidateEmail(s)
    ensures MatchesEmailPattern(s)
  {
    var at := IndexOf(s, "@");
    var rest := s[at + 1..];
    var mid := s[at + 2..|s| - 1];
    var d := IndexOf(mid, ".");
    var j := at + 2 + d;
    OccursAtChar(mid, '.', d);
    assert mid[d] == s[j];
    OccursAtChar(s, '@', at);
    forall k | 0 <= k < |s| && k != at ensures EmailChar(s[k]) {
      if k < at {
        OccursAtChar(s, '@', k);
      } else {
        OccursAtChar(rest, '@', k - at - 1);
        assert rest[k - at - 1] == s[k];
      }
    }
    assert 0 < at && at + 1 < j && j + 1 < |s| && s[at] == '@' && s[j] == '.';
  }

  lemma ValidateEmailComplete(s: string)
    requires MatchesEmailPattern(s)
    ensures ValidateEmail(s)
  {
    var i, j :| && 0 < i && i + 1 < j && j + 1 < |s|
                && s[i] == '@' && s[j] == '.'
                && (forall k :: 0 <= k < |s| && k != i ==> EmailChar(s[k]));
    OnlyAt(s, i);
    DotInside(s, i, j);
    NoSpaceAround(s, i);
  }

  /** The `@` is no white space, and neither is any `[^\s@]` character. */
  lemma NoSpaceAround(s: string, i: int)
    requires 0 <= i < |s| && s[i] == '@'
    requires forall k :: 0 <= k < |s| && k != i ==> EmailChar(s[k])
    ensures forall k :: 0 <= k < |s| ==> !IsJsSpace(s[k])
  {
    forall k | 0 <= k < |s| ensures !IsJsSpace(s[k]) {
      if k != i {
        assert EmailChar(s[k]);
      }
    }
  }

  /** An `@` with only `[^\s@]` characters around it is the first `@`, and no
      other follows it. */
  lemma OnlyAt(s: string, i: int)
    requires 0 <= i < |s| && s[i] == '@'
    requires forall k :: 0 <= k < |s| && k != i ==> EmailChar(s[k])
    ensures IndexOf(s, "@") == i && IndexOf(s[i + 1..], "@") == -1
  {
    IndexOfChar(s, '@', i);
    var rest := s[i + 1..];
    forall p | 0 <= p < |rest| ensures rest[p] != '@' {
      assert rest[p] == s[i + 1 + p];
    }
    IndexOfCharAbsent(rest, '@');
  }

  /** A `.` two or more places after the `@` and before the last character is
      found by the `includes` test. */
  lemma DotInside(s: string, i: int, j: int)
    requires 0 < i && i + 1 < j && j + 1 < |s| && s[j] == '.'
    ensures Includes(s[i + 2..|s| - 1], ".")
  {
    var mid := s[i + 2..|s| - 1];
    assert mid[j - i - 2] == '.';
    OccursAtChar(mid, '.', j - i - 2);
  }

  /** `validateEmail` accepts exactly the strings the expression matches. */
  lemma ValidateEmailIff(s: string)
    ensures ValidateEmail(s) <==> MatchesEmailPattern(s)
  {
    if ValidateEmail(s) { ValidateEmailSound(s); }
    if MatchesEmailPattern(s) { ValidateEmailComplete(s); }
  }

  // ---------------------------------------------------------------------------
  // Phone number: strip /[\s\-()]/g, then /^(\+38)?0[0-9]{9}$/

  predicate PhoneSeparator(c: char) {
    IsJsSpace(c) || c == '-' || c == '(' || c == ')'
  }

  function NotSeparator(c: char): bool { !PhoneSeparator(c) }

  /** `phone.replace(/[\s\-()]/g, '')`. */
  function StripSeparators(phone: string): (r: string)
    ensures forall c :: c in r <==> c in phone && !PhoneSeparator(c)
  {
    Filter(phone, NotSeparator)
  }

  /** The expression, tried as written: an optional `+38`, then `0`, then
      exactly nine digits and the end. */
  predicate PhonePattern(c: string) {
    var rest := if StartsWith(c, "+38") then c[3..] else c;
    (|rest| == 10 && rest[0] == '0' && AllDigits(rest[1..]))
    || (|c| == 10 && c[0] == '0' && AllDigits(c[1..]))
  }

  predicate ValidatePhoneNumber(phone: string) {
    PhonePattern(StripSeparators(phone))
  }

  /** Accepted are exactly `0` followed by nine digits and `+380` followed by
      nine digits, once separators are removed. */
  lemma ValidatePhoneIff(phone: string)
    ensures ValidatePhoneNumber(phone) <==>
      exists d :: |d| == 9 && AllDigits(d) &&
        (StripSeparators(phone) == "0" + d || StripSeparators(phone) == "+380" + d)
  {
    var c := StripSeparators(phone);
    if ValidatePhoneNumber(phone) {
      if |c| == 10 && c[0] == '0' && AllDigits(c[1..]) {
        assert c == "0" + c[1..];
      } else {
        var rest := c[3..];
        assert c == "+380" + rest[1..];
      }
    }
    if exists d :: |d| == 9 && AllDigits(d) && (c == "0" + d || c == "+380" + d) {
      var d :| |d| == 9 && AllDigits(d) && (c == "0" + d || c == "+380" + d);
      if c == "0" + d {
        assert c[1..] == d;
      } else {
        assert c[..3] == "+38";
        assert c[3..][1..] == d;
      }
    }
  }

  /** Removing separators twice is removing them once, so validation does not
      care how many separators a number carries. */
  lemma StripIdempotent(phone: string)
    ensures StripSeparators(StripSeparators(phone)) == StripSeparators(phone)
    ensures ValidatePhoneNumber(StripSeparators(phone)) == ValidatePhoneNumber(phone)
  {
    FilterIdempotent(phone, NotSeparator);
  }

  // ---------------------------------------------------------------------------
  // Password: /^(?=.*[a-z])(?=.*[A-Z])(?=.*\d)[a-zA-Z\d]{8,}$/

  /** The characters `.` does not match. */
  predicate IsLineTerminator(c: char) {
    c == '\n' || c == '\r' || c == '\U{2028}' || c == '\U{2029}'
  }

  predicate IsAsciiAlnum(c: char) {
    IsAsciiLower(c) || IsAsciiUpper(c) || IsDigit(c)
  }

  /** The look-ahead `(?=.*X)` at the start: some character of class X is
      preceded only by characters `.` matches. */
  predicate LookAhead(s: string, x: char -> bool) {
    exists k :: 0 <= k < |s| && x(s[k]) && forall m :: 0 <= m < k ==> !IsLineTerminator(s[m])
  }

  /** The expression, tried as written: the three look-aheads and then at least
      eight characters of `[a-zA-Z\d]` up to the end. */
  predicate ValidatePassword(password: string) {
    && LookAhead(password, IsAsciiLower)
    && LookAhead(password, IsAsciiUpper)
    && LookAhead(password, IsDigit)
    && |password| >= 8
    && forall k :: 0 <= k < |password| ==> IsAsciiAlnum(password[k])
  }

  /** The password rule in words: at least eight characters, all ASCII letters
      or digits, with a lower-case letter, an upper-case letter and a digit
      among them. Line terminators never block a look-ahead because none can
      occur. */
  lemma ValidatePasswordIff(p: string)
    ensures ValidatePassword(p) <==>
      && |p| >= 8
      && (forall k :: 0 <= k < |p| ==> IsAsciiAlnum(p[k]))
      && (exists k :: 0 <= k < |p| && IsAsciiLower(p[k]))
      && (exists k :: 0 <= k < |p| && IsAsciiUpper(p[k]))
      && (exists k :: 0 <= k < |p| && IsDigit(p[k]))
  {
    if (forall k :: 0 <= k < |p| ==> IsAsciiAlnum(p[k])) {
      assert forall m :: 0 <= m < |p| ==> !IsLineTerminator(p[m]) by {
        forall m | 0 <= m < |p| ensures !IsLineTerminator(p[m]) {
          assert IsAsciiAlnum(p[m]);
        }
      }
    }
  }

  // ---------------------------------------------------------------------------
  // Price, length and image file

  const MaxPrice: real := 1000000.0

  /** `validatePrice`: strictly positive and at most one million. */
  predicate ValidatePrice(price: real) {
    price > 0.0 && price <= MaxPrice
  }

  /** The accepted prices form the interval from zero (excluded) to one
      million (included): one million is the largest, there is no smallest
      (half of an accepted price is accepted), and every price between two
      accepted ones is accepted. */
  lemma PriceInterval(p: real, lo: real, hi: real)
    ensures ValidatePrice(MaxPrice) && !ValidatePrice(0.0)
    ensures ValidatePrice(p) ==> p <= MaxPrice && ValidatePrice(p / 2.0)
    ensures ValidatePrice(lo) && ValidatePrice(hi) && lo <= p <= hi ==> ValidatePrice(p)
  {
  }

  /** `validateStringLength`, with the length in UTF-16 code units. */
  predicate ValidateStringLength(value: string, min: int, max: int) {
    Utf16Length(value) >= min && Utf16Length(value) <= max
  }

  /** For text without characters outside the Basic Multilingual Plane the
      length is the number of characters. */
  lemma {:induction false} Utf16LengthBmp(s: string)
    requires forall k :: 0 <= k < |s| ==> (s[k] as int) < 0x10000
    ensures Utf16Length(s) == |s|
    decreases |s|
  {
    if s != [] {
      Utf16LengthBmp(s[1..]);
    }
  }

  /** For text inside the Basic Multilingual Plane the length test counts
      characters. */
  lemma StringLengthBmpIff(value: string, min: int, max: int)
    requires forall k :: 0 <= k < |value| ==> (value[k] as int) < 0x10000
    ensures ValidateStringLength(value, min, max) <==> min <= |value| <= max
  {
    Utf16LengthBmp(value);
  }

  /** A character outside the Basic Multilingual Plane (an emoji, say) counts
      as two code units, so appending one adds two to the checked length. */
  lemma {:induction false} Utf16LengthAppendAstral(s: string, c: char)
    requires (c as int) >= 0x10000
    ensures Utf16Length(s + [c]) == Utf16Length(s) + 2
    decreases |s|
  {
    if s == [] {
      assert [c][1..] == [];
    } else {
      assert (s + [c])[1..] == s[1..] + [c];
      Utf16LengthAppendAstral(s[1..], c);
    }
  }

  const AllowedImageTypes := ["image/jpeg", "image/png", "image/webp"]
  /** Five mebibytes. */
  const MaxImageSize := 5 * 1024 * 1024

  /** `validateImageFile`, over the file's MIME type and size in bytes. */
  predicate ValidateImageFile(mimeType: string, size: int) {
    mimeType in AllowedImageTypes && size <= MaxImageSize
  }

  lemma ImageFileIff(mimeType: string, size: int)
    ensures ValidateImageFile(mimeType, size) <==>
      (mimeType == "image/jpeg" || mimeType == "image/png" || mimeType == "image/webp") && size <= 5242880
  {
  }
}
