/**
 The Australian phone-number predicate of the contacts service.

 The service accepts a phone number exactly when it matches, anchored at both
 ends, the RE2 pattern `^\+61([2-478]\d{8}|1800\d{6})$`: the country code
 `+61` of ITU-T E.164 followed either by a geographic/mobile subscriber number
 (one of the leading digits 2, 3, 4, 7, 8 and eight more digits) or by the
 toll-free prefix `1800` and six more digits.  In RE2 `\d` is the ASCII class
 `[0-9]`, and without the `m` flag `$` is the end of the text.

 `IsValidAustralianPhoneNumber` recognises that language character by
 character; `InPattern` describes the same language generatively, and
 `ValidIffInPattern` proves the two agree on every string.
 */
module AustralianPhone {

  const CountryCode: string := "+61"
  const TollFreePrefix: string := "1800"

  /** RE2's `\d`: ASCII digits only. */
  predicate IsAsciiDigit(c: char) {
    '0' <= c <= '9'
  }

  predicate AllAsciiDigits(s: string) {
    forall i | 0 <= i < |s| :: IsAsciiDigit(s[i])
  }

  /** The character class `[2-478]`. */
  predicate IsLeadDigit(c: char) {
    c == '2' || c == '3' || c == '4' || c == '7' || c == '8'
  }

  /** The first alternative `[2-478]\d{8}`, matched against the whole remainder. */
  predicate IsGeographicSubscriber(t: string) {
    |t| == 9 && IsLeadDigit(t[0]) && AllAsciiDigits(t[1..])
  }

  /** The second alternative `1800\d{6}`, matched against the whole remainder. */
  predicate IsTollFreeSubscriber(t: string) {
    |t| == 10 && t[..4] == TollFreePrefix && AllAsciiDigits(t[4..])
  }

  /** The anchored match of `^\+61([2-478]\d{8}|1800\d{6})$` against `phone`. */
  predicate IsValidAustralianPhoneNumber(phone: string) {
    |phone| >= 3 && phone[..3] == CountryCode &&
    (IsGeographicSubscriber(phone[3..]) || IsTollFreeSubscriber(phone[3..]))
  }

  // ---------------------------------------------------------------------------
  // The same language, described by how its members are built.

  /** `+61`, a leading digit, then the rest of the subscriber number. */
  function Geographic(lead: char, digits: string): string {
    CountryCode + [lead] + digits
  }

  /** `+611800` followed by the rest of the toll-free number. */
  function TollFree(digits: string): string {
    CountryCode + TollFreePrefix + digits
  }

  ghost predicate InPattern(s: string) {
    (exists lead, digits {:trigger Geographic(lead, digits)} ::
       IsLeadDigit(lead) && |digits| == 8 && AllAsciiDigits(digits) && s == Geographic(lead, digits))
    ||
    (exists digits {:trigger TollFree(digits)} ::
       |digits| == 6 && AllAsciiDigits(digits) && s == TollFree(digits))
  }

  /** Every string built by the first alternative is accepted. */
  lemma GeographicAccepted(lead: char, digits: string)
    requires IsLeadDigit(lead) && |digits| == 8 && AllAsciiDigits(digits)
    ensures IsValidAustralianPhoneNumber(Geographic(lead, digits))
  {
  }

  /** Every string built by the second alternative is accepted. */
  lemma TollFreeAccepted(digits: string)
    requires |digits| == 6 && AllAsciiDigits(digits)
    ensures IsValidAustralianPhoneNumber(TollFree(digits))
  {
  }

  /** The recogniser accepts exactly the strings of the pattern's language. */
  lemma ValidIffInPattern(s: string)
    ensures IsValidAustralianPhoneNumber(s) <==> InPattern(s)
  {
    if IsValidAustralianPhoneNumber(s) {
      var t := s[3..];
      if IsGeographicSubscriber(t) {
        assert s == Geographic(t[0], t[1..]);
      } else {
        assert t[4..] == s[7..];
        assert s == TollFree(s[7..]);
      }
    }
    if InPattern(s) {
      if exists lead, digits {:trigger Geographic(lead, digits)} ::
           IsLeadDigit(lead) && |digits| == 8 && AllAsciiDigits(digits) && s == Geographic(lead, digits)
      {
        var lead, digits :| IsLeadDigit(lead) && |digits| == 8 && AllAsciiDigits(digits) && s == Geographic(lead, digits);
        GeographicAccepted(lead, digits);
      } else {
        var digits :| |digits| == 6 && AllAsciiDigits(digits) && s == TollFree(digits);
        TollFreeAccepted(digits);
      }
    }
  }

  /**
   Shape of an accepted number: it starts with `+61`, every later character is
   an ASCII digit, and its length is 12 for the geographic/mobile form and 13
   for the toll-free form.  The third character after `+` decides the form, so
   the two alternatives never both apply.
   */
  lemma AcceptedShape(s: string)
    requires IsValidAustralianPhoneNumber(s)
    ensures s[..3] == CountryCode
    ensures |s| == 12 || |s| == 13
    ensures |s| == 12 <==> IsLeadDigit(s[3])
    ensures |s| == 13 <==> s[3..7] == TollFreePrefix
    ensures forall i | 1 <= i < |s| :: IsAsciiDigit(s[i])
  {
  }

  /** An accepted number never contains the comma used to join stored lists. */
  lemma AcceptedHasNoComma(s: string)
    requires IsValidAustralianPhoneNumber(s)
    ensures ',' !in s
  {
  }

  /** Anchored at the end: no non-empty suffix, a trailing newline included, keeps a number valid. */
  lemma NoValidExtension(s: string, suffix: string)
    requires IsValidAustralianPhoneNumber(s) && suffix != []
    ensures !IsValidAustralianPhoneNumber(s + suffix)
  {
    var u := s + suffix;
    AcceptedShape(s);
    if IsValidAustralianPhoneNumber(u) {
      AcceptedShape(u);
    }
  }

  /** Anchored at the start: no non-empty prefix keeps a number valid. */
  lemma NoValidPrefix(prefix: string, s: string)
    requires IsValidAustralianPhoneNumber(s) && prefix != []
    ensures !IsValidAustralianPhoneNumber(prefix + s)
  {
    var u := prefix + s;
    AcceptedShape(s);
    if IsValidAustralianPhoneNumber(u) {
      AcceptedShape(u);
    }
  }

  /** Whole-string match: a valid number embedded in a longer valid number is impossible. */
  lemma AnchoredMatch(before: string, s: string, after: string)
    requires IsValidAustralianPhoneNumber(s)
    requires IsValidAustralianPhoneNumber(before + s + after)
    ensures before == [] && after == []
  {
    if before == [] && after != [] {
      assert before + s + after == s + after;
      NoValidExtension(s, after);
    } else if before != [] && after == [] {
      assert before + s + after == before + s;
      NoValidPrefix(before, s);
    } else if before != [] && after != [] {
      AcceptedShape(s);
      AcceptedShape(before + s + after);
    }
  }

  /** Concrete numbers from the service's tests, plus edge cases of the pattern. */
  lemma TestVectors()
    ensures IsValidAustralianPhoneNumber("+61385786688")
    ensures IsValidAustralianPhoneNumber("+61412345678")
    ensures IsValidAustralianPhoneNumber("+61398889988")
    ensures IsValidAustralianPhoneNumber("+611800123456")
    ensures !IsValidAustralianPhoneNumber("03 8578 6688")
    ensures !IsValidAustralianPhoneNumber("+61385786688\n")
    ensures !IsValidAustralianPhoneNumber("+6138578668")
    ensures !IsValidAustralianPhoneNumber("+61585786688")
    ensures !IsValidAustralianPhoneNumber("+61180012345")
  {
    GeographicAccepted('3', "85786688");
    GeographicAccepted('4', "12345678");
    GeographicAccepted('3', "98889988");
    TollFreeAccepted("123456");
    assert "03 8578 6688"[..3][0] == '0';
    assert "+61385786688" + "\n" == "+61385786688\n";
    NoValidExtension("+61385786688", "\n");
  }
}
