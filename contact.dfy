/**
 * The e-mail and Zambian phone-number rules, shared by the driver form and the
 * registration form (the login form uses the same e-mail pattern).
 */
module Contact {
  import opened Wrappers
  import opened Text

  datatype ContactError =
    | EmailRequired   // 'Email is required'
    | EmailInvalid    // 'Please enter a valid email address'
    | PhoneRequired   // 'Phone number is required'
    | PhoneInvalid    // 'Please enter a valid Zambian phone number'

  /** A character allowed by `[^\s@]`. */
  predicate EmailChar(c: char) {
    !IsWhitespace(c) && c != '@'
  }

  /**
   * What `/^[^\s@]+@[^\s@]+\.[^\s@]+$/` denotes: `s` splits as local part, '@', domain domainLabel,
   * '.', rest, each of the three parts non-empty and made of `[^\s@]` characters.
   */
  ghost predicate MatchesEmailPattern(s: string) {
    exists i, j :: 0 < i && i + 1 < j < |s| - 1 && s[i] == '@' && s[j] == '.'
                   && All(s[..i], EmailChar) && All(s[i + 1..j], EmailChar) && All(s[j + 1..], EmailChar)
  }

  /** The characters strictly between the first and the last. */
  function Inner(d: string): string {
    if |d| >= 2 then d[1..|d| - 1] else []
  }

  /**
   * A direct test of the same pattern: no whitespace, one '@' with something before it,
   * and a domain holding a '.' that is neither its first nor its last character.
   */
  predicate IsEmailAddress(s: string) {
    var i := IndexOf(s, '@');
    NoWhitespace(s) && 0 < i && '@' !in s[i + 1..] && '.' in Inner(s[i + 1..])
  }

  /** The three parts of a pattern match cover every character but the '@' with `[^\s@]` characters. */
  lemma EmailPartsCover(s: string, i: int, j: int)
    requires 0 < i && i + 1 < j < |s| - 1 && s[i] == '@' && s[j] == '.'
    requires All(s[..i], EmailChar) && All(s[i + 1..j], EmailChar) && All(s[j + 1..], EmailChar)
    ensures forall k :: 0 <= k < |s| && k != i ==> EmailChar(s[k])
  {
    forall k | 0 <= k < |s| && k != i ensures EmailChar(s[k]) {
      if k < i {
        assert s[k] == s[..i][k];
      } else if k < j {
        assert s[k] == s[i + 1..j][k - i - 1];
      } else if k > j {
        assert s[k] == s[j + 1..][k - j - 1];
      }
    }
  }

  lemma PatternImpliesDirectTest(s: string)
    requires MatchesEmailPattern(s)
    ensures IsEmailAddress(s)
  {
    var i, j :| 0 < i && i + 1 < j < |s| - 1 && s[i] == '@' && s[j] == '.'
                && All(s[..i], EmailChar) && All(s[i + 1..j], EmailChar) && All(s[j + 1..], EmailChar);
    EmailPartsCover(s, i, j);
    assert NoWhitespace(s);
    assert '@' !in s[..i] by {
      forall k | 0 <= k < i ensures s[..i][k] != '@' {
        assert s[..i][k] == s[k];
      }
    }
    IndexOfUnique(s, '@', i);
    var d := s[i + 1..];
    assert '@' !in d by {
      forall k | 0 <= k < |d| ensures d[k] != '@' {
        assert d[k] == s[i + 1 + k];
      }
    }
    assert Inner(d)[j - i - 2] == '.' by {
      assert |d| >= 2 && Inner(d) == d[1..|d| - 1];
      assert d[j - i - 1] == s[j];
    }
  }

  /** A stretch of a whitespace-free string that holds no '@' is made of `[^\s@]` characters. */
  lemma EmailCharsBetween(s: string, lo: int, hi: int)
    requires 0 <= lo <= hi <= |s| && NoWhitespace(s)
    requires forall k :: lo <= k < hi ==> s[k] != '@'
    ensures All(s[lo..hi], EmailChar)
  {
    forall k | 0 <= k < hi - lo ensures EmailChar(s[lo..hi][k]) {
      assert s[lo..hi][k] == s[lo + k];
    }
  }

  /** Where the direct test finds the '@' and a '.' of the domain; no '@' follows the first one. */
  lemma EmailSplitPoints(s: string) returns (i: int, j: int)
    requires IsEmailAddress(s)
    ensures 0 < i && i + 1 < j < |s| - 1 && s[i] == '@' && s[j] == '.'
    ensures forall k :: 0 <= k < |s| && k != i ==> s[k] != '@'
  {
    i := IndexOf(s, '@');
    var d := s[i + 1..];
    var m :| 0 <= m < |Inner(d)| && Inner(d)[m] == '.';
    j := i + 2 + m;
    assert |d| >= 2 && Inner(d) == d[1..|d| - 1];
    assert Inner(d)[m] == d[m + 1] == s[j];
    assert forall k :: 0 <= k < i ==> s[k] == s[..i][k];
    assert forall k :: i < k < |s| ==> s[k] == d[k - i - 1];
  }

  lemma DirectTestImpliesPattern(s: string)
    requires IsEmailAddress(s)
    ensures MatchesEmailPattern(s)
  {
    var i, j := EmailSplitPoints(s);
    EmailCharsBetween(s, 0, i);
    EmailCharsBetween(s, i + 1, j);
    EmailCharsBetween(s, j + 1, |s|);
    assert s[j + 1..|s|] == s[j + 1..];
  }

  lemma EmailPatternIsDirectTest(s: string)
    ensures MatchesEmailPattern(s) <==> IsEmailAddress(s)
  {
    if MatchesEmailPattern(s) {
      PatternImpliesDirectTest(s);
    }
    if IsEmailAddress(s) {
      DirectTestImpliesPattern(s);
    }
  }

  /** `validateEmail(email)`: required first, then the pattern. */
  function ValidateEmail(email: string): Option<ContactError> {
    if email == "" then Some(EmailRequired)
    else if !IsEmailAddress(email) then Some(EmailInvalid)
    else None
  }

  /** Accepted iff non-empty, free of whitespace, with exactly one '@' after a non-empty local part and an inner '.' in the domain. */
  lemma ValidateEmailAccepts(email: string)
    ensures ValidateEmail(email) == None <==> MatchesEmailPattern(email)
    ensures ValidateEmail(email) == None ==>
              var i := IndexOf(email, '@');
              && NoWhitespace(email) && 0 < i
              && (forall k :: 0 <= k < |email| && k != i ==> email[k] != '@')
              && (exists j :: i + 1 < j < |email| - 1 && email[j] == '.')
  {
    EmailPatternIsDirectTest(email);
    if ValidateEmail(email) == None {
      var i := IndexOf(email, '@');
      var i', j := EmailSplitPoints(email);
      assert i' == i && i + 1 < j < |email| - 1 && email[j] == '.';
      forall k | 0 <= k < |email| && k != i ensures email[k] != '@' {
        if k < i {
          assert email[..i][k] == email[k];
        } else {
          assert email[i + 1..][k - i - 1] == email[k];
        }
      }
    }
  }

  lemma EmailAcceptedExample()
    ensures ValidateEmail("jo@mail.zm") == None
  {
    var s := "jo@mail.zm";
    assert s[..2] == "jo" && s[3..7] == "mail" && s[8..] == "zm";
    assert MatchesEmailPattern(s) by {
      assert s[2] == '@' && s[7] == '.';
    }
    EmailPatternIsDirectTest(s);
  }

  lemma EmptyEmailRequired()
    ensures ValidateEmail("") == Some(EmailRequired)
  {
  }

  /** A domain without a '.' is malformed. */
  lemma DotlessDomainRejected()
    ensures ValidateEmail("jo@mail") == Some(EmailInvalid)
  {
    var t := "jo@mail";
    IndexOfUnique(t, '@', 2);
    assert Inner(t[3..]) == "ai";
  }

  /** A second '@' is malformed. */
  lemma SecondAtRejected()
    ensures ValidateEmail("a@b@c.d") == Some(EmailInvalid)
  {
    var u := "a@b@c.d";
    IndexOfUnique(u, '@', 1);
    assert u[2..][1] == '@';
  }

  /** Nine digits, the first of them '9' or '0'. */
  predicate NineDigitNumber(b: string) {
    |b| == 9 && (b[0] == '9' || b[0] == '0') && All(b, IsDigit)
  }

  /**
   * What `/^(\+260\s?)?(9\d{2}\s?\d{3}\s?\d{3}|0\d{2}\s?\d{3}\s?\d{3})$/` accepts on a string
   * without whitespace (where every `\s?` is empty): an optional "+260", then nine digits starting with 9 or 0.
   */
  predicate MatchesPhonePattern(p: string) {
    NineDigitNumber(p) || (|p| >= 4 && p[..4] == COUNTRY_CODE && NineDigitNumber(p[4..]))
  }

  /** `validatePhone(phone)`: required first (on the raw value), then the pattern on the value without whitespace. */
  function ValidatePhone(phone: string): Option<ContactError> {
    if phone == "" then Some(PhoneRequired)
    else if !MatchesPhonePattern(StripWhitespace(phone)) then Some(PhoneInvalid)
    else None
  }

  /** Accepted numbers have 9 or 13 characters once whitespace is removed. */
  lemma PhoneLengths(phone: string)
    requires ValidatePhone(phone) == None
    ensures |StripWhitespace(phone)| == 9 || |StripWhitespace(phone)| == 13
  {
  }

  /** Whitespace anywhere in a non-empty value does not change the verdict. */
  lemma PhoneIgnoresWhitespace(a: string, b: string)
    requires a != "" && b != "" && StripWhitespace(a) == StripWhitespace(b)
    ensures ValidatePhone(a) == ValidatePhone(b)
  {
  }

  /** `StripWhitespace` on a word followed by two space-separated words. */
  lemma StripThreeWords(a: string, b: string, c: string)
    requires NoWhitespace(a) && NoWhitespace(b) && NoWhitespace(c)
    ensures StripWhitespace(a + " " + b + " " + c) == a + b + c
  {
    var sp := " ";
    assert StripWhitespace(sp) == [];
    StripWithoutWhitespace(a);
    StripWithoutWhitespace(b);
    StripWithoutWhitespace(c);
    calc {
      StripWhitespace(a + sp + b + sp + c);
      { StripAppend(a + sp + b + sp, c); }
      StripWhitespace(a + sp + b + sp) + c;
      { StripAppend(a + sp + b, sp); }
      StripWhitespace(a + sp + b) + [] + c;
      { StripAppend(a + sp, b); assert StripWhitespace(a + sp + b) + [] == StripWhitespace(a + sp + b); }
      StripWhitespace(a + sp) + b + c;
      { StripAppend(a, sp); assert a + [] == a; }
      a + b + c;
    }
  }

  /** The local form of the driver form's placeholder, "0955 123 456", has ten digits and is rejected. */
  lemma LocalPlaceholderRejected()
    ensures ValidatePhone("0955 123 456") == Some(PhoneInvalid)
  {
    assert "0955 123 456" == "0955" + " " + "123" + " " + "456";
    StripThreeWords("0955", "123", "456");
    assert |"0955" + "123" + "456"| == 10;
  }

  /** `StripWhitespace` on four space-separated words. */
  lemma StripFourWords(a: string, b: string, c: string, d: string)
    requires NoWhitespace(a) && NoWhitespace(b) && NoWhitespace(c) && NoWhitespace(d)
    ensures StripWhitespace(a + " " + b + " " + c + " " + d) == a + b + c + d
  {
    var sp := " ";
    assert StripWhitespace(sp) == [];
    StripWithoutWhitespace(d);
    calc {
      StripWhitespace(a + sp + b + sp + c + sp + d);
      { StripAppend(a + sp + b + sp + c + sp, d); }
      StripWhitespace(a + sp + b + sp + c + sp) + d;
      { StripAppend(a + sp + b + sp + c, sp); assert StripWhitespace(a + sp + b + sp + c) + [] == StripWhitespace(a + sp + b + sp + c); }
      StripWhitespace(a + sp + b + sp + c) + d;
      { StripThreeWords(a, b, c); }
      a + b + c + d;
    }
  }

  lemma NineDigitSubscriberNumber()
    ensures NineDigitNumber("955123456")
  {
    var d := "955123456";
    forall i | 0 <= i < |d|
      ensures IsDigit(d[i])
    {
      assert d[i] in "0123456789";
    }
  }

  const COUNTRY_CODE := "+260"

  lemma CountryCodeHasNoWhitespace()
    ensures NoWhitespace(COUNTRY_CODE)
  {
    forall i | 0 <= i < |COUNTRY_CODE| ensures !IsWhitespace(COUNTRY_CODE[i]) {
      assert COUNTRY_CODE[i] in "+260";
    }
  }

  /** "+260" directly followed by a nine-digit number matches the pattern. */
  lemma PrefixedNumberMatches(n: string)
    requires NineDigitNumber(n)
    ensures MatchesPhonePattern(COUNTRY_CODE + n)
  {
    var p := COUNTRY_CODE + n;
    assert p[..4] == COUNTRY_CODE;
    assert p[4..] == n;
  }

  /** "+260", a space, and a nine-digit number written as three space-separated groups, is accepted. */
  lemma InternationalGroupsAccepted(b: string, c: string, d: string)
    requires NoWhitespace(b) && NoWhitespace(c) && NoWhitespace(d)
    requires NineDigitNumber(b + c + d)
    ensures ValidatePhone(COUNTRY_CODE + " " + b + " " + c + " " + d) == None
  {
    CountryCodeHasNoWhitespace();
    StripFourWords(COUNTRY_CODE, b, c, d);
    var n := b + c + d;
    assert COUNTRY_CODE + b + c + d == COUNTRY_CODE + n;
    PrefixedNumberMatches(n);
    assert |COUNTRY_CODE + " " + b + " " + c + " " + d| > 0;
  }

  /** The international form of the placeholder, "+260 955 123 456", is accepted. */
  lemma InternationalPlaceholderAccepted()
    ensures ValidatePhone("+260 955 123 456") == None
  {
    assert "+260 955 123 456" == "+260" + " " + "955" + " " + "123" + " " + "456";
    NineDigitSubscriberNumber();
    assert "955" + "123" + "456" == "955123456";
    InternationalGroupsAccepted("955", "123", "456");
  }
}
