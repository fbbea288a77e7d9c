/**
 * `WhatsAppLinkGenerator.normalize_phone`: strip every non-digit and apply
 * three ordered Bangladesh rules; when none applies, the input string is
 * returned as it was, separators and all.
 */
module Phone {
  import opened Chars
  import opened Cells

  /**
   * The string `normalize_phone` works on. It differs from `Text` in one case:
   * `None` becomes "" rather than "None". Every other value, NaN included,
   * becomes its `str(x)`.
   */
  function PhoneText(v: Cell): string
  {
    if v == Null(NoneValue) then "" else Text(v)
  }

  /** 11 digits starting `01`: a national-format mobile number. */
  predicate NationalForm(d: string) { |d| == 11 && "01" <= d }

  /** 13 digits starting `8801`: already prefixed with the country code. */
  predicate CountryCodeForm(d: string) { |d| == 13 && "8801" <= d }

  /** 10 digits starting `1`: the trunk `0` has been dropped as well. */
  predicate TrunklessForm(d: string) { |d| == 10 && "1" <= d }

  predicate RuleApplies(d: string) { NationalForm(d) || CountryCodeForm(d) || TrunklessForm(d) }

  /** `+8801` followed by exactly nine digits. */
  predicate IsCanonical(p: string) { |p| == 14 && "+8801" <= p && AllDigits(p[1..]) }

  /** The three rules on a stringified phone cell, first match wins. */
  function NormalizePhoneText(phone: string): (r: string)
    ensures RuleApplies(Digits(phone)) ==> IsCanonical(r) && r[5..] == Digits(phone)[|Digits(phone)| - 9..]
    ensures !RuleApplies(Digits(phone)) ==> r == phone
  {
    var digits := Digits(phone);
    if |digits| == 11 && "01" <= digits then "+88" + digits
    else if |digits| == 13 && "8801" <= digits then "+" + digits
    else if |digits| == 10 && "1" <= digits then "+880" + digits
    else phone
  }

  /** `normalize_phone(phone)` for any cell value. */
  function NormalizePhone(v: Cell): (r: string)
    ensures v == Null(NoneValue) ==> r == ""
    ensures v != Null(NoneValue) && RuleApplies(Digits(Text(v))) ==> IsCanonical(r) && r[5..] == Digits(Text(v))[|Digits(Text(v))| - 9..]
    ensures v != Null(NoneValue) && !RuleApplies(Digits(Text(v))) ==> r == Text(v)
  {
    NormalizePhoneText(PhoneText(v))
  }

  /** A NaN, NaT or NA value holds no digits, so it comes back as its `str(x)`: `normalize_phone(nan)` is "nan". */
  lemma MissingMarkerKept(m: Missing)
    requires m != NoneValue
    ensures NormalizePhone(Null(m)) == MissingText(m)
  {
    DigitsKeep(MissingText(m));
    assert Digits(MissingText(m)) == [] by {
      if Digits(MissingText(m)) != [] {
        assert Digits(MissingText(m))[0] in Digits(MissingText(m));
      }
    }
  }

  /** The digits of a canonical number are those after its `+`. */
  lemma CanonicalDigits(p: string)
    requires IsCanonical(p)
    ensures Digits(p) == p[1..] && CountryCodeForm(p[1..])
  {
    assert p == [p[0]] + p[1..];
    DigitsConcat([p[0]], p[1..]);
    DigitsOfDigits(p[1..]);
  }

  /** A canonical number is a fixed point: every rule's output is normalised again to itself. */
  lemma CanonicalIsFixed(p: string)
    requires IsCanonical(p)
    ensures NormalizePhoneText(p) == p
  {
    CanonicalDigits(p);
    assert "+" + p[1..] == p;
  }

  /** `normalize_phone(normalize_phone(s)) == normalize_phone(s)`. */
  lemma {:induction false} NormalizeIdempotent(phone: string)
    ensures NormalizePhoneText(NormalizePhoneText(phone)) == NormalizePhoneText(phone)
  {
    if RuleApplies(Digits(phone)) {
      CanonicalIsFixed(NormalizePhoneText(phone));
    }
  }

  /**
   * The four spellings of one subscriber number, with any separators
   * (`01712345678`, `8801712345678`, `+8801712345678`, `1712345678`),
   * all normalise to `+8801` and the nine subscriber digits.
   */
  lemma SameSubscriber(phone: string, sub: string)
    requires |sub| == 9 && AllDigits(sub)
    requires Digits(phone) in {"01" + sub, "8801" + sub, "1" + sub}
    ensures NormalizePhoneText(phone) == "+8801" + sub
  {
    SubscriberForms(Digits(phone), sub);
    NormalizeByLastNine(phone, sub);
  }

  /** Each of the three digit spellings is a form a rule accepts, ending in the subscriber number. */
  lemma SubscriberForms(d: string, sub: string)
    requires |sub| == 9
    requires d in {"01" + sub, "8801" + sub, "1" + sub}
    ensures RuleApplies(d) && d[|d| - 9..] == sub
  {
    if d == "01" + sub {
      assert "01" <= d;
    } else if d == "8801" + sub {
      assert "8801" <= d;
    } else {
      assert "1" <= d;
    }
  }

  /** When a rule applies, the result is `+8801` and the last nine digits. */
  lemma NormalizeByLastNine(phone: string, sub: string)
    requires RuleApplies(Digits(phone)) && Digits(phone)[|Digits(phone)| - 9..] == sub
    ensures NormalizePhoneText(phone) == "+8801" + sub
  {
    var r := NormalizePhoneText(phone);
    assert r == r[..5] + r[5..];
  }

  /** A subscriber number written straight after one of the three prefixes, with no separators. */
  lemma PrefixedSubscriber(prefix: string, sub: string)
    requires prefix == "01" || prefix == "8801" || prefix == "1"
    requires |sub| == 9 && AllDigits(sub)
    ensures NormalizePhoneText(prefix + sub) == "+8801" + sub
  {
    DigitsConcat(prefix, sub);
    DigitsOfDigits(prefix);
    DigitsOfDigits(sub);
    SameSubscriber(prefix + sub, sub);
  }

  // The examples pinned by test_phone_logic.py:9-26, each input written as
  // its prefix followed by the subscriber number.

  lemma NationalExample()
    ensures NormalizePhoneText("01" + "712345678") == "+8801712345678"
  {
    PrefixedSubscriber("01", "712345678");
  }

  lemma CountryCodeExample()
    ensures NormalizePhoneText("8801" + "712345678") == "+8801712345678"
  {
    PrefixedSubscriber("8801", "712345678");
  }

  lemma PlusCountryCodeExample()
    ensures NormalizePhoneText("+8801" + "712345678") == "+8801712345678"
  {
    CanonicalIsFixed("+8801" + "712345678");
  }

  /** Six digits match no rule, so the input comes back without any `+880`. */
  lemma ShortNumberExample()
    ensures NormalizePhoneText("123456") == "123456"
  {
    DigitsOfDigits("123456");
  }
}
