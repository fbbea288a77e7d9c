/**
 * The earlier link generator in Arch/generate_links.py: `clean_phone`, which
 * keeps only digits and prepends `88` or `880` (never `+`), and
 * `generate_link`, which greets the customer by name before the SMS text.
 */
module LegacyLinks {
  import opened Wrappers
  import opened Chars
  import opened Cells
  import opened Percent
  import opened Links

  /** `clean_phone` on `str(phone)`. */
  function CleanPhone(phoneText: string): (r: string)
    ensures AllDigits(r) && '+' !in r
    ensures "88" <= Digits(phoneText) ==> r == Digits(phoneText)
    ensures !("88" <= Digits(phoneText)) && "01" <= Digits(phoneText) ==> r == "88" + Digits(phoneText)
    ensures !("88" <= Digits(phoneText)) && !("01" <= Digits(phoneText)) && "1" <= Digits(phoneText) && |Digits(phoneText)| == 10
      ==> r == "880" + Digits(phoneText)
    ensures !("88" <= Digits(phoneText)) && !("01" <= Digits(phoneText)) && !("1" <= Digits(phoneText) && |Digits(phoneText)| == 10)
      ==> r == Digits(phoneText)
  {
    var cleaned := Digits(phoneText);
    if "88" <= cleaned then cleaned
    else if "01" <= cleaned then "88" + cleaned
    else if "1" <= cleaned && |cleaned| == 10 then "880" + cleaned
    else cleaned
  }

  /** Cleaning an already cleaned number changes nothing: every rewrite starts with `88`. */
  lemma {:induction false} CleanPhoneIdempotent(phoneText: string)
    ensures CleanPhone(CleanPhone(phoneText)) == CleanPhone(phoneText)
  {
    var r := CleanPhone(phoneText);
    DigitsOfDigits(r);
    var d := Digits(phoneText);
    if !("88" <= d) && "01" <= d {
      assert r[..2] == "88";
    } else if !("88" <= d) && "1" <= d && |d| == 10 {
      assert r[..2] == "88";
    }
  }

  /** The message of line 31: a greeting with the customer's name, a blank line, then the SMS. */
  function Greeting(customerName: string, sms: string): string
  {
    "Assalamu Alikum, " + customerName + " Sir!\n\n" + sms
  }

  /** `generate_link(row)` on the row's phone, SMS and customer-name cells. */
  function GenerateLink(phone: Cell, sms: Cell, name: Cell): (link: string)
    ensures link == "" <==> phone.Null? || sms.Null?
  {
    if phone.Null? || sms.Null? then ""
    else
      var customerName := if name.Null? then "" else Text(name);
      WaPrefix + CleanPhone(Text(phone)) + "?text=" + Quote(Greeting(customerName, Text(sms)))
  }

  /**
   * A link for a row with a phone and an SMS reads back as the cleaned number
   * and the greeting (with "" for a missing name) followed by the SMS.
   */
  lemma GenerateLinkDecodes(phone: Cell, sms: Cell, name: Cell)
    requires !phone.Null? && !sms.Null?
    ensures var customerName := if name.Null? then "" else Text(name);
      ParseLink(GenerateLink(phone, sms, name)) == Some(Link(CleanPhone(Text(phone)), Greeting(customerName, Text(sms))))
  {
    var customerName := if name.Null? then "" else Text(name);
    ParseBuiltLink(CleanPhone(Text(phone)), Greeting(customerName, Text(sms)));
  }
}
