/**
 * The column-name vocabularies of `WhatsAppLinkGenerator` (whatsapp_generator.py,
 * lines 15-26), searched in a lower-cased column name:
 *   phone: `\b(phone|telephone|mobile|contact|tel)\b`
 *   email: `\b(email|e.?mail|mail)\b`
 *   name:  `\b(name|full.?name|first.?name|last.?name|contact|person)\b`
 * Each alternative begins and ends with a word character, so a search
 * succeeds exactly when some alternative occurs with a word boundary on
 * either side; `.` matches any character but a newline. The scans try
 * each start position from left to right.
 */
module Vocabulary {
  import opened Chars

  /** `w` occurs in `s` at `i`, checked from the `k`-th character of `w` on. */
  predicate MatchesFrom(s: string, w: string, i: nat, k: nat)
    requires k <= |w|
    decreases |w| - k
  {
    k == |w| || (i + k < |s| && s[i + k] == w[k] && MatchesFrom(s, w, i, k + 1))
  }

  predicate MatchesAt(s: string, w: string, i: nat) { MatchesFrom(s, w, i, 0) }

  /** `\b` before position `i`. */
  predicate BoundaryBefore(s: string, i: nat) requires i <= |s| { i == 0 || !IsWordChar(s[i - 1]) }

  /** `\b` at position `j`, after a match. */
  predicate BoundaryAfter(s: string, j: nat) requires j <= |s| { j == |s| || !IsWordChar(s[j]) }

  /** `\bw\b` matches at `i`. */
  predicate WordAt(s: string, w: string, i: nat)
  {
    i + |w| <= |s| && MatchesAt(s, w, i) && BoundaryBefore(s, i) && BoundaryAfter(s, i + |w|)
  }

  /** `\ba.?b\b` matches at `i`, without or with one character between `a` and `b`. */
  predicate GapWordAt(s: string, a: string, b: string, i: nat)
  {
    || (i + |a| + |b| <= |s| && MatchesAt(s, a, i) && MatchesAt(s, b, i + |a|)
        && BoundaryBefore(s, i) && BoundaryAfter(s, i + |a| + |b|))
    || (i + |a| + 1 + |b| <= |s| && MatchesAt(s, a, i) && s[i + |a|] != '\n' && MatchesAt(s, b, i + |a| + 1)
        && BoundaryBefore(s, i) && BoundaryAfter(s, i + |a| + 1 + |b|))
  }

  predicate HasWordFrom(s: string, w: string, i: nat)
    decreases |s| + 1 - i
  {
    i <= |s| && (WordAt(s, w, i) || HasWordFrom(s, w, i + 1))
  }

  predicate HasGapWordFrom(s: string, a: string, b: string, i: nat)
    decreases |s| + 1 - i
  {
    i <= |s| && (GapWordAt(s, a, b, i) || HasGapWordFrom(s, a, b, i + 1))
  }

  /** `re.search(r'\bw\b', s)` succeeds. */
  predicate HasWord(s: string, w: string) { HasWordFrom(s, w, 0) }

  /** `re.search(r'\ba.?b\b', s)` succeeds. */
  predicate HasGapWord(s: string, a: string, b: string) { HasGapWordFrom(s, a, b, 0) }

  predicate PhoneVocabulary(s: string)
  {
    HasWord(s, "phone") || HasWord(s, "telephone") || HasWord(s, "mobile") || HasWord(s, "contact") || HasWord(s, "tel")
  }

  predicate EmailVocabulary(s: string)
  {
    HasWord(s, "email") || HasGapWord(s, "e", "mail") || HasWord(s, "mail")
  }

  predicate NameVocabulary(s: string)
  {
    || HasWord(s, "name") || HasGapWord(s, "full", "name") || HasGapWord(s, "first", "name")
    || HasGapWord(s, "last", "name") || HasWord(s, "contact") || HasWord(s, "person")
  }

  /** The character-by-character check is slice equality. */
  lemma {:induction false} MatchesFromIsSlice(s: string, w: string, i: nat, k: nat)
    requires k <= |w| && i + |w| <= |s|
    ensures MatchesFrom(s, w, i, k) <==> s[i + k..i + |w|] == w[k..]
    decreases |w| - k
  {
    if k < |w| {
      MatchesFromIsSlice(s, w, i, k + 1);
      assert s[i + k..i + |w|] == [s[i + k]] + s[i + k + 1..i + |w|];
      assert w[k..] == [w[k]] + w[k + 1..];
    }
  }

  /** The scan finds a match exactly when `\bw\b` occurs somewhere from `i` on. */
  lemma {:induction false} HasWordFromMeans(s: string, w: string, i: nat)
    ensures HasWordFrom(s, w, i) <==> exists j :: i <= j <= |s| && WordAt(s, w, j)
    decreases |s| + 1 - i
  {
    if i <= |s| {
      HasWordFromMeans(s, w, i + 1);
    }
  }

  /**
   * `re.search(r'\bw\b', s)` succeeds exactly when `w` occurs as a slice of
   * `s` with a non-word character or an end of `s` on either side.
   */
  lemma HasWordMeans(s: string, w: string)
    ensures HasWord(s, w) <==>
      exists j :: 0 <= j && j + |w| <= |s| && s[j..j + |w|] == w && BoundaryBefore(s, j) && BoundaryAfter(s, j + |w|)
  {
    HasWordFromMeans(s, w, 0);
    if HasWord(s, w) {
      var j :| 0 <= j <= |s| && WordAt(s, w, j);
      MatchesFromIsSlice(s, w, j, 0);
    }
    if exists j :: 0 <= j && j + |w| <= |s| && s[j..j + |w|] == w && BoundaryBefore(s, j) && BoundaryAfter(s, j + |w|) {
      var j :| 0 <= j && j + |w| <= |s| && s[j..j + |w|] == w && BoundaryBefore(s, j) && BoundaryAfter(s, j + |w|);
      MatchesFromIsSlice(s, w, j, 0);
      assert WordAt(s, w, j);
    }
  }

  /** A whole name that is a token matches; so "contact" is in both the phone and the name vocabulary. */
  lemma ContactInBoth()
    ensures PhoneVocabulary("contact") && NameVocabulary("contact") && !EmailVocabulary("contact")
  {
    assert WordAt("contact", "contact", 0);
    NoWordFromWithout("contact", "email", 0, 'i');
    NoGapWordFromWithout("contact", "e", "mail", 0, 'i');
    NoWordFromWithout("contact", "mail", 0, 'i');
  }

  /** Tokens inside longer words do not match: "hotel" holds no `tel`... */
  lemma HotelHasNoTel()
    ensures !PhoneVocabulary("hotel")
  {
  }

  /** ...and "username" no `name`. */
  lemma UsernameHasNoName()
    ensures !NameVocabulary("username")
  {
  }

  /** `.?` admits one separator: "e-mail", "first name", and also "first_name". */
  lemma GapExamples()
    ensures EmailVocabulary("e-mail")
    ensures NameVocabulary("first name") && NameVocabulary("first_name")
  {
    assert GapWordAt("e-mail", "e", "mail", 0);
    assert GapWordAt("first name", "first", "name", 0);
    assert GapWordAt("first_name", "first", "name", 0);
  }

  /** The rest of `w` from `k` on cannot match in `s` when it holds a character `s` lacks. */
  lemma {:induction false} NoMatchFromWithout(s: string, w: string, i: nat, k: nat, c: char)
    requires k < |w| && c in w[k..] && c !in s
    ensures !MatchesFrom(s, w, i, k)
    decreases |w| - k
  {
    if w[k] == c {
      if i + k < |s| {
        assert s[i + k] in s;
      }
    } else {
      assert w[k..] == [w[k]] + w[k + 1..];
      NoMatchFromWithout(s, w, i, k + 1, c);
    }
  }

  /** `w` cannot occur in `s` when it holds a character `s` lacks. */
  lemma NoMatchWithout(s: string, w: string, i: nat, c: char)
    requires c in w && c !in s
    ensures !MatchesFrom(s, w, i, 0)
  {
    assert w[0..] == w;
    NoMatchFromWithout(s, w, i, 0, c);
  }

  lemma {:induction false} NoWordFromWithout(s: string, w: string, i: nat, c: char)
    requires c in w && c !in s
    ensures !HasWordFrom(s, w, i)
    decreases |s| + 1 - i
  {
    if i <= |s| {
      NoMatchWithout(s, w, i, c);
      NoWordFromWithout(s, w, i + 1, c);
    }
  }

  lemma {:induction false} NoGapWordFromWithout(s: string, a: string, b: string, i: nat, c: char)
    requires (c in a || c in b) && c !in s
    ensures !HasGapWordFrom(s, a, b, i)
    decreases |s| + 1 - i
  {
    if i <= |s| {
      if c in a {
        NoMatchWithout(s, a, i, c);
      } else {
        NoMatchWithout(s, b, i + |a|, c);
        NoMatchWithout(s, b, i + |a| + 1, c);
      }
      NoGapWordFromWithout(s, a, b, i + 1, c);
    }
  }

  /** No alternative of the phone vocabulary can occur in a text without `p`, `b`, `c` or `t`... */
  lemma NoPhoneWords(s: string)
    requires 'p' !in s && 'b' !in s && 'c' !in s && 't' !in s
    ensures !PhoneVocabulary(s)
  {
    NoWordFromWithout(s, "phone", 0, 'p');
    NoWordFromWithout(s, "telephone", 0, 'p');
    NoWordFromWithout(s, "mobile", 0, 'b');
    NoWordFromWithout(s, "contact", 0, 'c');
    NoWordFromWithout(s, "tel", 0, 't');
  }

  /** ...nor one of the e-mail vocabulary in a text without `a`... */
  lemma NoEmailWords(s: string)
    requires 'a' !in s
    ensures !EmailVocabulary(s)
  {
    NoWordFromWithout(s, "email", 0, 'a');
    NoGapWordFromWithout(s, "e", "mail", 0, 'a');
    NoWordFromWithout(s, "mail", 0, 'a');
  }

  /** ...nor one of the name vocabulary in a text without `a` or `p`. */
  lemma NoNameWords(s: string)
    requires 'a' !in s && 'p' !in s
    ensures !NameVocabulary(s)
  {
    NoWordFromWithout(s, "name", 0, 'a');
    NoGapWordFromWithout(s, "full", "name", 0, 'a');
    NoGapWordFromWithout(s, "first", "name", 0, 'a');
    NoGapWordFromWithout(s, "last", "name", 0, 'a');
    NoWordFromWithout(s, "contact", 0, 'a');
    NoWordFromWithout(s, "person", 0, 'p');
  }

  /** Every alternative of the name vocabulary holds an `n`. */
  lemma NoNameWordsWithoutN(s: string)
    requires 'n' !in s
    ensures !NameVocabulary(s)
  {
    NoWordFromWithout(s, "name", 0, 'n');
    NoGapWordFromWithout(s, "full", "name", 0, 'n');
    NoGapWordFromWithout(s, "first", "name", 0, 'n');
    NoGapWordFromWithout(s, "last", "name", 0, 'n');
    NoWordFromWithout(s, "contact", 0, 'n');
    NoWordFromWithout(s, "person", 0, 'n');
  }

  /** The lower-cased headers of a typical contact sheet, one role each (or none). */
  lemma NameHeader()
    ensures !PhoneVocabulary("name") && !EmailVocabulary("name") && NameVocabulary("name")
  {
    NoPhoneWords("name");
    NoWordFromWithout("name", "email", 0, 'i');
    NoGapWordFromWithout("name", "e", "mail", 0, 'i');
    NoWordFromWithout("name", "mail", 0, 'i');
    assert WordAt("name", "name", 0);
  }

  lemma MobileHeader()
    ensures PhoneVocabulary("mobile no") && !EmailVocabulary("mobile no") && !NameVocabulary("mobile no")
  {
    assert WordAt("mobile no", "mobile", 0);
    NoEmailWords("mobile no");
    NoNameWords("mobile no");
  }

  lemma EmailHeader()
    ensures !PhoneVocabulary("e-mail") && EmailVocabulary("e-mail") && !NameVocabulary("e-mail")
  {
    NoPhoneWords("e-mail");
    assert GapWordAt("e-mail", "e", "mail", 0);
    NoNameWordsWithoutN("e-mail");
  }

  lemma SmsHeader()
    ensures !PhoneVocabulary("sms") && !EmailVocabulary("sms") && !NameVocabulary("sms")
  {
    NoPhoneWords("sms");
    NoEmailWords("sms");
    NoNameWords("sms");
  }
}
