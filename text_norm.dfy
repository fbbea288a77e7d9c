/**
 * `WhatsAppLinkGenerator.normalize_text`: entity decoding and Unicode
 * normalisation (both supplied by the caller as opaque tables), then
 * `' '.join(text.split())`, then naive sentence capitalisation:
 * `'. '.join(s.strip().capitalize() for s in text.split('.')).strip()`.
 */
module TextNorm {
  import opened Chars
  import opened Cells

  /** `html.unescape` and `unicodedata.normalize('NFKC', ·)`, left uninterpreted. */
  datatype UnicodeTables = UnicodeTables(unescape: string -> string, nfkc: string -> string)

  predicate NoSpace(s: string) { forall i :: 0 <= i < |s| ==> !IsSpace(s[i]) }

  /** Whitespace other than the plain space does not occur. */
  predicate OnlyPlainSpaces(s: string) { forall i :: 0 <= i < |s| ==> IsSpace(s[i]) ==> s[i] == ' ' }

  /** Single plain spaces between non-space characters, none at either end. */
  predicate Collapsed(s: string)
  {
    forall i :: 0 <= i < |s| && IsSpace(s[i]) ==> s[i] == ' ' && 0 < i < |s| - 1 && !IsSpace(s[i + 1])
  }

  /** `sep.join(parts)`. */
  function Join(sep: string, parts: seq<string>): string
  {
    if parts == [] then "" else if |parts| == 1 then parts[0] else parts[0] + sep + Join(sep, parts[1..])
  }

  function Concat(parts: seq<string>): string
  {
    if parts == [] then "" else parts[0] + Concat(parts[1..])
  }

  /** The non-whitespace characters of `s`, in order. */
  function RemoveSpaces(s: string): (r: string)
    ensures NoSpace(r)
  {
    if s == [] then [] else if IsSpace(s[0]) then RemoveSpaces(s[1..]) else [s[0]] + RemoveSpaces(s[1..])
  }

  /** `str.split()` continued from a partial word `cur`. */
  function WordsFrom(s: string, cur: string): (ws: seq<string>)
    requires NoSpace(cur)
    ensures forall i :: 0 <= i < |ws| ==> ws[i] != [] && NoSpace(ws[i])
  {
    if s == [] then (if cur == [] then [] else [cur])
    else if IsSpace(s[0]) then (if cur == [] then WordsFrom(s[1..], []) else [cur] + WordsFrom(s[1..], []))
    else WordsFrom(s[1..], cur + [s[0]])
  }

  /** `text.split()`: the maximal runs of non-whitespace characters. */
  function Words(s: string): seq<string>
  {
    WordsFrom(s, [])
  }

  /** `' '.join(text.split())`. */
  function CollapseSpaces(s: string): string
  {
    Join(" ", Words(s))
  }

  /** `text.split(sep)` continued from a partial fragment `cur`. */
  function SplitFrom(s: string, sep: char, cur: string): (parts: seq<string>)
    requires sep !in cur
    ensures |parts| >= 1
    ensures forall i :: 0 <= i < |parts| ==> sep !in parts[i]
  {
    if s == [] then [cur]
    else if s[0] == sep then [cur] + SplitFrom(s[1..], sep, [])
    else SplitFrom(s[1..], sep, cur + [s[0]])
  }

  /** `text.split(sep)` for a one-character separator. */
  function Split(s: string, sep: char): seq<string>
  {
    SplitFrom(s, sep, [])
  }

  /** Python's `str.capitalize()` for ASCII letters: first character upper-case, the rest lower-case. */
  function Capitalize(s: string): (r: string)
    ensures |r| == |s| && Lower(r) == Lower(s)
    ensures r != [] ==> !IsAsciiLower(r[0])
    ensures forall i :: 1 <= i < |r| ==> !IsAsciiUpper(r[i])
    ensures forall i :: 0 <= i < |r| ==> IsSpace(r[i]) == IsSpace(s[i]) && (r[i] == '.') == (s[i] == '.')
    ensures forall i :: 0 <= i < |r| && IsSpace(s[i]) ==> r[i] == s[i]
  {
    if s == [] then []
    else
      var r := [ToUpper(s[0])] + Lower(s[1..]);
      CapitalizedFacts(s, r);
      r
  }

  /** Lower-casing after upper-casing is lower-casing. */
  lemma ToLowerToUpper(c: char)
    ensures ToLower(ToUpper(c)) == ToLower(c)
  {
  }

  lemma CapitalizedFacts(s: string, r: string)
    requires s != [] && r == [ToUpper(s[0])] + Lower(s[1..])
    ensures |r| == |s| && Lower(r) == Lower(s)
    ensures forall i :: 0 <= i < |r| ==> IsSpace(r[i]) == IsSpace(s[i]) && (r[i] == '.') == (s[i] == '.')
    ensures forall i :: 0 <= i < |r| && IsSpace(s[i]) ==> r[i] == s[i]
  {
    ToLowerToUpper(s[0]);
    forall i | 0 <= i < |r| ensures Lower(r)[i] == Lower(s)[i] {
      if i > 0 {
        assert r[i] == ToLower(s[i]);
      }
    }
  }

  /** The fragments between dots, each stripped and capitalised. */
  function Sentences(parts: seq<string>): (r: seq<string>)
    ensures |r| == |parts|
  {
    seq(|parts|, i requires 0 <= i < |parts| => Capitalize(Strip(parts[i])))
  }

  /** `normalize_text` on a string. */
  function NormalizeString(tables: UnicodeTables, text: string): string
  {
    var t := CollapseSpaces(tables.nfkc(tables.unescape(text)));
    Strip(Join(". ", Sentences(Split(t, '.'))))
  }

  /** `normalize_text(text)`: a value that is not a string is returned unchanged. */
  function NormalizeText(tables: UnicodeTables, v: Cell): (r: Cell)
    ensures !v.Str? ==> r == v
    ensures v.Str? ==> r == Str(NormalizeString(tables, v.s))
  {
    match v
    case Str(s) => Str(NormalizeString(tables, s))
    case _ => v
  }

  // Whitespace collapsing

  lemma {:induction false} RemoveSpacesConcat(a: string, b: string)
    ensures RemoveSpaces(a + b) == RemoveSpaces(a) + RemoveSpaces(b)
  {
    if a == [] {
      assert a + b == b;
    } else {
      assert (a + b)[0] == a[0] && (a + b)[1..] == a[1..] + b;
      RemoveSpacesConcat(a[1..], b);
    }
  }

  lemma {:induction false} RemoveSpacesOfNoSpace(w: string)
    requires NoSpace(w)
    ensures RemoveSpaces(w) == w
  {
    if w != [] { RemoveSpacesOfNoSpace(w[1..]); }
  }

  lemma {:induction false} WordsFromConcat(s: string, cur: string)
    requires NoSpace(cur)
    ensures Concat(WordsFrom(s, cur)) == cur + RemoveSpaces(s)
  {
    if s == [] {
      assert cur + [] == cur;
      if cur != [] { ConcatCons(cur, []); }
    } else if IsSpace(s[0]) {
      WordsFromConcat(s[1..], []);
      assert RemoveSpaces(s) == RemoveSpaces(s[1..]);
      assert [] + RemoveSpaces(s[1..]) == RemoveSpaces(s[1..]);
      if cur != [] { ConcatCons(cur, WordsFrom(s[1..], [])); }
    } else {
      assert NoSpace(cur + [s[0]]) by {
        forall k | 0 <= k < |cur + [s[0]]| ensures !IsSpace((cur + [s[0]])[k]) {
          if k < |cur| { assert (cur + [s[0]])[k] == cur[k]; }
        }
      }
      WordsFromConcat(s[1..], cur + [s[0]]);
      assert RemoveSpaces(s) == [s[0]] + RemoveSpaces(s[1..]);
      assert cur + [s[0]] + RemoveSpaces(s[1..]) == cur + ([s[0]] + RemoveSpaces(s[1..]));
    }
  }

  lemma ConcatCons(a: string, rest: seq<string>)
    ensures Concat([a] + rest) == a + Concat(rest)
  {
    assert ([a] + rest)[0] == a && ([a] + rest)[1..] == rest;
  }

  lemma {:induction false} RemoveSpacesJoin(ws: seq<string>)
    requires forall i :: 0 <= i < |ws| ==> NoSpace(ws[i])
    ensures RemoveSpaces(Join(" ", ws)) == Concat(ws)
  {
    if |ws| == 1 {
      RemoveSpacesOfNoSpace(ws[0]);
    } else if |ws| > 1 {
      RemoveSpacesJoin(ws[1..]);
      RemoveSpacesConcat(ws[0] + " ", Join(" ", ws[1..]));
      RemoveSpacesConcat(ws[0], " ");
      RemoveSpacesOfNoSpace(ws[0]);
    }
  }

  /** Collapsing whitespace keeps every other character, in order. */
  lemma CollapseKeepsText(s: string)
    ensures RemoveSpaces(CollapseSpaces(s)) == RemoveSpaces(s)
  {
    WordsFromConcat(s, []);
    RemoveSpacesJoin(Words(s));
  }

  /** Joining non-empty words that hold no whitespace with single spaces gives a collapsed string. */
  lemma {:induction false} JoinWordsCollapsed(ws: seq<string>)
    requires forall i :: 0 <= i < |ws| ==> ws[i] != [] && NoSpace(ws[i])
    ensures Collapsed(Join(" ", ws))
    ensures Join(" ", ws) != [] ==> !IsSpace(Join(" ", ws)[0])
  {
    if |ws| > 1 {
      JoinWordsCollapsed(ws[1..]);
      var w, rest := ws[0], Join(" ", ws[1..]);
      var j := w + " " + rest;
      assert rest != [] by { assert ws[1..][0] != []; }
      forall i | 0 <= i < |j| && IsSpace(j[i])
        ensures j[i] == ' ' && 0 < i < |j| - 1 && !IsSpace(j[i + 1])
      {
        if i > |w| {
          assert j[i] == rest[i - |w| - 1];
          if i + 1 < |j| { assert j[i + 1] == rest[i - |w|]; }
        } else {
          assert i == |w|;
          assert j[i + 1] == rest[0];
        }
      }
    }
  }

  /** `' '.join(text.split())` leaves single plain spaces between words and none at the ends. */
  lemma CollapseIsCollapsed(s: string)
    ensures Collapsed(CollapseSpaces(s))
  {
    JoinWordsCollapsed(Words(s));
  }

  lemma {:induction false} WordsFromWord(w: string, t: string, cur: string)
    requires NoSpace(w) && NoSpace(cur)
    ensures WordsFrom(w + t, cur) == WordsFrom(t, cur + w)
  {
    if w == [] {
      assert w + t == t && cur + w == cur;
    } else {
      assert (w + t)[0] == w[0] && (w + t)[1..] == w[1..] + t;
      assert cur + [w[0]] + w[1..] == cur + w;
      WordsFromWord(w[1..], t, cur + [w[0]]);
    }
  }

  /** Splitting words joined by single spaces gives the words back. */
  lemma {:induction false} WordsOfJoin(ws: seq<string>)
    requires forall i :: 0 <= i < |ws| ==> ws[i] != [] && NoSpace(ws[i])
    ensures Words(Join(" ", ws)) == ws
  {
    if |ws| == 1 {
      var w := ws[0];
      assert w + [] == w && [] + w == w;
      WordsFromWord(w, [], []);
      assert WordsFrom([], w) == [w];
      assert ws == [w];
    } else if |ws| > 1 {
      var w, rest := ws[0], Join(" ", ws[1..]);
      assert w + " " + rest == w + (" " + rest);
      WordsFromWord(w, " " + rest, []);
      assert [] + w == w;
      assert (" " + rest)[1..] == rest;
      WordsOfJoin(ws[1..]);
      assert [w] + ws[1..] == ws;
    }
  }

  /** Collapsing whitespace twice is the same as once. */
  lemma CollapseIdempotent(s: string)
    ensures CollapseSpaces(CollapseSpaces(s)) == CollapseSpaces(s)
  {
    WordsOfJoin(Words(s));
  }

  // Sentence splitting

  /** `sep.join(text.split(sep)) == text`. */
  lemma {:induction false} JoinSplitFrom(s: string, sep: char, cur: string)
    requires sep !in cur
    ensures Join([sep], SplitFrom(s, sep, cur)) == cur + s
  {
    if s == [] {
      assert cur + s == cur;
    } else if s[0] == sep {
      JoinSplitFrom(s[1..], sep, []);
      var rest := SplitFrom(s[1..], sep, []);
      assert ([cur] + rest)[1..] == rest;
      assert cur + [sep] + s[1..] == cur + s;
    } else {
      JoinSplitFrom(s[1..], sep, cur + [s[0]]);
      assert cur + [s[0]] + s[1..] == cur + s;
    }
  }

  /** `text.split(sep)` has one more fragment than `text` has separators. */
  lemma {:induction false} SplitFromLength(s: string, sep: char, cur: string)
    requires sep !in cur
    ensures |SplitFrom(s, sep, cur)| == Count(s, sep) + 1
  {
    if s != [] {
      assert s == [s[0]] + s[1..];
      assert multiset(s) == multiset([s[0]]) + multiset(s[1..]);
      if s[0] == sep {
        SplitFromLength(s[1..], sep, []);
      } else {
        SplitFromLength(s[1..], sep, cur + [s[0]]);
      }
    }
  }

  lemma SplitRoundTrip(s: string, sep: char)
    ensures Join([sep], Split(s, sep)) == s
    ensures |Split(s, sep)| == Count(s, sep) + 1
  {
    JoinSplitFrom(s, sep, []);
    SplitFromLength(s, sep, []);
  }

  /** Joining fragments free of `c` with a separator holding one `c` puts exactly one `c` between each pair. */
  lemma {:induction false} JoinCount(sep: string, parts: seq<string>, c: char)
    requires |parts| >= 1 && Count(sep, c) == 1
    requires forall i :: 0 <= i < |parts| ==> c !in parts[i]
    ensures Count(Join(sep, parts), c) == |parts| - 1
  {
    if |parts| > 1 {
      JoinCount(sep, parts[1..], c);
      assert multiset(parts[0] + sep + Join(sep, parts[1..]))
        == multiset(parts[0]) + multiset(sep) + multiset(Join(sep, parts[1..]));
    }
  }

  /** Stripping and capitalising a fragment neither adds nor removes a dot. */
  lemma SentencesKeepDots(parts: seq<string>)
    requires forall i :: 0 <= i < |parts| ==> '.' !in parts[i]
    ensures forall i :: 0 <= i < |parts| ==> '.' !in Sentences(parts)[i]
  {
    forall i | 0 <= i < |parts| ensures '.' !in Sentences(parts)[i] {
      var t := Strip(parts[i]);
      StripKeeps(parts[i], '.');
      assert Count(t, '.') == 0;
      var r := Capitalize(t);
      assert forall k :: 0 <= k < |r| ==> r[k] != '.' by {
        forall k | 0 <= k < |r| ensures r[k] != '.' {
          assert t[k] in t;
        }
      }
    }
  }

  lemma {:induction false} RemoveSpacesKeeps(s: string, c: char)
    requires !IsSpace(c)
    ensures Count(RemoveSpaces(s), c) == Count(s, c)
  {
    if s != [] {
      RemoveSpacesKeeps(s[1..], c);
      assert s == [s[0]] + s[1..];
      assert multiset(s) == multiset([s[0]]) + multiset(s[1..]);
      if !IsSpace(s[0]) {
        assert multiset(RemoveSpaces(s)) == multiset([s[0]]) + multiset(RemoveSpaces(s[1..]));
      }
    }
  }

  /** Collapsing whitespace changes only whitespace: every other character keeps its count. */
  lemma CollapseKeepsCount(s: string, c: char)
    requires !IsSpace(c)
    ensures Count(CollapseSpaces(s), c) == Count(s, c)
  {
    CollapseKeepsText(s);
    RemoveSpacesKeeps(s, c);
    RemoveSpacesKeeps(CollapseSpaces(s), c);
  }

  /**
   * `normalize_text` keeps the number of `.` characters of the decoded,
   * normalised text: splitting on `.` and rejoining with `". "` puts one dot
   * back for every one taken out.
   */
  lemma NormalizeKeepsDots(tables: UnicodeTables, text: string)
    ensures Count(NormalizeString(tables, text), '.') == Count(tables.nfkc(tables.unescape(text)), '.')
  {
    var pre := tables.nfkc(tables.unescape(text));
    var t := CollapseSpaces(pre);
    CollapseKeepsCount(pre, '.');
    var parts := Split(t, '.');
    SplitRoundTrip(t, '.');
    SentencesKeepDots(parts);
    assert Count(". ", '.') == 1 by { assert multiset(". ") == multiset{'.', ' '}; }
    JoinCount(". ", Sentences(parts), '.');
    StripKeeps(Join(". ", Sentences(parts)), '.');
  }

  // Whitespace in the result

  lemma OnlyPlainSpacesConcat(a: string, b: string)
    requires OnlyPlainSpaces(a) && OnlyPlainSpaces(b)
    ensures OnlyPlainSpaces(a + b)
  {
    forall i | 0 <= i < |a + b| && IsSpace((a + b)[i]) ensures (a + b)[i] == ' ' {
      if i >= |a| { assert (a + b)[i] == b[i - |a|]; }
    }
  }

  lemma OnlyPlainSpacesSlice(s: string, i: int, j: int)
    requires OnlyPlainSpaces(s) && 0 <= i <= j <= |s|
    ensures OnlyPlainSpaces(s[i..j])
  {
    forall k | 0 <= k < j - i && IsSpace(s[i..j][k]) ensures s[i..j][k] == ' ' {
      assert s[i..j][k] == s[i + k];
    }
  }

  lemma StripOnlyPlainSpaces(s: string)
    requires OnlyPlainSpaces(s)
    ensures OnlyPlainSpaces(Strip(s))
  {
    var t := TrimStart(s);
    OnlyPlainSpacesSlice(s, |s| - |t|, |s|);
    OnlyPlainSpacesSlice(t, 0, |TrimEnd(t)|);
  }

  lemma {:induction false} SplitFromOnlyPlainSpaces(s: string, sep: char, cur: string)
    requires sep !in cur && OnlyPlainSpaces(s) && OnlyPlainSpaces(cur)
    ensures forall i :: 0 <= i < |SplitFrom(s, sep, cur)| ==> OnlyPlainSpaces(SplitFrom(s, sep, cur)[i])
  {
    if s != [] {
      OnlyPlainSpacesSlice(s, 1, |s|);
      if s[0] == sep {
        SplitFromOnlyPlainSpaces(s[1..], sep, []);
        var rest := SplitFrom(s[1..], sep, []);
        forall i | 1 <= i < |[cur] + rest| ensures OnlyPlainSpaces(([cur] + rest)[i]) {
          assert ([cur] + rest)[i] == rest[i - 1];
        }
      } else {
        OnlyPlainSpacesSlice(s, 0, 1);
        OnlyPlainSpacesConcat(cur, [s[0]]);
        SplitFromOnlyPlainSpaces(s[1..], sep, cur + [s[0]]);
      }
    }
  }

  lemma CapitalizeOnlyPlainSpaces(s: string)
    requires OnlyPlainSpaces(s)
    ensures OnlyPlainSpaces(Capitalize(s))
  {
    var r := Capitalize(s);
    forall i | 0 <= i < |r| && IsSpace(r[i]) ensures r[i] == ' ' {
      assert IsSpace(s[i]);
    }
  }

  lemma SentencesOnlyPlainSpaces(parts: seq<string>)
    requires forall i :: 0 <= i < |parts| ==> OnlyPlainSpaces(parts[i])
    ensures forall i :: 0 <= i < |parts| ==> OnlyPlainSpaces(Sentences(parts)[i])
  {
    forall i | 0 <= i < |parts| ensures OnlyPlainSpaces(Sentences(parts)[i]) {
      StripOnlyPlainSpaces(parts[i]);
      CapitalizeOnlyPlainSpaces(Strip(parts[i]));
    }
  }

  lemma {:induction false} JoinOnlyPlainSpaces(sep: string, parts: seq<string>)
    requires OnlyPlainSpaces(sep)
    requires forall i :: 0 <= i < |parts| ==> OnlyPlainSpaces(parts[i])
    ensures OnlyPlainSpaces(Join(sep, parts))
  {
    if |parts| > 1 {
      JoinOnlyPlainSpaces(sep, parts[1..]);
      OnlyPlainSpacesConcat(parts[0], sep);
      OnlyPlainSpacesConcat(parts[0] + sep, Join(sep, parts[1..]));
    }
  }

  /**
   * The text `normalize_text` returns holds no whitespace but the plain
   * space, and none at either end.
   */
  lemma JoinedSentencesSpaces(t: string)
    requires OnlyPlainSpaces(t)
    ensures OnlyPlainSpaces(Join(". ", Sentences(Split(t, '.'))))
  {
    var parts := Split(t, '.');
    SplitFromOnlyPlainSpaces(t, '.', []);
    SentencesOnlyPlainSpaces(parts);
    assert OnlyPlainSpaces(". ") by {
      forall k | 0 <= k < 2 ensures IsSpace(". "[k]) ==> ". "[k] == ' ' { }
    }
    JoinOnlyPlainSpaces(". ", Sentences(parts));
  }

  lemma NormalizeStringSpaces(tables: UnicodeTables, text: string)
    ensures OnlyPlainSpaces(NormalizeString(tables, text))
    ensures var r := NormalizeString(tables, text); r != [] ==> !IsSpace(r[0]) && !IsSpace(r[|r| - 1])
  {
    var pre := tables.nfkc(tables.unescape(text));
    var t := CollapseSpaces(pre);
    CollapseIsCollapsed(pre);
    JoinedSentencesSpaces(t);
    var joined := Join(". ", Sentences(Split(t, '.')));
    StripOnlyPlainSpaces(joined);
    StripEnds(joined);
    assert NormalizeString(tables, text) == Strip(joined);
  }
}
