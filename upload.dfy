/**
 * `allowed_file` of the web front end (app.py): an upload is accepted when
 * its name has a dot and the text after the last dot, lower-cased, is one
 * of the spreadsheet extensions.
 */
module Upload {
  import opened Wrappers
  import opened Chars

  const AllowedExtensions: set<string> := {"csv", "xlsx", "xls"}

  /** `s.rsplit(c, 1)[-1]`: the text after the last `c`, or all of `s` when there is none. */
  function AfterLast(s: string, c: char): (r: string)
    ensures |r| <= |s| && r == s[|s| - |r|..] && c !in r
    ensures c in s ==> |r| < |s| && s[|s| - |r| - 1] == c
    ensures c !in s ==> r == s
  {
    match LastIndex(s, c)
    case None => s
    case Some(k) => s[k + 1..]
  }

  /** `allowed_file(filename)`. */
  predicate AllowedFile(filename: string)
  {
    '.' in filename && Lower(AfterLast(filename, '.')) in AllowedExtensions
  }

  /** The text after the last dot of `a + "." + e` is `e` when `e` has no dot. */
  lemma AfterLastOf(a: string, e: string)
    requires '.' !in e
    ensures AfterLast(a + "." + e, '.') == e
  {
    LastIndexAt(a, '.', e);
    assert (a + "." + e)[|a| + 1..] == e;
  }

  /** A name with a dot is judged by the part after its last dot alone, whatever comes before. */
  lemma AllowedFileMeans(a: string, e: string)
    requires '.' !in e
    ensures AllowedFile(a + "." + e) <==> Lower(e) in AllowedExtensions
  {
    AfterLastOf(a, e);
    assert '.' in a + "." + e by {
      assert (a + "." + e)[|a|] == '.';
    }
  }

  /** A name ending in a dot and an allowed extension, in any case, is accepted... */
  lemma EndingAccepted(f: string, e: string)
    requires e in AllowedExtensions && |e| < |f| && f[|f| - |e| - 1] == '.' && Lower(f[|f| - |e|..]) == e
    ensures AllowedFile(f)
  {
    var ext := f[|f| - |e|..];
    assert '.' !in e by {
      assert e == "csv" || e == "xlsx" || e == "xls";
    }
    LowerKeepsDots(ext);
    var a := f[..|f| - |e| - 1];
    assert f == a + "." + ext;
    AllowedFileMeans(a, ext);
  }

  /** ...and an accepted name has such an ending: the lower-cased text after its last dot. */
  lemma AcceptedEnding(f: string) returns (e: string)
    requires AllowedFile(f)
    ensures e in AllowedExtensions && |e| < |f| && f[|f| - |e| - 1] == '.' && Lower(f[|f| - |e|..]) == e
  {
    e := Lower(AfterLast(f, '.'));
    LastDotEnding(f);
  }

  /** The lower-cased text after the last dot sits at the end of the name, just after that dot. */
  lemma LastDotEnding(f: string)
    requires '.' in f
    ensures var e := Lower(AfterLast(f, '.')); |e| < |f| && f[|f| - |e| - 1] == '.' && Lower(f[|f| - |e|..]) == e
  {
    var ext := AfterLast(f, '.');
    assert f[|f| - |ext|..] == ext;
  }

  /**
   * `allowed_file` accepts exactly the names that end in a dot followed by
   * `csv`, `xlsx` or `xls` written in any case.
   */
  lemma AllowedFileEndsWith(f: string)
    ensures AllowedFile(f) <==>
      exists e :: e in AllowedExtensions && |e| < |f| && f[|f| - |e| - 1] == '.' && Lower(f[|f| - |e|..]) == e
  {
    if AllowedFile(f) {
      var e := AcceptedEnding(f);
    }
    if exists e :: e in AllowedExtensions && |e| < |f| && f[|f| - |e| - 1] == '.' && Lower(f[|f| - |e|..]) == e {
      var e :| e in AllowedExtensions && |e| < |f| && f[|f| - |e| - 1] == '.' && Lower(f[|f| - |e|..]) == e;
      EndingAccepted(f, e);
    }
  }

  /** Lower-casing keeps the dots where they are. */
  lemma LowerKeepsDots(s: string)
    ensures '.' in Lower(s) <==> '.' in s
  {
    if '.' in s {
      var i :| 0 <= i < |s| && s[i] == '.';
      assert Lower(s)[i] == '.';
    }
    if '.' in Lower(s) {
      var i :| 0 <= i < |s| && Lower(s)[i] == '.';
      assert s[i] == '.';
    }
  }

  /** Lower-casing twice is lower-casing once. */
  lemma LowerIdempotent(s: string)
    ensures Lower(Lower(s)) == Lower(s)
  {
  }

  /** `Lower` distributes over concatenation. */
  lemma LowerConcat(a: string, b: string)
    ensures Lower(a + b) == Lower(a) + Lower(b)
  {
    forall i | 0 <= i < |a + b|
      ensures Lower(a + b)[i] == (Lower(a) + Lower(b))[i]
    {
      if i < |a| {
        assert (a + b)[i] == a[i];
      } else {
        assert (a + b)[i] == b[i - |a|];
      }
    }
  }

  lemma LowerAroundDot(a: string, e: string)
    ensures Lower(a + "." + e) == Lower(a) + "." + Lower(e)
  {
    LowerConcat(a + ".", e);
    LowerConcat(a, ".");
    assert Lower(".") == ".";
  }

  lemma IgnoresCaseAroundDot(a: string, e: string)
    requires '.' !in e
    ensures AllowedFile(Lower(a + "." + e)) <==> AllowedFile(a + "." + e)
  {
    LowerAroundDot(a, e);
    LowerKeepsDots(e);
    AllowedFileMeans(Lower(a), Lower(e));
    AllowedFileMeans(a, e);
    LowerIdempotent(e);
  }

  /** A name with a dot is what precedes its last dot, the dot, and what follows. */
  lemma SplitAtLastDot(f: string) returns (a: string, e: string)
    requires '.' in f
    ensures f == a + "." + e && '.' !in e
  {
    e := AfterLast(f, '.');
    a := f[..|f| - |e| - 1];
    assert f == a + [f[|f| - |e| - 1]] + f[|f| - |e|..];
  }

  /** The check ignores case: a name is accepted exactly when its lower-cased form is. */
  lemma AllowedFileIgnoresCase(f: string)
    ensures AllowedFile(Lower(f)) <==> AllowedFile(f)
  {
    LowerKeepsDots(f);
    if '.' in f {
      var a, e := SplitAtLastDot(f);
      IgnoresCaseAroundDot(a, e);
    }
  }

  /** Upload names as the web form receives them. */
  lemma TarballOfCsv()
    ensures AllowedFile("report.tar" + "." + "csv")
  {
    AllowedFileMeans("report.tar", "csv");
    assert Lower("csv") == "csv";
  }

  lemma UpperCaseExtension()
    ensures AllowedFile("DATA" + "." + "XLSX")
  {
    var e := "XLSX";
    AllowedFileMeans("DATA", e);
    var l := Lower(e);
    assert l[0] == 'x' && l[1] == 'l' && l[2] == 's' && l[3] == 'x';
    assert l == "xlsx";
  }

  lemma OnlyLastExtensionCounts()
    ensures !AllowedFile("notes.csv" + "." + "exe")
  {
    AllowedFileMeans("notes.csv", "exe");
    assert Lower("exe") == "exe";
  }

  lemma TrailingDot()
    ensures !AllowedFile("contacts" + "." + "")
  {
    AllowedFileMeans("contacts", "");
  }
}
