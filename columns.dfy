/**
 * `WhatsAppLinkGenerator.identify_columns`: a name pass that gives each
 * column at most one role (phone before email before name, first match
 * wins, a role once set is kept), then, while phone or email is still
 * missing, a content pass over the first five non-null values of every
 * column. The content patterns are supplied by the caller as predicates.
 */
module Columns {
  import opened Wrappers
  import opened Chars
  import opened Cells
  import opened Vocabulary

  datatype Role = Phone | Email | Name

  /** `re.search(r'(\+?\d{1,3}[-.\s]?)?...', v)` and the e-mail pattern, left uninterpreted. */
  datatype ValuePatterns = ValuePatterns(phoneLike: string -> bool, emailLike: string -> bool)

  /** The three column names `identify_columns` returns. */
  datatype Detection = Detection(phone: Option<string>, email: Option<string>, name: Option<string>)

  /** The same, as positions in the column list. */
  datatype Positions = Positions(phone: Option<nat>, email: Option<nat>, name: Option<nat>)

  /** The lower-cased column name matches the role's vocabulary. */
  predicate Suggests(col: string, role: Role)
  {
    var l := Lower(col);
    match role
    case Phone => PhoneVocabulary(l)
    case Email => EmailVocabulary(l)
    case Name => NameVocabulary(l)
  }

  function Taken(p: Option<nat>): set<nat>
  {
    if p.Some? then {p.value} else {}
  }

  /** The leftmost column from `from` on whose name suggests `role` and that is not in `taken`. */
  function FirstSuggesting(cols: seq<string>, role: Role, taken: set<nat>, from: nat): (r: Option<nat>)
    requires from <= |cols|
    decreases |cols| - from
    ensures r.Some? ==> from <= r.value < |cols| && Suggests(cols[r.value], role) && r.value !in taken
    ensures r.Some? ==> forall j :: from <= j < r.value ==> !Suggests(cols[j], role) || j in taken
    ensures r.None? ==> forall j :: from <= j < |cols| ==> !Suggests(cols[j], role) || j in taken
  {
    if from == |cols| then None
    else if Suggests(cols[from], role) && from !in taken then Some(from)
    else FirstSuggesting(cols, role, taken, from + 1)
  }

  /** A column that suggests the role, before which no free column did, is the one found. */
  lemma FirstSuggestingAt(cols: seq<string>, role: Role, taken: set<nat>, k: nat)
    requires k < |cols| && Suggests(cols[k], role) && k !in taken
    requires var r := FirstSuggesting(cols, role, taken, 0); r.None? || r.value >= k
    ensures FirstSuggesting(cols, role, taken, 0) == Some(k)
  {
  }

  /** What the name pass settles: every column goes to the first role still free whose vocabulary it matches. */
  function NamePass(cols: seq<string>): (p: Positions)
    ensures p.phone.Some? && p.email.Some? ==> p.phone != p.email
    ensures p.name.Some? ==> p.name != p.phone && p.name != p.email
  {
    var phone := FirstSuggesting(cols, Phone, {}, 0);
    var email := FirstSuggesting(cols, Email, Taken(phone), 0);
    var name := FirstSuggesting(cols, Name, Taken(phone) + Taken(email), 0);
    Positions(phone, email, name)
  }

  /** The non-null cells of a column, in order (`dropna()`). */
  function NonNull(column: seq<Cell>): (r: seq<Cell>)
    ensures |r| <= |column|
    ensures forall i :: 0 <= i < |r| ==> !r[i].Null?
    ensures (forall i :: 0 <= i < |column| ==> !column[i].Null?) ==> r == column
  {
    if column == [] then []
    else if column[0].Null? then NonNull(column[1..])
    else [column[0]] + NonNull(column[1..])
  }

  /** `df[col].dropna().head(5).astype(str)`. */
  function Samples(column: seq<Cell>): (r: seq<string>)
    ensures |r| == if |NonNull(column)| <= 5 then |NonNull(column)| else 5
    ensures forall i :: 0 <= i < |r| ==> r[i] == Text(NonNull(column)[i])
  {
    var present := NonNull(column);
    var head := if |present| <= 5 then present else present[..5];
    seq(|head|, i requires 0 <= i < |head| => Text(head[i]))
  }

  /** `any(pattern.search(val) for val in sample_values)`. */
  predicate AnySample(column: seq<Cell>, like: string -> bool)
  {
    exists i :: 0 <= i < |Samples(column)| && like(Samples(column)[i])
  }

  /** `dropna()` keeps exactly the cells of the column that are not null. */
  lemma {:induction false} NonNullKeeps(column: seq<Cell>)
    ensures forall c :: c in NonNull(column) <==> c in column && !c.Null?
  {
    if column != [] {
      NonNullKeeps(column[1..]);
      assert forall c :: c in column <==> c == column[0] || c in column[1..];
    }
  }

  /** `dropna()` of two stretches of a column is the two results one after the other. */
  lemma {:induction false} NonNullConcat(a: seq<Cell>, b: seq<Cell>)
    ensures NonNull(a + b) == NonNull(a) + NonNull(b)
    decreases |a|
  {
    if a == [] {
      assert a + b == b;
    } else {
      assert (a + b)[0] == a[0] && (a + b)[1..] == a[1..] + b;
      NonNullConcat(a[1..], b);
    }
  }

  /** The `p`-th non-null cell is a cell of the column with exactly `p` non-null cells before it. */
  lemma {:induction false} NonNullIndex(column: seq<Cell>, p: nat) returns (i: nat)
    requires p < |NonNull(column)|
    ensures i < |column| && !column[i].Null? && NonNull(column)[p] == column[i]
    ensures |NonNull(column[..i])| == p
    decreases |column|
  {
    if !column[0].Null? && p == 0 {
      return 0;
    }
    var rest := column[1..];
    var q := if column[0].Null? then p else p - 1;
    var j := NonNullIndex(rest, q);
    i := j + 1;
    NonNullSkip(column, q, j);
  }

  /** One step of `NonNullIndex`: the first cell of the column shifts both counts by the same amount. */
  lemma NonNullSkip(column: seq<Cell>, q: nat, j: nat)
    requires column != [] && j < |column| - 1
    requires q < |NonNull(column[1..])| && NonNull(column[1..])[q] == column[j + 1]
    requires |NonNull(column[1..][..j])| == q
    ensures var p := if column[0].Null? then q else q + 1;
      p < |NonNull(column)| && NonNull(column)[p] == column[j + 1] && |NonNull(column[..j + 1])| == p
  {
    var before := column[..j + 1];
    assert before[0] == column[0] && before[1..] == column[1..][..j];
  }

  /** A non-null cell is a sample exactly when fewer than five non-null cells precede it. */
  lemma NonNullCellSample(column: seq<Cell>, i: nat)
    requires i < |column| && !column[i].Null? && |NonNull(column[..i])| < 5
    ensures var p := |NonNull(column[..i])|; p < |Samples(column)| && Samples(column)[p] == Text(column[i])
  {
    assert column == column[..i] + ([column[i]] + column[i + 1..]);
    NonNullConcat(column[..i], [column[i]] + column[i + 1..]);
    NonNullConcat([column[i]], column[i + 1..]);
    assert NonNull([column[i]]) == [column[i]] by {
      assert [column[i]][1..] == [];
    }
  }

  /**
   * Some sample fits exactly when some non-null cell with fewer than five
   * non-null cells above it fits: the content pass looks at the first five
   * present values of the column and at nothing else.
   */
  lemma AnySampleMeans(column: seq<Cell>, like: string -> bool)
    ensures AnySample(column, like) <==>
      exists i :: 0 <= i < |column| && !column[i].Null? && |NonNull(column[..i])| < 5 && like(Text(column[i]))
  {
    if AnySample(column, like) {
      var p :| 0 <= p < |Samples(column)| && like(Samples(column)[p]);
      var i := NonNullIndex(column, p);
      assert like(Text(column[i]));
    }
    if exists i :: 0 <= i < |column| && !column[i].Null? && |NonNull(column[..i])| < 5 && like(Text(column[i])) {
      var i :| 0 <= i < |column| && !column[i].Null? && |NonNull(column[..i])| < 5 && like(Text(column[i]));
      NonNullCellSample(column, i);
    }
  }

  /** The leftmost column from `from` on with a sample that `like` accepts. */
  function FirstSampled(data: seq<seq<Cell>>, like: string -> bool, from: nat): (r: Option<nat>)
    requires from <= |data|
    decreases |data| - from
    ensures r.Some? ==> from <= r.value < |data| && AnySample(data[r.value], like)
    ensures r.Some? ==> forall j :: from <= j < r.value ==> !AnySample(data[j], like)
    ensures r.None? ==> forall j :: from <= j < |data| ==> !AnySample(data[j], like)
  {
    if from == |data| then None
    else if AnySample(data[from], like) then Some(from)
    else FirstSampled(data, like, from + 1)
  }

  /** A column with a fitting sample, before which none had one, is the one found. */
  lemma FirstSampledAt(data: seq<seq<Cell>>, like: string -> bool, k: nat)
    requires k < |data| && AnySample(data[k], like)
    requires var r := FirstSampled(data, like, 0); r.None? || r.value >= k
    ensures FirstSampled(data, like, 0) == Some(k)
  {
    var r := FirstSampled(data, like, 0);
    assert forall j :: 0 <= j < k ==> !AnySample(data[j], like);
    FirstSampledFrom(data, like, 0, k);
  }

  lemma {:induction false} FirstSampledFrom(data: seq<seq<Cell>>, like: string -> bool, from: nat, k: nat)
    requires from <= k < |data| && AnySample(data[k], like)
    requires forall j :: from <= j < k ==> !AnySample(data[j], like)
    ensures FirstSampled(data, like, from) == Some(k)
    decreases k - from
  {
    if from < k {
      FirstSampledFrom(data, like, from + 1, k);
    }
  }

  /** Both passes: a role left open by the names goes to the first column whose samples fit. */
  function DetectPositions(cols: seq<string>, data: seq<seq<Cell>>, pats: ValuePatterns): Positions
    requires |data| == |cols|
  {
    var byName := NamePass(cols);
    Positions(
      if byName.phone.Some? then byName.phone else FirstSampled(data, pats.phoneLike, 0),
      if byName.email.Some? then byName.email else FirstSampled(data, pats.emailLike, 0),
      byName.name)
  }

  function NameAt(cols: seq<string>, p: Option<nat>): Option<string>
  {
    if p.Some? && p.value < |cols| then Some(cols[p.value]) else None
  }

  function Named(cols: seq<string>, p: Positions): Detection
  {
    Detection(NameAt(cols, p.phone), NameAt(cols, p.email), NameAt(cols, p.name))
  }

  /** `NameAt` restricted to the columns before position `k`. */
  function SeenBy(cols: seq<string>, p: Option<nat>, k: nat): Option<string>
  {
    if p.Some? && p.value < k && p.value < |cols| then Some(cols[p.value]) else None
  }

  /** The first loop of `identify_columns` (lines 75-83): the name pass. */
  method ScanNames(cols: seq<string>) returns (phone: Option<string>, email: Option<string>, name: Option<string>)
    ensures phone == NameAt(cols, NamePass(cols).phone)
    ensures email == NameAt(cols, NamePass(cols).email)
    ensures name == NameAt(cols, NamePass(cols).name)
  {
    ghost var byName := NamePass(cols);
    phone, email, name := None, None, None;
    var k := 0;
    while k < |cols|
      invariant 0 <= k <= |cols|
      invariant phone == SeenBy(cols, byName.phone, k)
      invariant email == SeenBy(cols, byName.email, k)
      invariant name == SeenBy(cols, byName.name, k)
    {
      var colLower := Lower(cols[k]);
      var isPhone, isEmail, isName := PhoneVocabulary(colLower), EmailVocabulary(colLower), NameVocabulary(colLower);
      if phone.None? && isPhone {
        FirstSuggestingAt(cols, Phone, {}, k);
        phone := Some(cols[k]);
      } else if email.None? && isEmail {
        FirstSuggestingAt(cols, Email, Taken(byName.phone), k);
        email := Some(cols[k]);
      } else if name.None? && isName {
        FirstSuggestingAt(cols, Name, Taken(byName.phone) + Taken(byName.email), k);
        name := Some(cols[k]);
      }
      k := k + 1;
    }
  }

  /**
   * The second loop of `identify_columns` (lines 87-96): each role still
   * `None` goes to the first column with a fitting sample; a role already
   * set, by the names or by an earlier column, stays. Columns that already
   * hold a role are not skipped.
   */
  method ScanSamples(cols: seq<string>, data: seq<seq<Cell>>, pats: ValuePatterns, phone0: Option<string>, email0: Option<string>)
    returns (phone: Option<string>, email: Option<string>)
    requires |data| == |cols|
    ensures phone == if phone0.Some? then phone0 else NameAt(cols, FirstSampled(data, pats.phoneLike, 0))
    ensures email == if email0.Some? then email0 else NameAt(cols, FirstSampled(data, pats.emailLike, 0))
  {
    ghost var byPhoneSample := FirstSampled(data, pats.phoneLike, 0);
    ghost var byEmailSample := FirstSampled(data, pats.emailLike, 0);
    phone, email := phone0, email0;
    var k := 0;
    while k < |cols|
      invariant 0 <= k <= |cols|
      invariant phone == if phone0.Some? then phone0 else SeenBy(cols, byPhoneSample, k)
      invariant email == if email0.Some? then email0 else SeenBy(cols, byEmailSample, k)
    {
      if phone.None? && AnySample(data[k], pats.phoneLike) {
        FirstSampledAt(data, pats.phoneLike, k);
        phone := Some(cols[k]);
      }
      if email.None? && AnySample(data[k], pats.emailLike) {
        FirstSampledAt(data, pats.emailLike, k);
        email := Some(cols[k]);
      }
      k := k + 1;
    }
  }

  /**
   * `identify_columns(df)` on the column names and, column by column, the
   * cells of a loaded table.
   */
  method IdentifyColumns(cols: seq<string>, data: seq<seq<Cell>>, pats: ValuePatterns)
    returns (det: Detection)
    requires |data| == |cols|
    ensures det == Named(cols, DetectPositions(cols, data, pats))
  {
    var phone, email, name := ScanNames(cols);
    if phone.None? || email.None? {
      phone, email := ScanSamples(cols, data, pats, phone, email);
    }
    det := Detection(phone, email, name);
  }

  /**
   * A column named with a phone token wins the phone role, and it is the
   * leftmost such column; the content pass never overrides it.
   */
  lemma PhoneByNameWins(cols: seq<string>, data: seq<seq<Cell>>, pats: ValuePatterns, i: nat)
    requires |data| == |cols| && i < |cols| && Suggests(cols[i], Phone)
    requires forall j :: 0 <= j < i ==> !Suggests(cols[j], Phone)
    ensures DetectPositions(cols, data, pats).phone == Some(i)
  {
    FirstSuggestingAt(cols, Phone, {}, i);
  }

  /** Without a phone-named column, the phone role goes to the leftmost column with a phone-like sample, or to none. */
  lemma PhoneBySamples(cols: seq<string>, data: seq<seq<Cell>>, pats: ValuePatterns)
    requires |data| == |cols|
    requires forall j :: 0 <= j < |cols| ==> !Suggests(cols[j], Phone)
    ensures var p := DetectPositions(cols, data, pats).phone;
      && (p.Some? ==> p.value < |cols| && AnySample(data[p.value], pats.phoneLike)
                      && forall j :: 0 <= j < p.value ==> !AnySample(data[j], pats.phoneLike))
      && (p.None? ==> forall j :: 0 <= j < |cols| ==> !AnySample(data[j], pats.phoneLike))
  {
    assert NamePass(cols).phone == None;
  }

  /**
   * The name role comes from the names alone: its column's name matches the
   * name vocabulary, the column took neither of the other roles in the name
   * pass, and every earlier column that matched the name vocabulary took one.
   */
  lemma NameOnlyByName(cols: seq<string>, data: seq<seq<Cell>>, pats: ValuePatterns)
    requires |data| == |cols|
    ensures var byName, p := NamePass(cols), DetectPositions(cols, data, pats);
      && p.name == byName.name
      && (p.name.Some? ==>
          && p.name.value < |cols| && Suggests(cols[p.name.value], Name)
          && p.name != byName.phone && p.name != byName.email
          && forall j :: 0 <= j < p.name.value && Suggests(cols[j], Name) ==> Some(j) == byName.phone || Some(j) == byName.email)
  {
  }

  /**
   * A leading column called "Contact" (in any case) becomes the phone column
   * and never the name column, although "contact" is in both vocabularies.
   */
  lemma LeadingContactIsPhone(cols: seq<string>, data: seq<seq<Cell>>, pats: ValuePatterns)
    requires |data| == |cols| && |cols| > 0 && Lower(cols[0]) == "contact"
    ensures DetectPositions(cols, data, pats).phone == Some(0)
    ensures DetectPositions(cols, data, pats).name != Some(0)
  {
    ContactInBoth();
    PhoneByNameWins(cols, data, pats, 0);
  }

  /** A column holding one string samples exactly that string. */
  lemma LoneValueSample(v: string, like: string -> bool)
    ensures AnySample([Str(v)], like) <==> like(v)
  {
    assert [Str(v)][1..] == [];
    assert NonNull([Str(v)]) == [Str(v)];
    assert Samples([Str(v)])[0] == v;
  }

  /**
   * The content pass does not skip columns that already hold a role: a lone
   * column called "Contact" (in any case) holding an e-mail-shaped value is
   * both the phone and the e-mail column.
   */
  lemma OneColumnTwoRoles(col: string, v: string, pats: ValuePatterns)
    requires Lower(col) == "contact" && pats.emailLike(v)
    ensures Named([col], DetectPositions([col], [[Str(v)]], pats)) == Detection(Some(col), Some(col), None)
  {
    var cols, data := [col], [[Str(v)]];
    LeadingContactIsPhone(cols, data, pats);
    LoneValueSample(v, pats.emailLike);
    FirstSampledAt(data, pats.emailLike, 0);
    assert NamePass(cols).email == None;
    assert NamePass(cols).name == None;
  }

  /** The name pass over a sheet headed Name, Mobile No, E-mail, SMS (in any case), one role at a time. */
  lemma ContactSheetPhone(cols: seq<string>)
    requires |cols| == 4 && Lower(cols[0]) == "name" && Lower(cols[1]) == "mobile no"
    ensures FirstSuggesting(cols, Phone, {}, 0) == Some(1)
  {
    NameHeader();
    MobileHeader();
    FirstSuggestingAt(cols, Phone, {}, 1);
  }

  lemma ContactSheetEmail(cols: seq<string>)
    requires |cols| == 4 && Lower(cols[0]) == "name" && Lower(cols[2]) == "e-mail"
    ensures FirstSuggesting(cols, Email, {1}, 0) == Some(2)
  {
    NameHeader();
    EmailHeader();
    FirstSuggestingAt(cols, Email, {1}, 2);
  }

  lemma ContactSheetName(cols: seq<string>)
    requires |cols| == 4 && Lower(cols[0]) == "name"
    ensures FirstSuggesting(cols, Name, {1, 2}, 0) == Some(0)
  {
    NameHeader();
  }

  /**
   * On that sheet every role is settled by the headers alone, whatever the
   * values and whatever the fourth column is called.
   */
  lemma ContactSheetExample(cols: seq<string>, data: seq<seq<Cell>>, pats: ValuePatterns)
    requires |cols| == 4 && |data| == 4
    requires Lower(cols[0]) == "name" && Lower(cols[1]) == "mobile no"
    requires Lower(cols[2]) == "e-mail"
    ensures Named(cols, DetectPositions(cols, data, pats)) == Detection(Some(cols[1]), Some(cols[2]), Some(cols[0]))
  {
    ContactSheetPhone(cols);
    ContactSheetEmail(cols);
    ContactSheetName(cols);
    assert Taken(Some(1)) + Taken(Some(2)) == {1, 2};
  }
}
