/**
 * `WhatsAppLinkGenerator.process_data` on a table that has already been
 * loaded: normalize the message, detect the columns, fail without a phone
 * column, rewrite the name column, then add the link column and the two
 * status columns, in that order, to the same frame.
 */
module Pipeline {
  import opened Wrappers
  import opened Chars
  import opened Cells
  import opened TextNorm
  import opened Columns
  import opened Links
  import opened Frames

  const NoPhoneColumn: string := "Could not identify a phone number column in the data"
  const LinkColumn: string := "WhatsApp Link"
  const SentColumn: string := "WhatsApp Sent"
  const EmailSentColumn: string := "Email Sent"

  /** The columns `process_data` adds or overwrites. */
  predicate IsAdded(name: string)
  {
    name == LinkColumn || name == SentColumn || name == EmailSentColumn
  }

  /** Python truth of a column name that `identify_columns` returned: found, and not "". */
  predicate IsSet(col: Option<string>)
  {
    col.Some? && col.value != ""
  }

  /** The lambda applied down the name column: a missing value stays, anything else becomes normalized text. */
  function NormalizeName(tables: UnicodeTables, x: Cell): Cell
  {
    if x.Null? then x else NormalizeText(tables, Str(Text(x)))
  }

  /**
   * `df[name_col].apply(...)`: row by row, a cell is missing exactly when it
   * was, and a present cell becomes a string with single plain spaces only,
   * trimmed at both ends.
   */
  function NormalizeNames(tables: UnicodeTables, column: seq<Cell>): (r: seq<Cell>)
    ensures |r| == |column| && forall i :: 0 <= i < |r| ==> r[i] == NormalizeName(tables, column[i])
    ensures forall i :: 0 <= i < |r| ==> (r[i].Null? <==> column[i].Null?)
    ensures forall i :: 0 <= i < |r| && !column[i].Null? ==>
      && r[i].Str? && OnlyPlainSpaces(r[i].s)
      && (r[i].s != [] ==> !IsSpace(r[i].s[0]) && !IsSpace(r[i].s[|r[i].s| - 1]))
  {
    NormalizedNamesFacts(tables, column);
    seq(|column|, i requires 0 <= i < |column| => NormalizeName(tables, column[i]))
  }

  lemma NormalizedNamesFacts(tables: UnicodeTables, column: seq<Cell>)
    ensures forall i :: 0 <= i < |column| ==> (NormalizeName(tables, column[i]).Null? <==> column[i].Null?)
    ensures forall i :: 0 <= i < |column| && !column[i].Null? ==>
      var y := NormalizeName(tables, column[i]);
      && y.Str? && OnlyPlainSpaces(y.s)
      && (y.s != [] ==> !IsSpace(y.s[0]) && !IsSpace(y.s[|y.s| - 1]))
  {
    forall i | 0 <= i < |column| {
      NormalizeNameMeans(tables, column[i]);
    }
  }

  /** The list of links as the cells of the new column. */
  function LinkCells(column: seq<Cell>, message: string): (r: seq<Cell>)
    ensures |r| == |column| && forall i :: 0 <= i < |r| ==> r[i] == Str(LinkFor(column[i], message))
  {
    seq(|column|, i requires 0 <= i < |column| => Str(LinkFor(column[i], message)))
  }

  /** What `identify_columns` returns for a loaded table. */
  function Detect(t: Table, pats: ValuePatterns): Detection
    requires WellFormed(t)
  {
    Named(t.columns, DetectPositions(t.columns, t.cells, pats))
  }

  /** The exception, or the three detected column names. */
  function Outcome(t: Table, pats: ValuePatterns): Result<Detection, string>
    requires WellFormed(t)
  {
    var det := Detect(t, pats);
    if det.phone.None? then Failure(NoPhoneColumn) else Success(det)
  }

  /** The table after line 172-173: the name column rewritten when a name column was found. */
  function WithNames(tables: UnicodeTables, t: Table, name: Option<string>): (r: Table)
    requires WellFormed(t)
    ensures WellFormed(r) && r.columns == t.columns && r.height == t.height
  {
    if IsSet(name) && name.value in t.columns then
      var column := Column(t, name.value).value;
      ColumnHeight(t, name.value);
      WithColumnMeans(t, name.value, NormalizeNames(tables, column), name.value);
      WithColumn(t, name.value, NormalizeNames(tables, column))
    else t
  }

  /** Lines 176-178: the link column, from the phone column as it stands after the name rewrite. */
  function WithLinks(t: Table, phone: string, message: string): (r: Table)
    requires WellFormed(t) && phone in t.columns
    ensures WellFormed(r) && r.height == t.height
  {
    ColumnHeight(t, phone);
    var links := LinkCells(Column(t, phone).value, message);
    WithColumnMeans(t, LinkColumn, links, LinkColumn);
    WithColumn(t, LinkColumn, links)
  }

  /** Lines 179-180: the two status columns. */
  function WithStatus(t: Table, email: Option<string>): (r: Table)
    requires WellFormed(t)
    ensures WellFormed(r) && r.height == t.height
  {
    var sent := Fill(t.height, Str("No"));
    WithColumnMeans(t, SentColumn, sent, SentColumn);
    var marked := WithColumn(t, SentColumn, sent);
    var status := Fill(t.height, Str(if IsSet(email) then "No" else "N/A"));
    WithColumnMeans(marked, EmailSentColumn, status, EmailSentColumn);
    WithColumn(marked, EmailSentColumn, status)
  }

  /** The frame `process_data` returns, for a detection whose phone column is one of the table's. */
  function Processed(tables: UnicodeTables, t: Table, det: Detection, message: string): (r: Table)
    requires WellFormed(t) && det.phone.Some? && det.phone.value in t.columns
    ensures WellFormed(r) && r.height == t.height
  {
    WithStatus(WithLinks(WithNames(tables, t, det.name), det.phone.value, NormalizeString(tables, message)), det.email)
  }

  /** A column that is present has the table's height. */
  lemma ColumnHeight(t: Table, name: string)
    requires WellFormed(t)
    ensures (Column(t, name).Some? <==> name in t.columns)
    ensures Column(t, name).Some? ==> |Column(t, name).value| == t.height
  {
  }

  /** Every column name `identify_columns` returns is one of the table's. */
  lemma DetectFindsColumns(t: Table, pats: ValuePatterns)
    requires WellFormed(t)
    ensures var det := Detect(t, pats);
      && (det.phone.Some? ==> det.phone.value in t.columns)
      && (det.email.Some? ==> det.email.value in t.columns)
      && (det.name.Some? ==> det.name.value in t.columns)
  {
  }

  /**
   * The exception is raised exactly when no column is named like a phone
   * column and no column has a phone-like value among its first five.
   */
  lemma FailsWithoutPhone(t: Table, pats: ValuePatterns)
    requires WellFormed(t)
    ensures Outcome(t, pats).Failure? <==>
      forall j :: 0 <= j < |t.columns| ==> !Suggests(t.columns[j], Phone) && !AnySample(t.cells[j], pats.phoneLike)
    ensures Outcome(t, pats).Failure? ==> Outcome(t, pats).error == NoPhoneColumn
  {
  }

  /** A rewritten name is present exactly when it was, and is then text with single plain spaces, trimmed. */
  lemma NormalizeNameMeans(tables: UnicodeTables, x: Cell)
    ensures NormalizeName(tables, x).Null? <==> x.Null?
    ensures !x.Null? ==> var y := NormalizeName(tables, x);
      && y.Str? && OnlyPlainSpaces(y.s)
      && (y.s != [] ==> !IsSpace(y.s[0]) && !IsSpace(y.s[|y.s| - 1]))
  {
    if !x.Null? {
      var s := NormalizeString(tables, Text(x));
      assert NormalizeName(tables, x) == Str(s);
      NormalizeStringSpaces(tables, Text(x));
    }
  }

  /** `cols` with `name` added last unless it is already there. */
  function Appended(cols: seq<string>, name: string): (r: seq<string>)
    ensures |cols| <= |r| && r[..|cols|] == cols
    ensures forall n :: n in r <==> n in cols || n == name
  {
    if name in cols then cols else cols + [name]
  }

  /** The two status columns hold "No", and "No" or "N/A" by whether an e-mail column was found. */
  lemma StatusColumns(t: Table, email: Option<string>)
    requires WellFormed(t)
    ensures var r := WithStatus(t, email);
      && Column(r, SentColumn) == Some(Fill(t.height, Str("No")))
      && Column(r, EmailSentColumn) == Some(Fill(t.height, Str(if IsSet(email) then "No" else "N/A")))
  {
    var sent := Fill(t.height, Str("No"));
    WithColumnMeans(t, SentColumn, sent, SentColumn);
    var marked := WithColumn(t, SentColumn, sent);
    var status := Fill(t.height, Str(if IsSet(email) then "No" else "N/A"));
    WithColumnMeans(marked, EmailSentColumn, status, SentColumn);
  }

  /** The status columns leave every other column as it was, and add themselves last if new. */
  lemma StatusKeeps(t: Table, email: Option<string>, c: string)
    requires WellFormed(t) && c != SentColumn && c != EmailSentColumn
    ensures Column(WithStatus(t, email), c) == Column(t, c)
    ensures WithStatus(t, email).columns == Appended(Appended(t.columns, SentColumn), EmailSentColumn)
  {
    var sent := Fill(t.height, Str("No"));
    WithColumnMeans(t, SentColumn, sent, c);
    var marked := WithColumn(t, SentColumn, sent);
    var status := Fill(t.height, Str(if IsSet(email) then "No" else "N/A"));
    WithColumnMeans(marked, EmailSentColumn, status, c);
  }

  /** The link column leaves every other column as it was, and adds itself last if new. */
  lemma LinksKeep(t: Table, phone: string, message: string, c: string)
    requires WellFormed(t) && phone in t.columns && c != LinkColumn
    ensures Column(WithLinks(t, phone, message), c) == Column(t, c)
    ensures WithLinks(t, phone, message).columns == Appended(t.columns, LinkColumn)
  {
    ColumnHeight(t, phone);
    WithColumnMeans(t, LinkColumn, LinkCells(Column(t, phone).value, message), c);
  }

  /** The frame keeps its columns in order, followed by those of the added ones it did not have. */
  lemma ProcessedColumns(tables: UnicodeTables, t: Table, det: Detection, message: string)
    requires WellFormed(t) && det.phone.Some? && det.phone.value in t.columns
    ensures Processed(tables, t, det, message).columns
      == Appended(Appended(Appended(t.columns, LinkColumn), SentColumn), EmailSentColumn)
  {
    var named := WithNames(tables, t, det.name);
    var msg := NormalizeString(tables, message);
    var linked := WithLinks(named, det.phone.value, msg);
    LinksKeep(named, det.phone.value, msg, SentColumn);
    StatusKeeps(linked, det.email, LinkColumn);
  }

  /** Every column that `process_data` neither rewrote nor added keeps its cells. */
  lemma ProcessedKeeps(tables: UnicodeTables, t: Table, det: Detection, message: string, c: string)
    requires WellFormed(t) && det.phone.Some? && det.phone.value in t.columns
    requires !IsAdded(c) && !(IsSet(det.name) && c == det.name.value)
    ensures Column(Processed(tables, t, det, message), c) == Column(t, c)
  {
    var named := WithNames(tables, t, det.name);
    var msg := NormalizeString(tables, message);
    var linked := WithLinks(named, det.phone.value, msg);
    if IsSet(det.name) && det.name.value in t.columns {
      ColumnHeight(t, det.name.value);
      WithColumnMeans(t, det.name.value, NormalizeNames(tables, Column(t, det.name.value).value), c);
    }
    assert Column(named, c) == Column(t, c);
    LinksKeep(named, det.phone.value, msg, c);
    StatusKeeps(linked, det.email, c);
  }

  /**
   * The found name column (unless it is one of the added ones) holds each
   * name rewritten, and the status columns their defaults.
   */
  lemma ProcessedNamesAndStatus(tables: UnicodeTables, t: Table, det: Detection, message: string)
    requires WellFormed(t) && det.phone.Some? && det.phone.value in t.columns
    ensures var r := Processed(tables, t, det, message);
      && Column(r, SentColumn) == Some(Fill(t.height, Str("No")))
      && Column(r, EmailSentColumn) == Some(Fill(t.height, Str(if IsSet(det.email) then "No" else "N/A")))
      && (IsSet(det.name) && det.name.value in t.columns && !IsAdded(det.name.value) ==>
            Column(r, det.name.value) == Some(NormalizeNames(tables, Column(t, det.name.value).value)))
  {
    var named := WithNames(tables, t, det.name);
    var msg := NormalizeString(tables, message);
    var linked := WithLinks(named, det.phone.value, msg);
    StatusColumns(linked, det.email);
    if IsSet(det.name) && det.name.value in t.columns && !IsAdded(det.name.value) {
      var name := det.name.value;
      ColumnHeight(t, name);
      WithColumnMeans(t, name, NormalizeNames(tables, Column(t, name).value), name);
      LinksKeep(named, det.phone.value, msg, name);
      StatusKeeps(linked, det.email, name);
    }
  }

  /**
   * Row by row, the link column holds "" where the phone cell (after the name
   * rewrite, which touches it only when the phone column is the name column)
   * is falsy, and otherwise a link that reads back as the normalized phone
   * and the normalized message.
   */
  lemma ProcessedLinks(tables: UnicodeTables, t: Table, det: Detection, message: string, i: nat)
    requires WellFormed(t) && det.phone.Some? && det.phone.value in t.columns && i < t.height
    ensures var r := Processed(tables, t, det, message);
      var phoneCells := Column(WithNames(tables, t, det.name), det.phone.value).value;
      && |phoneCells| == t.height
      && (!IsSet(det.name) || det.name.value != det.phone.value ==> phoneCells == Column(t, det.phone.value).value)
      && Column(r, LinkColumn).Some? && |Column(r, LinkColumn).value| == t.height
      && var link := Column(r, LinkColumn).value[i];
      && link.Str?
      && (link.s == "" <==> !Truthy(phoneCells[i]))
      && (Truthy(phoneCells[i]) ==>
            ParseLink(link.s) == Some(Link(Phone.NormalizePhoneText(Text(phoneCells[i])), NormalizeString(tables, message))))
  {
    var named := WithNames(tables, t, det.name);
    var msg := NormalizeString(tables, message);
    var phone := det.phone.value;
    ColumnHeight(t, phone);
    ColumnHeight(named, phone);
    if IsSet(det.name) && det.name.value in t.columns {
      ColumnHeight(t, det.name.value);
      WithColumnMeans(t, det.name.value, NormalizeNames(tables, Column(t, det.name.value).value), phone);
    }
    var phoneCells := Column(named, phone).value;
    var links := LinkCells(phoneCells, msg);
    WithColumnMeans(named, LinkColumn, links, LinkColumn);
    var linked := WithLinks(named, phone, msg);
    StatusKeeps(linked, det.email, LinkColumn);
    LinkForMeans(phoneCells[i], msg);
  }

  /** Lines 172-173 on the frame. */
  method RewriteNames(tables: UnicodeTables, df: Frame, name: Option<string>)
    requires df.Valid() && (name.Some? ==> name.value in df.columns)
    modifies df
    ensures df.Valid() && df.Value() == WithNames(tables, old(df.Value()), name)
  {
    if IsSet(name) {
      ColumnHeight(df.Value(), name.value);
      var column := Column(df.Value(), name.value).value;
      df.Assign(name.value, NormalizeNames(tables, column));
    }
  }

  /** Lines 176-178 on the frame. */
  method AddLinks(df: Frame, phone: string, message: string)
    requires df.Valid() && phone in df.columns
    modifies df
    ensures df.Valid() && df.Value() == WithLinks(old(df.Value()), phone, message)
  {
    ColumnHeight(df.Value(), phone);
    var column := Column(df.Value(), phone).value;
    var links := GenerateWhatsAppLinks(column, message);
    var cells := seq(|links|, i requires 0 <= i < |links| => Str(links[i]));
    assert cells == LinkCells(column, message);
    df.Assign(LinkColumn, cells);
  }

  /** Lines 179-180 on the frame. */
  method AddStatus(df: Frame, email: Option<string>)
    requires df.Valid()
    modifies df
    ensures df.Valid() && df.Value() == WithStatus(old(df.Value()), email)
  {
    df.Assign(SentColumn, Fill(df.height, Str("No")));
    df.Assign(EmailSentColumn, Fill(df.height, Str(if IsSet(email) then "No" else "N/A")));
  }

  /** Lines 160-183, from line 166 on: the frame is updated in place. */
  method ProcessData(tables: UnicodeTables, pats: ValuePatterns, df: Frame, message: string)
    returns (r: Result<Detection, string>)
    requires df.Valid()
    modifies df
    ensures df.Valid()
    ensures r == Outcome(old(df.Value()), pats)
    ensures r.Failure? ==> df.Value() == old(df.Value())
    ensures r.Success? ==> r.value.phone.Some? && r.value.phone.value in old(df.Value()).columns
    ensures r.Success? ==> df.Value() == Processed(tables, old(df.Value()), r.value, message)
  {
    var normalizedMessage := NormalizeString(tables, message);
    var det := IdentifyColumns(df.columns, df.cells, pats);
    if det.phone.None? {
      return Failure(NoPhoneColumn);
    }
    DetectFindsColumns(df.Value(), pats);
    RewriteNames(tables, df, det.name);
    AddLinks(df, det.phone.value, normalizedMessage);
    AddStatus(df, det.email);
    r := Success(det);
  }
}
