/**
 * `WhatsAppLinkGenerator.generate_whatsapp_links`: one click-to-chat link
 * per row, `https://wa.me/<normalized phone>?text=<percent-encoded message>`,
 * or "" for a row whose phone cell is missing or falsy. `ParseLink` is the
 * reader that every built link is proved to read back through.
 */
module Links {
  import opened Wrappers
  import opened Chars
  import opened Cells
  import opened Phone
  import opened Percent

  const WaPrefix: string := "https://wa.me/"

  /** The recipient and the message a click-to-chat link carries. */
  datatype Link = Link(phone: string, text: string)

  /** The query of a link: a single `text=` parameter whose value must percent-decode. */
  function ParseQuery(phone: string, query: string): Option<Link>
  {
    if !("text=" <= query) then None
    else
      match Unquote(query[5..])
      case None => None
      case Some(m) => Some(Link(phone, m))
  }

  /** What follows the prefix: the recipient up to the last `?`, then the query. */
  function ParseRest(rest: string): Option<Link>
  {
    match LastIndex(rest, '?')
    case None => None
    case Some(k) => ParseQuery(rest[..k], rest[k + 1..])
  }

  /** Reads a link: the prefix, then the recipient and the query. */
  function ParseLink(link: string): Option<Link>
  {
    if !(WaPrefix <= link) then None else ParseRest(link[|WaPrefix|..])
  }

  /** The link for one phone cell (lines 144-153); the message is already normalized. */
  function LinkFor(cell: Cell, message: string): string
  {
    if Truthy(cell) then WaPrefix + NormalizePhoneText(Text(cell)) + "?text=" + Quote(message)
    else ""
  }

  /** A recipient and a `?`-free query are read back from between the last `?`. */
  lemma ParseRestOf(phone: string, query: string)
    requires '?' !in query
    ensures ParseRest(phone + "?" + query) == ParseQuery(phone, query)
  {
    var rest := phone + "?" + query;
    LastIndexAt(phone, '?', query);
    assert rest[|phone| + 1..] == query;
    assert rest[..|phone|] == phone;
  }

  /** The parameter of a link whose value has no `?` is read from that value, whatever the recipient holds. */
  lemma ParseLinkOf(phone: string, enc: string)
    requires '?' !in enc
    ensures var m := Unquote(enc);
      ParseLink(WaPrefix + phone + "?text=" + enc) == if m.Some? then Some(Link(phone, m.value)) else None
  {
    var query := "text=" + enc;
    var rest := phone + "?" + query;
    assert WaPrefix + phone + "?text=" + enc == WaPrefix + rest;
    assert (WaPrefix + rest)[|WaPrefix|..] == rest;
    assert '?' !in query;
    ParseRestOf(phone, query);
    assert query[5..] == enc;
  }

  /** A link built from a recipient and a message reads back as that pair. */
  lemma ParseBuiltLink(phone: string, message: string)
    ensures ParseLink(WaPrefix + phone + "?text=" + Quote(message)) == Some(Link(phone, message))
  {
    ParseLinkOf(phone, Quote(message));
    UnquoteQuote(message);
  }

  /**
   * A row gets a link exactly when its phone cell is truthy, and the link then
   * carries the normalized phone and the message unchanged.
   */
  lemma LinkForMeans(cell: Cell, message: string)
    ensures LinkFor(cell, message) == "" <==> !Truthy(cell)
    ensures Truthy(cell) ==> ParseLink(LinkFor(cell, message)) == Some(Link(NormalizePhoneText(Text(cell)), message))
  {
    if Truthy(cell) {
      ParseBuiltLink(NormalizePhoneText(Text(cell)), message);
    }
  }

  /** `f` applied to every cell of a column, row by row, as a loop appending to a list builds it. */
  function MapCells(f: Cell -> string, column: seq<Cell>): seq<string>
  {
    if column == [] then [] else MapCells(f, column[..|column| - 1]) + [f(column[|column| - 1])]
  }

  /** Row `i` of `MapCells(f, column)` is `f` of row `i`. */
  lemma {:induction false} MapCellsIndex(f: Cell -> string, column: seq<Cell>)
    ensures |MapCells(f, column)| == |column|
    ensures forall i :: 0 <= i < |column| ==> MapCells(f, column)[i] == f(column[i])
  {
    if column != [] {
      var init := column[..|column| - 1];
      MapCellsIndex(f, init);
      assert forall i :: 0 <= i < |init| ==> init[i] == column[i];
    }
  }

  /** The body of the loop for one row (lines 144-153). */
  method RowLink(cell: Cell, message: string) returns (link: string)
    ensures link == LinkFor(cell, message)
  {
    link := "";
    if Truthy(cell) {
      var normalized := NormalizePhoneText(Text(cell));
      var encoded := Quote(message);
      link := WaPrefix + normalized + "?text=" + encoded;
    }
  }

  /** Lines 139-155: the loop over the rows of the phone column. */
  method GenerateWhatsAppLinks(column: seq<Cell>, message: string) returns (links: seq<string>)
    ensures |links| == |column|
    ensures forall i :: 0 <= i < |column| ==> links[i] == LinkFor(column[i], message)
  {
    ghost var linkOf := (c: Cell) => LinkFor(c, message);
    links := [];
    var i := 0;
    while i < |column|
      invariant i <= |column|
      invariant links == MapCells(linkOf, column[..i])
    {
      var link := RowLink(column[i], message);
      assert column[..i + 1][..i] == column[..i];
      links := links + [link];
      i := i + 1;
    }
    assert column[..i] == column;
    MapCellsIndex(linkOf, column);
  }

  /**
   * Every link of a column reads back as the message, and a recipient in one
   * of the three recognised forms as `+8801` and nine digits.
   */
  lemma LinksCarryMessage(column: seq<Cell>, message: string, i: nat)
    requires i < |column| && Truthy(column[i])
    ensures var parsed := ParseLink(LinkFor(column[i], message));
      && parsed.Some? && parsed.value.text == message
      && (RuleApplies(Digits(Text(column[i]))) ==> IsCanonical(parsed.value.phone))
  {
    LinkForMeans(column[i], message);
  }
}
