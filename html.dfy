/**
 * What the scraper's CSS selectors and `find` calls locate in a fetched page, given as plain
 * values: the HTML parser and the selector engine are not part of this model.
 */
module Html {
  import opened Wrappers

  /** An `<a>` element: its text and its `href` attribute, when it has one. */
  datatype Link = Link(text: string, href: Option<string>)

  /** One person container of a results page, by what the extractor looks up in it. */
  datatype Container = Container(
    styledLink: Option<Link>,           // first `a.mi-text-primary.hover:mi-underline`
    personLink: Option<Link>,           // first `a` whose href contains "/person/"
    wordLink: Option<Link>,             // first `a` whose text holds a word character
    addressSpans: Option<seq<string>>,  // texts of the spans of the address element, if found
    postalSpans: seq<string>,           // texts of the spans that look like "123 45 Ort"
    idSpan: Option<string>,             // text of the first span holding 8 digits and a '-'
    maleTip: bool,                      // a span whose tooltip says "Är man"
    femaleTip: bool,                    // a span whose tooltip says "Är kvinna"
    companyTip: bool)                   // a span whose tooltip mentions "bolagsengagemang"

  /** A `<span>`: its text, and whether it has a single string child (`span.string` is set). */
  datatype Span = Span(text: string, simple: bool)

  /** A `<td>`: its text, its spans in document order, and the text of its first `<dd>`. */
  datatype Cell = Cell(text: string, spans: seq<Span>, dd: Option<string>)

  /** A `<tr>` of a vehicle table body. */
  datatype Row = Row(cells: seq<Cell>)

  /** A vehicle container: its `<table>`, if any, and that table's `<tbody>` rows, if any. */
  datatype VehicleContainer = VehicleContainer(table: Option<Option<seq<Row>>>)

  /**
   * A parsed page: for each person selector, in order, the containers it matches; for each
   * vehicle selector, in order, the first element it matches.
   */
  datatype Page = Page(personHits: seq<seq<Container>>, vehicleHits: seq<Option<VehicleContainer>>)
}
