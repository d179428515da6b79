/** The text the console printer builds (Printer.cs): the `=` rules around a
    header, the hard cut of long names, and the text columns of the table.
    Number formatting (culture `it-IT`, `0.00`, `0.##`) is not modelled. */
module Printer {
  import opened Orders

  /** `n` copies of the character `c` (`new string(c, n)`). */
  function Repeat(c: char, n: nat): (r: string)
    ensures |r| == n
    ensures forall i :: 0 <= i < n ==> r[i] == c
  {
    if n == 0 then [] else Repeat(c, n - 1) + [c]
  }

  /** The lines `PrintHeader` writes: a blank line, a rule of `=`, the title,
      and the same rule again. */
  function HeaderLines(title: string): (lines: seq<string>)
    ensures |lines| == 4 && lines[0] == [] && lines[2] == title
    ensures lines[1] == lines[3] && |lines[1]| == |title|
    ensures forall i :: 0 <= i < |title| ==> lines[1][i] == '='
  {
    var rule := Repeat('=', |title|);
    [[], rule, title, rule]
  }

  /** `Trunc(s, max)`: `s` itself when it fits, else its first `max`
      characters, with no ellipsis. */
  function Trunc(s: string, max: nat): (r: string)
    ensures |r| == if |s| <= max then |s| else max
    ensures r == s[..|r|]
    ensures |s| <= max ==> r == s
  {
    if |s| <= max then s else s[..max]
  }

  /** Cutting twice at the same width is cutting once. */
  lemma TruncIdempotent(s: string, max: nat)
    ensures Trunc(Trunc(s, max), max) == Trunc(s, max)
  {
  }

  /** Left alignment in a composite format (`{x,-w}`): the text followed by
      spaces up to width `w`; text that is already wider is left as it is. */
  function PadRight(s: string, width: nat): (r: string)
    ensures |r| == if |s| < width then width else |s|
    ensures r[..|s|] == s
    ensures forall i :: |s| <= i < |r| ==> r[i] == ' '
  {
    if |s| < width then s + Repeat(' ', width - |s|) else s
  }

  /** Width of the article column and of the buyer column of the table. */
  const ArticleWidth: nat := 16
  const BuyerWidth: nat := 15

  /** The text cells of one row of `PrintRecordsTable`; the numeric cells are
      the record's own values, whose formatting is not modelled. */
  datatype TableRow = TableRow(
    id: int, article: string, quantity: int,
    unitPrice: real, percentageDiscount: real, buyer: string)

  /** The row printed for record `o`. */
  function RowOf(o: OrderRecord): (row: TableRow)
    ensures |row.article| == ArticleWidth
    ensures var shown := if |o.articleName| <= ArticleWidth then |o.articleName| else ArticleWidth;
            row.article[..shown] == o.articleName[..shown] &&
            forall i :: shown <= i < ArticleWidth ==> row.article[i] == ' '
    ensures |row.buyer| <= BuyerWidth && |row.buyer| <= |o.buyer| && row.buyer == o.buyer[..|row.buyer|]
    ensures |o.buyer| <= BuyerWidth ==> row.buyer == o.buyer
    ensures row.id == o.id && row.quantity == o.quantity
    ensures row.unitPrice == o.unitPrice && row.percentageDiscount == o.percentageDiscount
  {
    TableRow(o.id, PadRight(Trunc(o.articleName, ArticleWidth), ArticleWidth), o.quantity,
             o.unitPrice, o.percentageDiscount, Trunc(o.buyer, BuyerWidth))
  }

  /** The rows of `PrintRecordsTable`, one per record, in list order. */
  function TableRows(records: seq<OrderRecord>): (rows: seq<TableRow>)
    ensures |rows| == |records|
    ensures forall i :: 0 <= i < |records| ==> rows[i] == RowOf(records[i])
  {
    if records == [] then [] else [RowOf(records[0])] + TableRows(records[1..])
  }
}
