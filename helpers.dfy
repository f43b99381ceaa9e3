/** The shopping-list export of backend/api/helpers.py. The CSV writer becomes
    a list of rows and the PDF canvas a list of drawing operations, each
    recording its coordinates and text. */
module Helpers {
  import opened Common
  import opened Models

  // Canvas coordinates of the PDF layout.
  const X_POS := 100
  const X_END_POS := 300
  const Y_POS := 800
  const SM_INDENT_STEP := 10
  const MD_INDENT_STEP := 20
  const DEVIDER_INDENT_STEP := 30

  const CSV_FILENAME := "shopping_list.csv"
  const PDF_FILENAME := "shopping_cart.pdf"
  const RECIPES_HEADER := "Список рецептов:"
  const CSV_TOTALS_HEADER := "ИТОГО Список покупок:"
  const PDF_PRODUCTS_HEADER := "Список продуктов:"
  const FORMAT_ERROR := "ATTACHMENT_FORMAT_ERROR Please contact your administrator"
  const HTTP_400_BAD_REQUEST := 400

  /** The UTF-8 encoding of U+FEFF, written before the CSV rows. */
  const UTF8_BOM: seq<bv8> := [0xEF, 0xBB, 0xBF]

  /** A Python dict from ingredients to amounts: the keys in insertion order
      (the order `items()` yields them) and the key-to-amount mapping. */
  datatype Totals = Totals(keys: seq<Ingredient>, amounts: map<Ingredient, int>)

  predicate WellFormed(t: Totals)
  {
    Distinct(t.keys) && t.amounts.Keys == SetOf(t.keys)
  }

  /** The empty dict `{}`. */
  function EmptyTotals(): (t: Totals)
    ensures WellFormed(t) && t.keys == []
  {
    Totals([], map[])
  }

  /** `d[k] += a` when `k` is present, `d[k] = a` otherwise. A new key goes to
      the end of the iteration order; an existing key keeps its place. */
  function AddAmount(t: Totals, k: Ingredient, a: int): (r: Totals)
    requires WellFormed(t)
    ensures WellFormed(r)
    ensures k in r.amounts && r.amounts[k] == (if k in t.amounts then t.amounts[k] else 0) + a
    ensures forall k' :: k' != k && k' in t.amounts ==> k' in r.amounts && r.amounts[k'] == t.amounts[k']
    ensures r.keys == (if k in t.keys then t.keys else t.keys + [k])
  {
    if k in t.amounts then
      Totals(t.keys, t.amounts[k := t.amounts[k] + a])
    else
      var keys := t.keys + [k];
      assert Distinct(keys) by {
        forall i, j | 0 <= i < j < |keys| ensures keys[i] != keys[j] {
          if j == |t.keys| {
            assert keys[i] == t.keys[i] && t.keys[i] in t.keys;
          } else {
            assert keys[i] == t.keys[i] && keys[j] == t.keys[j];
          }
        }
      }
      Totals(keys, t.amounts[k := a])
  }

  /** The text of one dict item: `f'{pos} --- {amount}'`. */
  function EntryLine(k: Ingredient, amount: int): string
  {
    IngredientStr(k) + " --- " + IntToDecimal(amount)
  }

  /** The text of the j-th item of the dict. */
  function ItemLine(t: Totals, j: nat): string
    requires WellFormed(t) && j < |t.keys|
  {
    EntryLine(t.keys[j], t.amounts[t.keys[j]])
  }

  /** A CSV cell: plain text, or the recipe list written as one cell (the
      writer's own rendering of a Python list is not modelled). */
  datatype Cell = Text(s: string) | ListCell(items: seq<string>)

  datatype CsvDocument = CsvDocument(prefix: seq<bv8>, rows: seq<seq<Cell>>)

  /** One drawing call on the canvas: `drawString(x, y, text)` or `line(x1, y1, x2, y2)`. */
  datatype DrawOp =
    | DrawString(x: int, y: int, text: string)
    | DrawLine(x1: int, y1: int, x2: int, y2: int)

  /** The vertical position of a drawing call. */
  function OpY(op: DrawOp): int
  {
    match op
    case DrawString(_, y, _) => y
    case DrawLine(_, y1, _, _) => y1
  }

  function OpX(op: DrawOp): int
  {
    match op
    case DrawString(x, _, _) => x
    case DrawLine(x1, _, _, _) => x1
  }

  /** What `create_file` answers: a CSV attachment, a PDF attachment, or the
      400 response for an unsupported format. */
  datatype Response =
    | CsvAttachment(filename: string, csv: CsvDocument)
    | PdfAttachment(filename: string, ops: seq<DrawOp>)
    | ErrorResponse(status: int, message: string)

  /** The four rows written before the items. */
  const CSV_HEAD_ROWS := 4

  /** One row per dict item, in iteration order. */
  function ItemRows(t: Totals): (rows: seq<seq<Cell>>)
    requires WellFormed(t)
  {
    seq(|t.keys|, j requires 0 <= j < |t.keys| => [Text(ItemLine(t, j))])
  }

  /** The CSV body: the BOM, then the recipes header, the recipe list as one
      cell, a blank row, the totals header and one row per dict item. */
  function CsvLayout(recipes: seq<string>, t: Totals): (d: CsvDocument)
    requires WellFormed(t)
  {
    CsvDocument(UTF8_BOM,
      [[Text(RECIPES_HEADER)], [ListCell(recipes)], [Text(" ")], [Text(CSV_TOTALS_HEADER)]]
      + ItemRows(t))
  }

  /** `create_csv`: writes the BOM and the rows one by one. */
  method CreateCsv(recipes: seq<string>, t: Totals) returns (d: CsvDocument)
    requires WellFormed(t)
    ensures d == CsvLayout(recipes, t)
    ensures |d.rows| == CSV_HEAD_ROWS + |t.keys|
    ensures forall j :: 0 <= j < |t.keys| ==> d.rows[CSV_HEAD_ROWS + j] == [Text(ItemLine(t, j))]
  {
    var rows: seq<seq<Cell>> := [];
    rows := rows + [[Text(RECIPES_HEADER)]];
    rows := rows + [[ListCell(recipes)]];
    rows := rows + [[Text(" ")]];
    rows := rows + [[Text(CSV_TOTALS_HEADER)]];
    ghost var head := rows;
    ghost var items := ItemRows(t);
    var j := 0;
    while j < |t.keys|
      invariant 0 <= j <= |t.keys|
      invariant rows == head + items[..j]
    {
      TakeSnoc(items, j);
      var pos := t.keys[j];
      assert items[j] == [Text(EntryLine(pos, t.amounts[pos]))];
      rows := rows + [[Text(EntryLine(pos, t.amounts[pos]))]];
      assert rows == head + (items[..j] + [items[j]]);
      j := j + 1;
    }
    assert items[..j] == items;
    d := CsvDocument(UTF8_BOM, rows);
  }

  /** The y of the divider line: one step below the last recipe, then a small step. */
  function DividerY(recipeCount: nat): int
  {
    Y_POS - MD_INDENT_STEP * (recipeCount + 1) - SM_INDENT_STEP
  }

  /** The recipe lines of the PDF: recipe i at `Y_POS - 20*(i+1)`. */
  function RecipeLines(recipes: seq<string>): (ops: seq<DrawOp>)
  {
    seq(|recipes|, i requires 0 <= i < |recipes| =>
      DrawString(X_POS, Y_POS - MD_INDENT_STEP * (i + 1), recipes[i]))
  }

  /** The item lines of the PDF: item j at `20*(j+1)` below the header at `h`. */
  function ItemLines(t: Totals, h: int): (ops: seq<DrawOp>)
    requires WellFormed(t)
  {
    seq(|t.keys|, j requires 0 <= j < |t.keys| =>
      DrawString(X_POS, h - MD_INDENT_STEP * (j + 1), ItemLine(t, j)))
  }

  /** The PDF page, by closed-form coordinates: the recipes header at the top,
      the recipe lines, the divider, the products header 30 below it and the
      item lines. Every call starts at `X_POS`. */
  function PdfLayout(recipes: seq<string>, t: Totals): (ops: seq<DrawOp>)
    requires WellFormed(t)
  {
    var d := DividerY(|recipes|);
    var h := d - DEVIDER_INDENT_STEP;
    [DrawString(X_POS, Y_POS, RECIPES_HEADER)]
    + RecipeLines(recipes)
    + [DrawLine(X_POS, d, X_END_POS, d), DrawString(X_POS, h, PDF_PRODUCTS_HEADER)]
    + ItemLines(t, h)
  }

  /** The calls drawn before the item lines. */
  function PdfHead(recipes: seq<string>): seq<DrawOp>
  {
    var d := DividerY(|recipes|);
    [DrawString(X_POS, Y_POS, RECIPES_HEADER)] + RecipeLines(recipes)
    + [DrawLine(X_POS, d, X_END_POS, d), DrawString(X_POS, d - DEVIDER_INDENT_STEP, PDF_PRODUCTS_HEADER)]
  }

  lemma PdfLayoutSplit(recipes: seq<string>, t: Totals)
    requires WellFormed(t)
    ensures PdfLayout(recipes, t) == PdfHead(recipes) + ItemLines(t, DividerY(|recipes|) - DEVIDER_INDENT_STEP)
  {
  }

  /** `create_pdf`: draws the page with a running `y` that only decreases. */
  method CreatePdf(recipes: seq<string>, t: Totals) returns (ops: seq<DrawOp>)
    requires WellFormed(t)
    ensures ops == PdfLayout(recipes, t)
  {
    ghost var lines := RecipeLines(recipes);
    ops := [DrawString(X_POS, Y_POS, RECIPES_HEADER)];
    var y := Y_POS - MD_INDENT_STEP;
    var i := 0;
    while i < |recipes|
      invariant 0 <= i <= |recipes|
      invariant y == Y_POS - MD_INDENT_STEP * (i + 1)
      invariant ops == [DrawString(X_POS, Y_POS, RECIPES_HEADER)] + lines[..i]
    {
      TakeSnoc(lines, i);
      assert lines[i] == DrawString(X_POS, y, recipes[i]);
      ops := ops + [DrawString(X_POS, y, recipes[i])];
      y := y - MD_INDENT_STEP;
      i := i + 1;
    }
    assert lines[..i] == lines;
    y := y - SM_INDENT_STEP;
    ops := ops + [DrawLine(X_POS, y, X_END_POS, y)];
    y := y - DEVIDER_INDENT_STEP;
    ops := ops + [DrawString(X_POS, y, PDF_PRODUCTS_HEADER)];
    ghost var head := ops;
    assert head == PdfHead(recipes);
    ghost var items := ItemLines(t, y);
    PdfLayoutSplit(recipes, t);
    y := y - MD_INDENT_STEP;
    var j := 0;
    while j < |t.keys|
      invariant 0 <= j <= |t.keys|
      invariant y == DividerY(|recipes|) - DEVIDER_INDENT_STEP - MD_INDENT_STEP * (j + 1)
      invariant ops == head + items[..j]
    {
      TakeSnoc(items, j);
      var pos := t.keys[j];
      assert items[j] == DrawString(X_POS, y, EntryLine(pos, t.amounts[pos]));
      ops := ops + [DrawString(X_POS, y, EntryLine(pos, t.amounts[pos]))];
      assert ops == head + (items[..j] + [items[j]]);
      y := y - MD_INDENT_STEP;
      j := j + 1;
    }
    assert items[..j] == items;
  }

  /** Every drawing call starts at `X_POS`, and each call is strictly lower on
      the page than the one before; no page break or lower margin is applied,
      so the page holds one call per recipe and per item plus three. */
  lemma {:induction false} PdfLayoutDescends(recipes: seq<string>, t: Totals)
    requires WellFormed(t)
    ensures |PdfLayout(recipes, t)| == |recipes| + |t.keys| + 3
    ensures forall i :: 0 <= i < |PdfLayout(recipes, t)| ==> OpX(PdfLayout(recipes, t)[i]) == X_POS
    ensures forall i, j :: 0 <= i < j < |PdfLayout(recipes, t)| ==>
              OpY(PdfLayout(recipes, t)[j]) < OpY(PdfLayout(recipes, t)[i])
  {
    var ops := PdfLayout(recipes, t);
    var n := |recipes|;
    var d := DividerY(n);
    // The y of every call as a closed form in its index.
    forall i | 0 <= i < |ops|
      ensures OpX(ops[i]) == X_POS
      ensures OpY(ops[i]) == (if i <= n then Y_POS - MD_INDENT_STEP * i
                               else if i == n + 1 then d
                               else d - DEVIDER_INDENT_STEP - MD_INDENT_STEP * (i - n - 2))
    {
    }
  }

  /** The last item of a long enough list is drawn below the page's origin:
      nothing stops the layout at the bottom edge. */
  lemma PdfHasNoLowerBound(recipes: seq<string>, t: Totals)
    requires WellFormed(t)
    requires |recipes| + |t.keys| >= 40
    ensures OpY(PdfLayout(recipes, t)[|PdfLayout(recipes, t)| - 1]) < 0
  {
    PdfLayoutDescends(recipes, t);
  }

  /** `create_file`: dispatches on the configured format. */
  method CreateFile(fileFormat: string, recipes: seq<string>, t: Totals) returns (resp: Response)
    requires WellFormed(t)
    ensures fileFormat == "csv" ==> resp == CsvAttachment(CSV_FILENAME, CsvLayout(recipes, t))
    ensures fileFormat == "pdf" ==> resp == PdfAttachment(PDF_FILENAME, PdfLayout(recipes, t))
    ensures fileFormat != "csv" && fileFormat != "pdf" ==>
              resp == ErrorResponse(HTTP_400_BAD_REQUEST, FORMAT_ERROR)
  {
    if fileFormat == "csv" {
      var d := CreateCsv(recipes, t);
      return CsvAttachment(CSV_FILENAME, d);
    } else if fileFormat == "pdf" {
      var ops := CreatePdf(recipes, t);
      return PdfAttachment(PDF_FILENAME, ops);
    }
    return ErrorResponse(HTTP_400_BAD_REQUEST, FORMAT_ERROR);
  }
}
