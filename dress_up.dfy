/**
 * The notebook rewriter: it finds the markdown heading lines of a notebook,
 * records each in a heading table under the next ordinal, puts an HTML anchor
 * line (and optionally a colour span) into each heading cell, and puts a
 * generated "Table of Contents" markdown cell in front of the cells.
 */
module DressUp {
  import opened PyStr

  /** A notebook cell. `rest` stands for the keys this tool never reads (outputs, execution count). */
  datatype Cell = Cell(
    cellType: string,
    id: string,
    metadata: map<string, string>,
    source: seq<string>,
    rest: map<string, string>)

  /** One entry of the heading table: the dict `{'title': …, 'level': …, 'anchor': …}`. */
  datatype Heading = Heading(title: string, level: nat, anchor: string)

  /** The heading table: a dict from ordinal to entry. */
  type Table = map<int, Heading>

  /** The keys of `t` are exactly the ordinals `0 .. |t| - 1`. */
  ghost predicate IsTable(t: Table) {
    forall k :: k in t <==> 0 <= k < |t|
  }

  // ---------------------------------------------------------------- colour

  /** The title wrapped in a span coloured by `colors[level % len(colors)]`. */
  function Maquillate(title: string, level: nat, colors: seq<string>): string
    requires |colors| > 0
  {
    var color := colors[level % |colors|];
    "<span style=\"color: " + color + "\">" + title + "</span>"
  }

  // ------------------------------------------------- anchor/heading rewrite

  /** The HTML anchor line put in front of a heading cell's source. */
  function AnchorTag(anchor: string): string {
    "<a class=\"anchor\" id=\"" + anchor + "\"></a>\n"
  }

  /**
   * The heading cell's new source: the anchor line, then the first line
   * replaced by the heading rebuilt from `values`, then the other lines.
   */
  function CreateSourceAnchor(source: seq<string>, values: Heading, colors: seq<string>): (r: seq<string>)
    requires |source| > 0
    ensures |r| == |source| + 1
    ensures r[0] == AnchorTag(values.anchor)
    ensures r[1] == Repeat('#', values.level + 1) + " "
                    + (if |colors| > 0 then Maquillate(values.title, values.level, colors) else values.title)
    ensures r[2..] == source[1..]
  {
    var title := if |colors| > 0 then Maquillate(values.title, values.level, colors) else values.title;
    var newSource := [AnchorTag(values.anchor)] + source;
    newSource[1 := "#" + Repeat('#', values.level) + " " + title]
  }

  // ---------------------------------------------------- heading extraction

  /** The anchor of a heading: trailing whitespace gone, spaces made `_`, then `_` and the ordinal. */
  function MakeAnchor(title: string, key: nat): string {
    Replace(RStrip(title), ' ', '_') + "_" + Str(key)
  }

  /**
   * The entry recorded for heading line `line` under ordinal `key`. The
   * level counts every `#` of the line, not only the leading run, and the
   * title keeps the line's trailing newline.
   */
  function ParseHeading(line: string, key: nat): (h: Heading)
    requires StartsWith(line, '#')
  {
    var level := Count(line, '#') - 1;
    var title := Drop(line, level + 2);
    Heading(title, level, MakeAnchor(title, key))
  }

  /** The lines of `source` that start with `#`, in order. */
  function HeadingLines(source: seq<string>): (r: seq<string>)
    ensures |r| <= |source|
    ensures forall i :: 0 <= i < |r| ==> StartsWith(r[i], '#')
    ensures |source| > 0 && StartsWith(source[0], '#') ==> |r| > 0
  {
    if source == [] then []
    else
      var r := HeadingLines(source[..|source| - 1]);
      var line := source[|source| - 1];
      if StartsWith(line, '#') then r + [line] else r
  }

  /** A single line is kept exactly when it starts with `#`. */
  lemma HeadingLinesSingle(line: string)
    ensures HeadingLines([line]) == if StartsWith(line, '#') then [line] else []
  {
  }

  /** `HeadingLines` is a filter: it distributes over concatenation, keeping the order of the lines. */
  lemma {:induction false} HeadingLinesConcat(a: seq<string>, b: seq<string>)
    ensures HeadingLines(a + b) == HeadingLines(a) + HeadingLines(b)
  {
    if b == [] {
      assert a + b == a;
    } else {
      var pre := b[..|b| - 1];
      HeadingLinesConcat(a, pre);
      assert (a + b)[..|a + b| - 1] == a + pre;
    }
  }

  /** Every line of `source` that starts with `#` is among the heading lines. */
  lemma {:induction false} HeadingLinesComplete(source: seq<string>, i: nat)
    requires i < |source| && StartsWith(source[i], '#')
    ensures source[i] in HeadingLines(source)
  {
    if i < |source| - 1 {
      HeadingLinesComplete(source[..|source| - 1], i);
    }
  }

  /** Every anchor of `t` is made from its entry's title and its own key. */
  ghost predicate KeyedAnchors(t: Table) {
    forall k :: k in t ==> k >= 0 && t[k].anchor == MakeAnchor(t[k].title, k)
  }

  /** Storing an entry under `len(t)` extends a table by one and keeps its entries and anchors. */
  lemma AppendEntry(t: Table, h: Heading)
    ensures IsTable(t) ==> IsTable(t[|t| := h]) && |t[|t| := h]| == |t| + 1
    ensures IsTable(t) ==> forall k :: k in t ==> k in t[|t| := h] && t[|t| := h][k] == t[k]
    ensures KeyedAnchors(t) && h.anchor == MakeAnchor(h.title, |t|) ==> KeyedAnchors(t[|t| := h])
  {
  }

  /**
   * What `extract_info(source, titles)` leaves in `titles`: one entry per
   * line starting with `#`, each stored under `len(titles)` at that moment.
   */
  function ExtractAll(source: seq<string>, titles: Table): (r: Table)
    ensures IsTable(titles) ==> IsTable(r) && |r| == |titles| + |HeadingLines(source)|
    ensures IsTable(titles) ==> forall k :: k in titles ==> k in r && r[k] == titles[k]
    ensures KeyedAnchors(titles) ==> KeyedAnchors(r)
  {
    if source == [] then titles
    else
      var t := ExtractAll(source[..|source| - 1], titles);
      var line := source[|source| - 1];
      assert |HeadingLines(source)| == |HeadingLines(source[..|source| - 1])| + if StartsWith(line, '#') then 1 else 0;
      if StartsWith(line, '#') then
        var h := ParseHeading(line, |t|);
        AppendEntry(t, h);
        t[|t| := h]
      else t
  }

  lemma ExtractAllStep(source: seq<string>, i: nat, titles: Table)
    requires i < |source|
    ensures var t := ExtractAll(source[..i], titles);
      ExtractAll(source[..i + 1], titles)
      == if StartsWith(source[i], '#') then t[|t| := ParseHeading(source[i], |t|)] else t
  {
    assert source[..i + 1][..i] == source[..i];
  }

  /** `extract_info`: the loop over the lines, inserting into the table as it goes. */
  method ExtractInfo(source: seq<string>, titles: Table) returns (r: Table)
    ensures r == ExtractAll(source, titles)
  {
    r := titles;
    var i := 0;
    while i < |source|
      invariant 0 <= i <= |source|
      invariant r == ExtractAll(source[..i], titles)
    {
      var word := source[i];
      ExtractAllStep(source, i, titles);
      if StartsWith(word, '#') {
        r := r[|r| := ParseHeading(word, |r|)];
      }
      i := i + 1;
    }
    assert source[..i] == source;
  }

  // ------------------------------------------------------ contents cell

  /** The first line of the contents cell. */
  const ContentsHeader := " # Table of Contents\n"

  /**
   * The link target of a contents line. The substitution in the source
   * matches the whole anchor (from `^` to `$`), so its net effect is to
   * wrap the anchor in `(#` … `)`.
   */
  function LinkTarget(anchor: string): string {
    "(#" + anchor + ")"
  }

  /** One contents line: indented by one tab per level, a markdown link to the anchor. */
  function FormatTitleIndex(h: Heading): string {
    Repeat('\t', h.level) + "+ " + "[" + h.title + "]" + LinkTarget(h.anchor) + "\n"
  }

  /** The contents lines for ordinals `0 .. n - 1`, in ascending order. */
  function ContentsLines(t: Table, n: nat): (lines: seq<string>)
    requires forall k :: 0 <= k < n ==> k in t
    ensures |lines| == n
    ensures forall k :: 0 <= k < n ==> lines[k] == FormatTitleIndex(t[k])
  {
    if n == 0 then [] else ContentsLines(t, n - 1) + [FormatTitleIndex(t[n - 1])]
  }

  /** The contents cell for table `t`, with the given cell id. */
  function ContentsCell(t: Table, cellId: string): (c: Cell)
    requires IsTable(t)
    ensures c.cellType == "markdown" && c.id == cellId && c.metadata == map[] && c.rest == map[]
    ensures |c.source| == |t| + 1 && c.source[0] == ContentsHeader
    ensures forall k :: 0 <= k < |t| ==> c.source[k + 1] == FormatTitleIndex(t[k])
  {
    Cell("markdown", cellId, map[], [ContentsHeader] + ContentsLines(t, |t|), map[])
  }

  /**
   * `generate_contents`, with the random cell id passed in: the header line,
   * then one line appended per key in ascending order.
   */
  method GenerateContents(infoToAdd: Table, cellId: string) returns (toc: Cell)
    requires IsTable(infoToAdd)
    ensures toc == ContentsCell(infoToAdd, cellId)
  {
    toc := Cell("markdown", cellId, map[], [ContentsHeader], map[]);
    var titleNumb := 0;
    while titleNumb < |infoToAdd|
      invariant 0 <= titleNumb <= |infoToAdd|
      invariant toc == Cell("markdown", cellId, map[], [ContentsHeader] + ContentsLines(infoToAdd, titleNumb), map[])
    {
      var line := FormatTitleIndex(infoToAdd[titleNumb]);
      toc := toc.(source := toc.source + [line]);
      titleNumb := titleNumb + 1;
    }
  }

  // ----------------------------------------------------------- cell pass

  /** A markdown cell whose first source line starts with `#`: the only cells the pass rewrites. */
  predicate HasHeading(cell: Cell) {
    cell.cellType == "markdown" && |cell.source| > 0 && StartsWith(cell.source[0], '#')
  }

  /** A heading cell with its source rebuilt from entry `h`; every other key is kept. */
  function AnchoredCell(cell: Cell, h: Heading, colors: seq<string>): (c: Cell)
    requires |cell.source| > 0
    ensures c.cellType == cell.cellType && c.id == cell.id && c.metadata == cell.metadata && c.rest == cell.rest
    ensures c.source == CreateSourceAnchor(cell.source, h, colors)
  {
    Cell(cell.cellType, cell.id, cell.metadata, CreateSourceAnchor(cell.source, h, colors), cell.rest)
  }

  /** The heading table and the output cells after some prefix of the cells. */
  datatype Pass = Pass(table: Table, cells: seq<Cell>)

  /**
   * One iteration of the pass: a cell without a heading is passed through;
   * a heading cell adds its `#` lines to the table and gets its source
   * rebuilt from the last entry added.
   */
  function Step(acc: Pass, cell: Cell, colors: seq<string>): (p: Pass)
    requires IsTable(acc.table)
    ensures IsTable(p.table) && |p.cells| == |acc.cells| + 1 && p.cells[..|acc.cells|] == acc.cells
  {
    if !HasHeading(cell) then Pass(acc.table, acc.cells + [cell])
    else
      var t := ExtractAll(cell.source, acc.table);
      Pass(t, acc.cells + [AnchoredCell(cell, t[|t| - 1], colors)])
  }

  /** What `generate_new_cells(cells, colors)` returns, built one cell at a time from an empty table. */
  function NewCells(cells: seq<Cell>, colors: seq<string>): (p: Pass)
    ensures IsTable(p.table) && |p.cells| == |cells|
  {
    if cells == [] then Pass(map[], [])
    else Step(NewCells(cells[..|cells| - 1], colors), cells[|cells| - 1], colors)
  }

  lemma NewCellsStep(cells: seq<Cell>, i: nat, colors: seq<string>)
    requires i < |cells|
    ensures NewCells(cells[..i + 1], colors) == Step(NewCells(cells[..i], colors), cells[i], colors)
  {
    assert cells[..i + 1][..i] == cells[..i];
  }

  /** A heading cell always adds at least one entry, so the last key exists. */
  lemma HeadingStep(acc: Pass, cell: Cell, colors: seq<string>, t: Table)
    requires IsTable(acc.table) && HasHeading(cell) && t == ExtractAll(cell.source, acc.table)
    ensures |t| - 1 in t
    ensures Step(acc, cell, colors) == Pass(t, acc.cells + [AnchoredCell(cell, t[|t| - 1], colors)])
  {
  }

  /** `generate_new_cells`: the loop over the cells, threading the heading table. */
  method GenerateNewCells(cells: seq<Cell>, colors: seq<string>) returns (infoToAdd: Table, newCells: seq<Cell>)
    ensures Pass(infoToAdd, newCells) == NewCells(cells, colors)
  {
    infoToAdd := map[];
    newCells := [];
    for i := 0 to |cells|
      invariant Pass(infoToAdd, newCells) == NewCells(cells[..i], colors)
    {
      var cell := cells[i];
      NewCellsStep(cells, i, colors);
      ghost var acc := Pass(infoToAdd, newCells);
      if cell.cellType != "markdown" {
        newCells := newCells + [cell];
        assert Pass(infoToAdd, newCells) == Step(acc, cell, colors);
        continue;
      }
      var source := cell.source;
      if |source| == 0 || !StartsWith(source[0], '#') {
        newCells := newCells + [cell];
        assert Pass(infoToAdd, newCells) == Step(acc, cell, colors);
        continue;
      }
      infoToAdd := ExtractInfo(source, infoToAdd);
      HeadingStep(acc, cell, colors, infoToAdd);
      var number := |infoToAdd| - 1;
      if number < 0 {
        // The first line starts with `#`, so the table has just grown.
        assert false;
      }
      var values := infoToAdd[number];
      var newSource := CreateSourceAnchor(source, values, colors);
      assert cell.(source := newSource) == AnchoredCell(cell, values, colors);
      newCells := newCells + [cell.(source := newSource)];
      assert Pass(infoToAdd, newCells) == Step(acc, cell, colors);
    }
    assert cells[..|cells|] == cells;
  }

  // ------------------------------------------------------- the document

  /** The cells of the rewritten document: the contents cell, then the processed cells. */
  function DressedCells(cells: seq<Cell>, colors: seq<string>, tocId: string): (r: seq<Cell>)
    ensures |r| == |cells| + 1
  {
    var p := NewCells(cells, colors);
    [ContentsCell(p.table, tocId)] + p.cells
  }

  /** A notebook document. Only `cells` is touched; the other top-level keys are kept as they are. */
  class Notebook {
    var cells: seq<Cell>
    var rest: map<string, string>

    /** `create_new_document`: overwrites the document's cells. */
    method CreateNewDocument(colors: seq<string>, tocId: string)
      modifies this`cells
      ensures cells == DressedCells(old(cells), colors, tocId)
    {
      var infoToAdd, newCells := GenerateNewCells(cells, colors);
      var toc := GenerateContents(infoToAdd, tocId);
      cells := [toc] + newCells;
    }
  }

  // -------------------------------------------------------- output name

  /** The name the rewritten notebook is saved under: the part before `.ipynb`, then `_chulo.ipynb`. */
  function SavedName(file: string): string {
    var nameChulo := SplitHead(file, ".ipynb");
    nameChulo + "_chulo.ipynb"
  }
}
