/**
 * What the notebook rewriter guarantees: colour cycling, the shape of the
 * rewritten heading cell, the growth and anchors of the heading table, the
 * contents lines, the cell pass and the document it produces.
 */
module DressUpProperties {
  import opened PyStr
  import opened DressUp

  // ---------------------------------------------------------------- colour

  /** Colours cycle by level: `len(colors)` levels further down gets the same span. */
  lemma MaquillateCycles(title: string, level: nat, colors: seq<string>)
    requires |colors| > 0
    ensures Maquillate(title, level + |colors|, colors) == Maquillate(title, level, colors)
  {
    ModShift(level, |colors|);
  }

  lemma ModShift(x: nat, n: nat)
    requires n > 0
    ensures (x + n) % n == x % n
  {
    var q, m := x / n, x % n;
    var q', r := (x + n) / n, (x + n) % n;
    var d := q' - 1 - q;
    assert d * n == m - r by {
      assert x + n == q' * n + r;
      assert x == q * n + m;
      assert (q' - 1 - q) * n == q' * n - n - q * n;
    }
  }

  /** With colours red and blue, levels 0, 1 and 2 are red, blue and red again. */
  lemma MaquillateRedBlue()
    ensures Maquillate("Intro", 0, ["red", "blue"]) == "<span style=\"color: red\">Intro</span>"
    ensures Maquillate("Intro", 1, ["red", "blue"]) == "<span style=\"color: blue\">Intro</span>"
    ensures Maquillate("Intro", 2, ["red", "blue"]) == "<span style=\"color: red\">Intro</span>"
  {
  }

  // ------------------------------------------------- anchor/heading rewrite

  lemma {:induction false} CountRepeat(c: char, n: nat)
    ensures Count(Repeat(c, n), c) == n
  {
    if n > 0 {
      assert Repeat(c, n)[1..] == Repeat(c, n - 1);
      CountRepeat(c, n - 1);
    }
  }

  /**
   * Without colours, the rebuilt heading line reads back as the same
   * heading: same level, same title (when the title has no `#` of its own).
   */
  lemma HeadingLineReparses(source: seq<string>, h: Heading, key: nat)
    requires |source| > 0 && '#' !in h.title
    ensures var line := CreateSourceAnchor(source, h, [])[1];
      StartsWith(line, '#')
      && ParseHeading(line, key).level == h.level
      && ParseHeading(line, key).title == h.title
  {
    ParseHeadingLine(h.level, h.title, key);
  }

  /**
   * A line of `n + 1` hashes, a space and a title without `#` is read as a
   * heading of level `n` whose title is everything after the space,
   * trailing newline included.
   */
  lemma ParseHeadingLine(n: nat, title: string, key: nat)
    requires '#' !in title
    ensures var line := Repeat('#', n + 1) + " " + title;
      StartsWith(line, '#') && ParseHeading(line, key) == Heading(title, n, MakeAnchor(title, key))
  {
    var hashes := Repeat('#', n + 1);
    var line := hashes + " " + title;
    CountRepeat('#', n + 1);
    CountConcat(hashes, " ", '#');
    CountConcat(hashes + " ", title, '#');
    assert line[n + 2..] == title;
  }

  /**
   * A heading line ending in a newline keeps that newline in its title
   * (and so in its contents line), while the anchor is made without it.
   */
  lemma TitleKeepsNewline(n: nat, name: string, key: nat)
    requires '#' !in name
    ensures var h := ParseHeading(Repeat('#', n + 1) + " " + name + "\n", key);
      h.title == name + "\n" && h.anchor == MakeAnchor(name, key)
  {
    var title := name + "\n";
    ParseHeadingLine(n, title, key);
    assert Repeat('#', n + 1) + " " + name + "\n" == Repeat('#', n + 1) + " " + title;
    assert title[..|title| - 1] == name;
  }

  /**
   * A `#` inside the title is counted as a level too: `# C# notes` is read
   * as level 1, and the title loses as many leading characters as it has `#`.
   */
  lemma HashInTitleShiftsTitle(title: string, key: nat)
    requires '#' in title
    ensures var h := ParseHeading("# " + title, key);
      h.level == Count(title, '#') && h.level >= 1
      && h.title == Drop(title, h.level) && h.title != title
  {
    var level := Count(title, '#');
    CountBehindHashSpace(title);
    DropBehindHashSpace(title, level);
    var line := "# " + title;
    ParseHeadingFields(line, key, ParseHeading(line, key));
    assert |Drop(title, level)| < |title|;
  }

  /** `ParseHeading`'s fields for a bound entry `h`, so callers need not unfold its anchor. */
  lemma ParseHeadingFields(line: string, key: nat, h: Heading)
    requires StartsWith(line, '#') && h == ParseHeading(line, key)
    ensures h.level + 1 == Count(line, '#') && h.title == Drop(line, h.level + 2)
  {
  }

  lemma CountBehindHashSpace(title: string)
    ensures Count("# " + title, '#') == Count(title, '#') + 1
  {
  }

  lemma DropBehindHashSpace(title: string, k: nat)
    ensures Drop("# " + title, k + 2) == Drop(title, k)
  {
  }

  // ---------------------------------------------------- heading extraction

  /**
   * The entries `extract_info` adds: the `j`-th line starting with `#` is
   * stored under `len(titles) + j`, parsed with that key.
   */
  lemma {:induction false} ExtractAllEntry(source: seq<string>, titles: Table, j: nat, r: Table, lines: seq<string>)
    requires IsTable(titles) && r == ExtractAll(source, titles) && lines == HeadingLines(source) && j < |lines|
    ensures |titles| + j in r && r[|titles| + j] == ParseHeading(lines[j], |titles| + j)
  {
    var pre := source[..|source| - 1];
    var t := ExtractAll(pre, titles);
    var before := HeadingLines(pre);
    if j < |before| {
      ExtractAllEntry(pre, titles, j, t, before);
      assert lines[j] == before[j];
    } else {
      var line := source[|source| - 1];
      assert lines == before + [line];
      assert r == t[|t| := ParseHeading(line, |t|)];
    }
  }

  /** The ordinal can be read back from an anchor: the digits after its last `_`. */
  lemma AnchorKeyRoundTrip(title: string, key: nat)
    ensures var digits := LastSegment(MakeAnchor(title, key), '_');
      AllDigits(digits) && DecimalValue(digits) == key
  {
    assert '_' !in Str(key);
    LastSegmentOf(Replace(RStrip(title), ' ', '_'), '_', Str(key));
    StrRoundTrip(key);
  }

  /** Two entries with different keys never share an anchor, whatever their titles. */
  lemma AnchorsDistinct(title1: string, key1: nat, title2: string, key2: nat)
    requires key1 != key2
    ensures MakeAnchor(title1, key1) != MakeAnchor(title2, key2)
  {
    AnchorKeyRoundTrip(title1, key1);
    AnchorKeyRoundTrip(title2, key2);
  }

  /** An anchor holds no space: the title's spaces became `_` and the ordinal is digits. */
  lemma AnchorHasNoSpace(title: string, key: nat)
    ensures ' ' !in MakeAnchor(title, key)
  {
    var slug := Replace(RStrip(title), ' ', '_');
    ReplacePointwise(RStrip(title), ' ', '_');
    assert ' ' !in slug;
    assert ' ' !in Str(key);
  }

  /** No two entries of the table share an anchor. */
  ghost predicate UniqueAnchors(t: Table) {
    forall i, j :: i in t && j in t && i != j ==> t[i].anchor != t[j].anchor
  }

  // ------------------------------------------------------ contents lines

  /** The number of tabs a line starts with. */
  function LeadingTabs(s: string): nat {
    if s != [] && s[0] == '\t' then 1 + LeadingTabs(s[1..]) else 0
  }

  lemma {:induction false} LeadingTabsRepeat(n: nat, rest: string)
    requires !StartsWith(rest, '\t')
    ensures LeadingTabs(Repeat('\t', n) + rest) == n
  {
    if n > 0 {
      assert (Repeat('\t', n) + rest)[1..] == Repeat('\t', n - 1) + rest;
      LeadingTabsRepeat(n - 1, rest);
    } else {
      assert Repeat('\t', 0) + rest == rest;
    }
  }

  /**
   * A contents line is indented by exactly `level` tabs, then holds the
   * title in brackets and ends with the link to the anchor.
   */
  lemma FormatTitleIndexFields(h: Heading)
    ensures var line := FormatTitleIndex(h);
      var n := h.level;
      LeadingTabs(line) == n
      && line[n..n + 3] == "+ ["
      && line[n + 3..n + 3 + |h.title|] == h.title
      && line[n + 3 + |h.title|..] == "](#" + h.anchor + ")\n"
  {
    var rest := "+ " + "[" + h.title + "]" + LinkTarget(h.anchor) + "\n";
    assert FormatTitleIndex(h) == Repeat('\t', h.level) + rest;
    LeadingTabsRepeat(h.level, rest);
  }

  // ----------------------------------------------------------- cell pass

  /** A step of the pass keeps every entry already in the table, and the key-suffixed anchors. */
  lemma StepKeepsEntries(acc: Pass, cell: Cell, colors: seq<string>)
    requires IsTable(acc.table)
    ensures var p := Step(acc, cell, colors);
      (forall k :: k in acc.table ==> k in p.table && p.table[k] == acc.table[k])
      && (KeyedAnchors(acc.table) ==> KeyedAnchors(p.table))
  {
  }

  /** Every anchor the pass records is `<slug>_<its ordinal>`. */
  lemma {:induction false} NewCellsKeyedAnchors(cells: seq<Cell>, colors: seq<string>)
    ensures KeyedAnchors(NewCells(cells, colors).table)
  {
    if cells != [] {
      NewCellsKeyedAnchors(cells[..|cells| - 1], colors);
      StepKeepsEntries(NewCells(cells[..|cells| - 1], colors), cells[|cells| - 1], colors);
    }
  }

  /** The anchors of the whole document are pairwise distinct. */
  lemma NewCellsUniqueAnchors(cells: seq<Cell>, colors: seq<string>)
    ensures UniqueAnchors(NewCells(cells, colors).table)
  {
    var t := NewCells(cells, colors).table;
    NewCellsKeyedAnchors(cells, colors);
    forall i, j | i in t && j in t && i != j
      ensures t[i].anchor != t[j].anchor
    {
      AnchorsDistinct(t[i].title, i, t[j].title, j);
    }
  }

  /** The number of heading lines the pass reads: those of every heading cell. */
  function TotalHeadings(cells: seq<Cell>): nat {
    if cells == [] then 0
    else
      var last := cells[|cells| - 1];
      TotalHeadings(cells[..|cells| - 1]) + if HasHeading(last) then |HeadingLines(last.source)| else 0
  }

  /** One table entry per `#` line of every heading cell, and no others. */
  lemma {:induction false} NewCellsTableSize(cells: seq<Cell>, colors: seq<string>)
    ensures |NewCells(cells, colors).table| == TotalHeadings(cells)
  {
    if cells != [] {
      NewCellsTableSize(cells[..|cells| - 1], colors);
    }
  }

  /** Processing more cells extends the output cells and keeps every table entry. */
  lemma {:induction false} NewCellsPrefix(cells: seq<Cell>, colors: seq<string>, j: nat)
    requires j <= |cells|
    ensures var whole := NewCells(cells, colors);
      var part := NewCells(cells[..j], colors);
      whole.cells[..j] == part.cells
      && forall k :: k in part.table ==> k in whole.table && whole.table[k] == part.table[k]
  {
    if j < |cells| {
      var pre := cells[..|cells| - 1];
      assert pre[..j] == cells[..j];
      NewCellsPrefix(pre, colors, j);
      StepKeepsEntries(NewCells(pre, colors), cells[|cells| - 1], colors);
    } else {
      assert cells[..j] == cells;
    }
  }

  /** The `i`-th output cell is already final once the first `i + 1` cells are processed. */
  lemma NewCellsCell(cells: seq<Cell>, colors: seq<string>, i: nat)
    requires i < |cells|
    ensures NewCells(cells, colors).cells[i] == NewCells(cells[..i + 1], colors).cells[i]
  {
    var out := NewCells(cells, colors).cells;
    NewCellsPrefix(cells, colors, i + 1);
    assert out[..i + 1][i] == out[i];
  }

  /**
   * A cell without a heading comes out of the pass unchanged and adds
   * nothing to the table (`out` the output cells, `before` and `after` the
   * table before and after cell `i`).
   */
  lemma NewCellsAtPlain(cells: seq<Cell>, colors: seq<string>, i: nat, out: seq<Cell>, before: Table, after: Table)
    requires i < |cells| && !HasHeading(cells[i]) && out == NewCells(cells, colors).cells
    requires before == NewCells(cells[..i], colors).table && after == NewCells(cells[..i + 1], colors).table
    ensures out[i] == cells[i] && after == before
  {
    var acc := NewCells(cells[..i], colors);
    assert |acc.cells| == i;
    NewCellsCell(cells, colors, i);
    NewCellsStep(cells, i, colors);
    PlainStep(acc, cells[i], colors);
  }

  /**
   * A heading cell adds its `#` lines to the table, and its source is
   * rebuilt from the LAST entry added, whichever line that came from.
   */
  lemma NewCellsAtHeading(cells: seq<Cell>, colors: seq<string>, i: nat, out: seq<Cell>, before: Table, after: Table)
    requires i < |cells| && HasHeading(cells[i]) && out == NewCells(cells, colors).cells
    requires before == NewCells(cells[..i], colors).table && after == NewCells(cells[..i + 1], colors).table
    ensures after == ExtractAll(cells[i].source, before)
    ensures |after| - 1 in after && out[i] == AnchoredCell(cells[i], after[|after| - 1], colors)
  {
    var acc := NewCells(cells[..i], colors);
    var p := NewCells(cells[..i + 1], colors);
    NewCellsStepOf(cells, i, colors, acc, p);
    StepAtHeading(acc, cells[i], colors, p);
    NewCellsCell(cells, colors, i);
  }

  /**
   * `NewCellsStep` with the passes bound as parameters, which keeps the
   * recursive `NewCells` terms out of the proofs that use it.
   */
  lemma NewCellsStepOf(cells: seq<Cell>, i: nat, colors: seq<string>, acc: Pass, p: Pass)
    requires i < |cells| && acc == NewCells(cells[..i], colors) && p == NewCells(cells[..i + 1], colors)
    ensures IsTable(acc.table) && |acc.cells| == i && p == Step(acc, cells[i], colors)
  {
    NewCellsStep(cells, i, colors);
  }

  /**
   * `HeadingStep` with the pass after the step bound as a parameter, which
   * keeps the proof of `NewCellsAtHeading` cheap.
   */
  lemma StepAtHeading(acc: Pass, cell: Cell, colors: seq<string>, p: Pass)
    requires IsTable(acc.table) && HasHeading(cell) && p == Step(acc, cell, colors)
    ensures p.table == ExtractAll(cell.source, acc.table)
    ensures |p.table| - 1 in p.table && p.cells[|acc.cells|] == AnchoredCell(cell, p.table[|p.table| - 1], colors)
  {
    HeadingStep(acc, cell, colors, ExtractAll(cell.source, acc.table));
  }

  lemma PlainStep(acc: Pass, cell: Cell, colors: seq<string>)
    requires IsTable(acc.table) && !HasHeading(cell)
    ensures Step(acc, cell, colors) == Pass(acc.table, acc.cells + [cell])
  {
  }

  /**
   * A heading cell is rebuilt from the entry of its LAST `#` line, stored
   * under the last key it added: with several `#` lines, the first line
   * is replaced by the last heading.
   */
  lemma AnchoredFromLastHeading(cells: seq<Cell>, colors: seq<string>, i: nat, out: seq<Cell>,
                                before: Table, after: Table, lines: seq<string>)
    requires i < |cells| && HasHeading(cells[i]) && out == NewCells(cells, colors).cells
    requires before == NewCells(cells[..i], colors).table && after == NewCells(cells[..i + 1], colors).table
    requires lines == HeadingLines(cells[i].source)
    ensures |lines| > 0 && |after| == |before| + |lines|
    ensures out[i] == AnchoredCell(cells[i], ParseHeading(lines[|lines| - 1], |after| - 1), colors)
  {
    NewCellsAtHeading(cells, colors, i, out, before, after);
    ExtractAllEntry(cells[i].source, before, |lines| - 1, after, lines);
  }

  /** The ordinal of a later heading cell's anchor is larger. */
  lemma AnchorOrdinalsIncrease(cells: seq<Cell>, colors: seq<string>, i: nat, j: nat)
    requires i < j < |cells| && HasHeading(cells[i]) && HasHeading(cells[j])
    ensures |NewCells(cells[..i + 1], colors).table| < |NewCells(cells[..j + 1], colors).table|
  {
    var out := NewCells(cells, colors).cells;
    var ti := NewCells(cells[..i + 1], colors).table;
    var tj := NewCells(cells[..j], colors).table;
    assert cells[..j][..i + 1] == cells[..i + 1];
    NewCellsPrefix(cells[..j], colors, i + 1);
    NewCellsAtHeading(cells, colors, i, out, NewCells(cells[..i], colors).table, ti);
    NewCellsAtHeading(cells, colors, j, out, tj, NewCells(cells[..j + 1], colors).table);
    assert |ti| - 1 in tj;
  }

  /**
   * The anchor a heading cell is given (that of the last entry its `#`
   * lines added) reads back as the key of that entry.
   */
  lemma LastAnchorKey(cells: seq<Cell>, colors: seq<string>, i: nat, t: Table)
    requires i < |cells| && HasHeading(cells[i]) && t == NewCells(cells[..i + 1], colors).table
    ensures |t| - 1 in t
    ensures var digits := LastSegment(t[|t| - 1].anchor, '_');
      AllDigits(digits) && DecimalValue(digits) == |t| - 1
  {
    NewCellsAtHeading(cells, colors, i, NewCells(cells, colors).cells, NewCells(cells[..i], colors).table, t);
    NewCellsKeyedAnchors(cells[..i + 1], colors);
    EntryAnchorKey(t, |t| - 1);
  }

  lemma EntryAnchorKey(t: Table, k: nat)
    requires KeyedAnchors(t) && k in t
    ensures var digits := LastSegment(t[k].anchor, '_');
      AllDigits(digits) && DecimalValue(digits) == k
  {
    AnchorKeyRoundTrip(t[k].title, k);
  }

  /**
   * The ordinal read back from a heading cell's anchor is smaller than the
   * one read back from the anchor of any later heading cell.
   */
  lemma AnchorKeysIncrease(cells: seq<Cell>, colors: seq<string>, i: nat, j: nat, ti: Table, tj: Table)
    requires i < j < |cells| && HasHeading(cells[i]) && HasHeading(cells[j])
    requires ti == NewCells(cells[..i + 1], colors).table && tj == NewCells(cells[..j + 1], colors).table
    ensures |ti| - 1 in ti && |tj| - 1 in tj
    ensures var ki := LastSegment(ti[|ti| - 1].anchor, '_');
      var kj := LastSegment(tj[|tj| - 1].anchor, '_');
      AllDigits(ki) && AllDigits(kj) && DecimalValue(ki) < DecimalValue(kj)
  {
    LastAnchorKey(cells, colors, i, ti);
    LastAnchorKey(cells, colors, j, tj);
    AnchorOrdinalsIncrease(cells, colors, i, j);
  }

  // ------------------------------------------------------- the document

  /**
   * Each heading cell's anchor line names the anchor of a table entry, and
   * the contents cell's line for that entry links to it.
   */
  lemma HeadingCellLinked(cells: seq<Cell>, colors: seq<string>, tocId: string, i: nat,
                          doc: seq<Cell>, t: Table, k: int)
    requires i < |cells| && HasHeading(cells[i])
    requires doc == DressedCells(cells, colors, tocId) && t == NewCells(cells, colors).table
    requires k == |NewCells(cells[..i + 1], colors).table| - 1
    ensures k in t
    ensures |doc[i + 1].source| > 0 && doc[i + 1].source[0] == AnchorTag(t[k].anchor)
    ensures doc[0].source[k + 1] == FormatTitleIndex(t[k])
  {
    var whole := NewCells(cells, colors);
    var after := NewCells(cells[..i + 1], colors).table;
    NewCellsAtHeading(cells, colors, i, whole.cells, NewCells(cells[..i], colors).table, after);
    NewCellsPrefix(cells, colors, i + 1);
    assert k in after && k in t && t[k] == after[k];
    assert doc[i + 1] == whole.cells[i];
    assert doc[0] == ContentsCell(t, tocId);
  }

  /** Cells without headings go through the pass untouched and leave the table empty. */
  lemma {:induction false} NoHeadingsPassThrough(cells: seq<Cell>, colors: seq<string>)
    requires forall i :: 0 <= i < |cells| ==> !HasHeading(cells[i])
    ensures NewCells(cells, colors) == Pass(map[], cells)
  {
    if cells != [] {
      var pre := cells[..|cells| - 1];
      NoHeadingsPassThrough(pre, colors);
      assert pre + [cells[|cells| - 1]] == cells;
    }
  }

  /** No output cell of the pass has a heading: a rewritten heading cell starts with its anchor line. */
  lemma OutputCellHasNoHeading(cells: seq<Cell>, colors: seq<string>, i: nat, out: seq<Cell>)
    requires i < |cells| && out == NewCells(cells, colors).cells
    ensures !HasHeading(out[i])
  {
    var before := NewCells(cells[..i], colors).table;
    var after := NewCells(cells[..i + 1], colors).table;
    if HasHeading(cells[i]) {
      NewCellsAtHeading(cells, colors, i, out, before, after);
    } else {
      NewCellsAtPlain(cells, colors, i, out, before, after);
    }
  }

  /** No cell of a rewritten document starts with `#`: anchor lines start with `<`, the header with a space. */
  lemma DressedCellsHaveNoHeading(cells: seq<Cell>, colors: seq<string>, tocId: string)
    ensures var doc := DressedCells(cells, colors, tocId);
      forall i :: 0 <= i < |doc| ==> !HasHeading(doc[i])
  {
    var doc := DressedCells(cells, colors, tocId);
    var out := NewCells(cells, colors).cells;
    assert doc == [doc[0]] + out;
    forall i | 0 <= i < |out|
      ensures !HasHeading(out[i])
    {
      OutputCellHasNoHeading(cells, colors, i, out);
    }
  }

  /**
   * Running the rewriter again on its own output changes no cell and
   * records no heading: it only puts another, empty, contents cell in front.
   */
  lemma RerunAddsOnlyEmptyContents(cells: seq<Cell>, colors: seq<string>, tocId: string,
                                   colors2: seq<string>, tocId2: string)
    ensures var doc := DressedCells(cells, colors, tocId);
      NewCells(doc, colors2) == Pass(map[], doc)
      && DressedCells(doc, colors2, tocId2) == [ContentsCell(map[], tocId2)] + doc
  {
    DressedCellsHaveNoHeading(cells, colors, tocId);
    NoHeadingsPassThrough(DressedCells(cells, colors, tocId), colors2);
  }

  /** A notebook without markdown cells only gains a contents cell holding just the header. */
  lemma NoMarkdownDocument(cells: seq<Cell>, colors: seq<string>, tocId: string)
    requires forall i :: 0 <= i < |cells| ==> cells[i].cellType != "markdown"
    ensures DressedCells(cells, colors, tocId) == [ContentsCell(map[], tocId)] + cells
    ensures ContentsCell(map[], tocId).source == [ContentsHeader]
  {
    NoHeadingsPassThrough(cells, colors);
  }

  // -------------------------------------------------------- output name

  /** `.ipynb` cannot start inside `stem` when `stem` holds none: it has a single `.`. */
  lemma SuffixOnlyAtEnd(stem: string)
    requires forall i :: 0 <= i <= |stem| ==> !OccursAt(stem, ".ipynb", i)
    ensures forall i :: 0 <= i < |stem| ==> !OccursAt(stem + ".ipynb", ".ipynb", i)
  {
    var s := stem + ".ipynb";
    forall i | 0 <= i < |stem|
      ensures !OccursAt(s, ".ipynb", i)
    {
      if i + 6 <= |stem| {
        assert !OccursAt(stem, ".ipynb", i);
        assert s[i..i + 6] == stem[i..i + 6];
      } else if i + 6 <= |s| {
        var d := |stem| - i;
        assert s[i..i + 6][d] == s[|stem|] == '.';
        assert ".ipynb"[d] != '.';
      }
    }
  }

  /** `nb.ipynb` is saved as `nb_chulo.ipynb` when `nb` itself holds no `.ipynb`. */
  lemma SavedNameOfNotebook(stem: string)
    requires forall i :: 0 <= i <= |stem| ==> !OccursAt(stem, ".ipynb", i)
    ensures SavedName(stem + ".ipynb") == stem + "_chulo.ipynb"
  {
    var s := stem + ".ipynb";
    var r := SplitHead(s, ".ipynb");
    SuffixOnlyAtEnd(stem);
    assert s[|stem|..|stem| + 6] == ".ipynb";
    assert OccursAt(s, ".ipynb", |stem|);
    assert r == s[..|stem|] == stem;
  }

  /** A name without `.ipynb` anywhere just gets `_chulo.ipynb` appended. */
  lemma SavedNameWithoutSuffix(file: string)
    requires forall i :: 0 <= i <= |file| ==> !OccursAt(file, ".ipynb", i)
    ensures SavedName(file) == file + "_chulo.ipynb"
  {
  }
}
