# Dressing up a Jupyter notebook: headings, anchors and a table of contents

`src/my_dress_up_jupyter.py` rewrites a Jupyter notebook. It walks the cells once. For each
markdown cell whose first source line starts with `#`, it records every `#` line of that cell
in a heading table under the next ordinal (title, level, anchor). It then replaces the cell's
first line with a rebuilt heading, optionally wrapped in a colour span, and puts an HTML anchor
line in front of it. After the pass it builds a "Table of Contents" markdown cell with one
indented link per table entry. The document's `cells` become that contents cell followed by the
processed cells.

The Dafny project has three modules:

- `PyStr` (`pystr.dfy`): the Python string operations the rewriter uses, written over `string`.
  These are `startswith`, counting a character (`len(re.findall(c, s))`), slicing, repetition,
  `rstrip()`, one-character `replace`, `str(n)` and `split(sep)[0]`. It also holds reference definitions
  used only to state properties (`DecimalValue`, `LastSegment`, `OccursAt`).
- `DressUp` (`dress_up.dfy`): cells, heading entries and the heading table, with the rewriter's
  operations.
  - The two loops `extract_info` and `generate_contents` are methods, and so is the cell pass
    `generate_new_cells`. Each is proved equal to a specification function: `ExtractAll`,
    `ContentsCell` and `NewCells`.
  - The document is a class `Notebook`. `create_new_document` overwrites its `cells` field.
- `DressUpProperties` (`properties.dfy`): lemmas about the specification functions.
  - Anchors are pairwise distinct, and each one carries its own ordinal.
  - Every heading cell's anchor line matches the link in the contents cell.
  - The table holds one entry per `#` line.
  - The output holds no heading cell, so a second run changes no cell.
  - The rewriter's quirks are proved as it has them.

Three behaviours of the code are worth stating outright:

- A contents line keeps the title's trailing newline inside the brackets: `# Intro\n` gives
  `+ [Intro\n](#Intro_0)\n` (`TitleKeepsNewline`, `FormatTitleIndexFields`).
- A second run changes no cell. A rewritten heading cell starts with its anchor line, so no cell
  qualifies on a second run, and the only change is another contents cell with just the header
  (`RerunAddsOnlyEmptyContents`).
- The link target is not escaped: it is the anchor wrapped in `(#`…`)`. The escaping in the
  source only builds the pattern that matches the anchor.

## Model

| member | source | states |
|---|---|---|
| PyStr.Count | src/my_dress_up_jupyter.py:68 | the number of occurrences of a character is at most the length, and is zero exactly when the character does not occur |
| PyStr.Repeat | src/my_dress_up_jupyter.py:52 | `c * n` has length `n` and every character is `c` |
| PyStr.RStripIsLongestPrefix | src/my_dress_up_jupyter.py:70 | `rstrip()` keeps a prefix that is empty or ends in a non-space, and everything it removed is whitespace |
| PyStr.ReplacePointwise | src/my_dress_up_jupyter.py:70 | `replace(' ', '_')` keeps the length, turns every space into `_` and leaves every other character in place |
| PyStr.Str | src/my_dress_up_jupyter.py:70 | `str(n)` is the canonical decimal numeral of `n`: a non-empty string of digits with no leading zero (except `0` itself), which `StrRoundTrip` reads back as `n` |
| PyStr.StrRoundTrip | src/my_dress_up_jupyter.py:70 | reading the digits of `str(n)` back gives `n` |
| PyStr.StrInjective | src/my_dress_up_jupyter.py:70 | different ordinals print differently |
| PyStr.SplitHead | src/my_dress_up_jupyter.py:196 | `split('.ipynb')[0]` is the prefix before the first occurrence of the separator, or the whole name when there is none |
| DressUp.Maquillate | src/my_dress_up_jupyter.py:10-23 | the title wrapped in a span coloured by `colors[level % len(colors)]`; its properties are stated by `MaquillateCycles` and `MaquillateRedBlue` |
| DressUpProperties.MaquillateCycles | src/my_dress_up_jupyter.py:22-23 | the colour is chosen by level modulo the number of colours, so levels `len(colors)` apart get the same span |
| DressUpProperties.MaquillateRedBlue | src/my_dress_up_jupyter.py:10-23 | with colours red and blue, levels 0, 1 and 2 are wrapped in red, blue and red spans |
| DressUp.CreateSourceAnchor | src/my_dress_up_jupyter.py:28-53 | the new source is one line longer: the anchor line, then the first line replaced by `level + 1` hashes, a space and the possibly coloured title, then the other lines unchanged |
| DressUpProperties.HeadingLineReparses | src/my_dress_up_jupyter.py:52 | without colours, the rebuilt heading line is read back with the same level and title when the title has no `#` |
| DressUp.ParseHeading | src/my_dress_up_jupyter.py:68-70 | the entry read from one `#` line; what it yields is stated by `ParseHeadingLine`, `TitleKeepsNewline` and `HashInTitleShiftsTitle` |
| DressUp.MakeAnchor | src/my_dress_up_jupyter.py:70 | the anchor of an entry; its properties are stated by `AnchorKeyRoundTrip`, `AnchorsDistinct` and `AnchorHasNoSpace` |
| DressUpProperties.ParseHeadingLine | src/my_dress_up_jupyter.py:67-70 | `n + 1` hashes, a space and a `#`-free title give level `n`, that title, and the anchor made from the title and the key |
| DressUpProperties.TitleKeepsNewline | src/my_dress_up_jupyter.py:69-70 | a heading line's trailing newline stays in the title, while the anchor is made without it |
| DressUpProperties.HashInTitleShiftsTitle | src/my_dress_up_jupyter.py:68-69 | a `#` inside the title raises the level by one for each `#` and cuts that many characters off the front of the title, so the title changes |
| DressUp.HeadingLines | src/my_dress_up_jupyter.py:66-67 | the `#` lines of a source are no more than its lines, all start with `#`, and there is at least one when the first line starts with `#`; the converse is `HeadingLinesComplete` and the filter is pinned down by `HeadingLinesSingle` and `HeadingLinesConcat` |
| DressUp.HeadingLinesSingle | src/my_dress_up_jupyter.py:66-67 | a single line is kept exactly when it starts with `#` |
| DressUp.HeadingLinesConcat | src/my_dress_up_jupyter.py:66-67 | the `#` lines of `a + b` are those of `a` followed by those of `b`, so the lines keep their source order |
| DressUp.HeadingLinesComplete | src/my_dress_up_jupyter.py:66-67 | every line of the source that starts with `#` is among the heading lines |
| DressUp.AppendEntry | src/my_dress_up_jupyter.py:71 | storing under `len(titles)` grows the table by one and keeps every earlier entry and every key-suffixed anchor |
| DressUp.ExtractAll | src/my_dress_up_jupyter.py:55-72 | a table with keys `0..n-1` gains one entry per `#` line and keeps its earlier entries, and every anchor still ends in its own key |
| DressUp.ExtractInfo | src/my_dress_up_jupyter.py:55-72 | the loop over the lines leaves exactly the table `ExtractAll` describes |
| DressUpProperties.ExtractAllEntry | src/my_dress_up_jupyter.py:66-71 | the `j`-th `#` line is stored under `len(titles) + j`, parsed with that key |
| DressUpProperties.AnchorKeyRoundTrip | src/my_dress_up_jupyter.py:70 | the digits after an anchor's last `_` read back as its ordinal |
| DressUpProperties.AnchorsDistinct | src/my_dress_up_jupyter.py:70 | anchors made under different ordinals differ, whatever the titles |
| DressUpProperties.AnchorHasNoSpace | src/my_dress_up_jupyter.py:70 | an anchor contains no space |
| DressUp.ContentsLines | src/my_dress_up_jupyter.py:112-114 | the contents lines are, in ascending key order, one formatted line per key |
| DressUp.FormatTitleIndex | src/my_dress_up_jupyter.py:74-95 | one contents line; its layout is stated by `FormatTitleIndexFields` |
| DressUpProperties.FormatTitleIndexFields | src/my_dress_up_jupyter.py:74-95 | a contents line is `level` tabs, `+ [`, the title, then `](#anchor)` and a newline |
| DressUp.ContentsCell | src/my_dress_up_jupyter.py:108-116 | the contents cell is a markdown cell with the given id and empty metadata, whose source is the header followed by the line of each entry in key order |
| DressUp.GenerateContents | src/my_dress_up_jupyter.py:98-116 | the loop over the sorted keys builds exactly `ContentsCell` |
| DressUp.AnchoredCell | src/my_dress_up_jupyter.py:164-167 | a rewritten cell keeps its type, id, metadata and other keys, and only its source is replaced |
| DressUp.Step | src/my_dress_up_jupyter.py:148-168 | one iteration keeps a table with keys `0..n-1` and appends exactly one output cell, keeping the earlier ones |
| DressUp.NewCells | src/my_dress_up_jupyter.py:135-169 | the pass yields a table with keys `0..n-1` and one output cell per input cell |
| DressUp.HeadingStep | src/my_dress_up_jupyter.py:158-164 | after a heading cell's lines are extracted the last key exists, so the `number < 0` branch cannot be taken; its second clause only unfolds the heading branch of `Step`, and the pass-level statement is `NewCellsAtHeading` |
| DressUp.GenerateNewCells | src/my_dress_up_jupyter.py:135-169 | the loop over the cells returns exactly the table and cells of `NewCells` |
| DressUpProperties.PlainStep | src/my_dress_up_jupyter.py:149-156 | a non-markdown cell, an empty one, or one not starting with `#` is appended unchanged and leaves the table alone; a helper that unfolds one branch of `Step`, whose pass-level statement is `NewCellsAtPlain` |
| DressUpProperties.StepKeepsEntries | src/my_dress_up_jupyter.py:158 | an iteration keeps every entry already in the table and keeps all anchors key-suffixed |
| DressUpProperties.NewCellsKeyedAnchors | src/my_dress_up_jupyter.py:70-71 | every anchor in the final table is the title's slug followed by `_` and the entry's own key |
| DressUpProperties.NewCellsUniqueAnchors | src/my_dress_up_jupyter.py:135-169 | no two entries of the final table share an anchor |
| DressUpProperties.NewCellsTableSize | src/my_dress_up_jupyter.py:154-158 | the final table has one entry per `#` line of every heading cell, and no others |
| DressUpProperties.NewCellsPrefix | src/my_dress_up_jupyter.py:147-169 | processing more cells extends the output cells and keeps every table entry made so far |
| DressUpProperties.NewCellsCell | src/my_dress_up_jupyter.py:147-169 | an output cell is final as soon as its input cell has been processed |
| DressUpProperties.NewCellsAtPlain | src/my_dress_up_jupyter.py:149-156 | a cell without a heading comes out unchanged and adds no entry |
| DressUpProperties.NewCellsAtHeading | src/my_dress_up_jupyter.py:158-168 | a heading cell extends the table by its `#` lines and comes out rebuilt from the last entry added |
| DressUpProperties.AnchoredFromLastHeading | src/my_dress_up_jupyter.py:158-168 | a heading cell is rebuilt from the last `#` line in it, under the last key it added, so with several `#` lines the first line gets the last heading |
| DressUpProperties.AnchorOrdinalsIncrease | src/my_dress_up_jupyter.py:158-164 | the table after a later heading cell is strictly larger, so its last key is larger |
| DressUpProperties.LastAnchorKey | src/my_dress_up_jupyter.py:158-164 | the anchor a heading cell is given, that of the last entry it added, reads back as that entry's key |
| DressUpProperties.AnchorKeysIncrease | src/my_dress_up_jupyter.py:158-164 | the ordinal read back from a heading cell's anchor is smaller than the one read back from any later heading cell's anchor |
| DressUpProperties.NoHeadingsPassThrough | src/my_dress_up_jupyter.py:149-156 | when no cell is a heading cell, every cell passes through and the table stays empty |
| DressUpProperties.OutputCellHasNoHeading | src/my_dress_up_jupyter.py:51-52 | no output cell starts with `#`, because a rewritten cell starts with its anchor line |
| DressUp.DressedCells | src/my_dress_up_jupyter.py:129-132 | the new cell list is one longer than the old one |
| DressUp.Notebook.CreateNewDocument | src/my_dress_up_jupyter.py:118-133 | the document's cells become the contents cell followed by the processed cells, and nothing else in the document changes |
| DressUpProperties.HeadingCellLinked | src/my_dress_up_jupyter.py:129-132 | each heading cell's anchor line names a table entry's anchor, and the contents line for that entry links to it |
| DressUpProperties.DressedCellsHaveNoHeading | src/my_dress_up_jupyter.py:129-132 | no cell of the rewritten document starts with `#` |
| DressUpProperties.RerunAddsOnlyEmptyContents | src/my_dress_up_jupyter.py:118-133 | rewriting the output again changes no cell, records no heading, and only puts a header-only contents cell in front |
| DressUpProperties.NoMarkdownDocument | src/my_dress_up_jupyter.py:118-133 | a notebook without markdown cells only gains a contents cell holding the header |
| DressUp.SavedName | src/my_dress_up_jupyter.py:196-197 | the output file name; its properties are stated by `SavedNameOfNotebook` and `SavedNameWithoutSuffix` |
| DressUpProperties.SavedNameOfNotebook | src/my_dress_up_jupyter.py:196-197 | `nb.ipynb` is saved as `nb_chulo.ipynb` when `nb` holds no `.ipynb` |
| DressUpProperties.SavedNameWithoutSuffix | src/my_dress_up_jupyter.py:196-197 | a name without `.ipynb` just gets `_chulo.ipynb` appended |

## Left out

- `generate_corpus_id` (lines 6-8): the random uuid prefix is not modelled. The contents cell's id is a parameter (`tocId`, `cellId`).
- `enchular_ipynb`, the file and JSON I/O of `save_doc_enchulado`, and `cutiepy_nb` (lines 171-207) are not modelled. They read and write files, print, and call seaborn. Only the output-name computation of lines 196-197 is modelled (`SavedName`).
- Seaborn palettes (lines 183-187) are not modelled. Colours are opaque strings, and the empty sequence stands for both `None` and `[]`, as `if colors:` treats them alike.
- `format_title_index` (lines 74-95): only the net effect of the regular-expression substitution at lines 90-91 is modelled. The pattern always matches the whole anchor, so the anchor becomes `(#anchor)`. General regular expressions are not modelled.
- `Count` models `len(re.findall('#', line))` only for a single literal character.
- `ExtractInfo`: `extract_info` mutates the dict it is given and returns it (line 71). The model passes the table in as a value and returns the new one, so aliasing of that dict is not modelled. `generate_new_cells` creates its own dict (line 146) and only rebinds it to what `extract_info` returns.
- `GenerateNewCells`: `new_cell = cell` in the source is an alias, so the input cell's `source` is overwritten too. The model returns a new cell value and leaves the input list unchanged.
- `GenerateContents` requires that the table's keys are exactly `0..n-1`, which every table the pass builds satisfies (`NewCells`). Ascending sorted order is then counting up from 0. A dict with other keys is not modelled.
- Cells: the rewriter reads only `cell_type` and `source` (lines 149, 152), sets `id` and `metadata` only for the contents cell (lines 109-110), and of an existing cell it writes only `source` (line 167). The model gives every cell those four fields, plus an opaque `rest` map for the other keys. Of the document, only `cells` is modelled, plus an opaque `rest`.
- `Cell.source` is a list of lines (`seq<string>`). The notebook format also allows one string. For such a heading cell, `source[0]` (line 154) is a single character, `extract_info` iterates over characters (line 66), and `[full_term] + source` (line 51) raises `TypeError`. This case is not modelled.
- `DressUp.ParseHeading`, `DressUp.MakeAnchor`, `DressUp.FormatTitleIndex`, `DressUp.Maquillate`, `DressUp.SavedName`, `PyStr.RStrip` and `PyStr.Replace` carry no `ensures` of their own. What the source promises about them is stated by the lemmas in the table (`ParseHeadingLine`, `AnchorKeyRoundTrip`, `FormatTitleIndexFields`, `MaquillateCycles`, `SavedNameOfNotebook`, `RStripIsLongestPrefix`, `ReplacePointwise`).
- `DressUp.DressedCells` states only the length in its own contract. Its contents are stated by `CreateNewDocument`, `HeadingCellLinked` and `DressedCellsHaveNoHeading`.
