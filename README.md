# SteelPriceTool price-list extraction engine, in Dafny

This project models the engine that turns one steel supplier's price sheet
into rows of the upload template. It covers four parts.

- **Token normalisers** (`data_processor/utils.py`):
  - `format_thickness` writes every number of a thickness range as a decimal;
  - `normalize_length` converts a length to millimetres;
  - `parse_spec_cell` splits a specification cell into distinct specifications.
- **Layout strategies and dispatch** (`data_processor/strategies.py`,
  `extract_price_data` in `data_processor/core.py`):
  - there are three layouts: Zhengda galvanized pipe (specification, price,
    count), four-column (square, rectangular, thickness, price) and
    three-column (specification, thickness, price);
  - each layout has a `match` that finds its header row and an `extract`
    that walks every row and every block of the sheet;
  - while walking, `extract` remembers, per block column, the last
    specifications, sizes and piece counts it saw;
  - the first layout that matches extracts the sheet.
- **Template mapping** (`create_template_dataframe`). Each extracted record
  becomes one template row. The product name gains a square or rectangular
  tube suffix. The per-type table fills the four specification columns and
  the unit. A round pipe's model keeps only its bore, and the notes column
  is filled.
- **Ordering** (`process_file`, lines 426-464, and `_get_spec1_value`).
  Product names and models get first-appearance ranks, and specification 1
  is read as a number. Rows are then sorted stably by the three keys. The
  manufacturer override replaces the brand.

It also models the keyword-priority logic of `extract_all_info_from_file`:
product type, product name, pricing basis, brand, material and notes.

How the model is built:
- A sheet is a rectangular table of cells. A cell is `Empty`, `Text` or
  `Num`, and `Render(Empty)` is `"nan"`, as pandas prints it.
- Numbers are exact decimals (`Numbers.Dec`). Python's `float()` is modelled
  on plain decimal numerals: sign, digits, at most one dot.
- Each `extract` is a method with nested loops over rows and blocks. It is
  proved equal to a fold over the sheet (`Rows`, `RowBlocks`, `Block`), and
  the properties are proved about that fold.
- The maps that remember specifications, sizes and counts are `map<nat, …>`
  values that are local to each call, as they are in the source.
- Methods that compute a value are proved equal to a specification
  function; the properties are lemmas about that function. This covers
  `FormatThickness`, `ParseSpecCell`, `ComputeRanks`, `SortTemplate`,
  `CreateTemplate`, `ExtractAllInfo` and the `Match`/`Extract` pairs.

Behaviour of the code that the model reproduces, although it may surprise a user:
- **Text price cell.** A price cell holding text still yields a record, with
  price 0 (`float(price) if isinstance(...) else 0`); it is not treated as
  missing data.
- **`"6000mm"` is read as metres.** The source tries `m` before `mm`, and the
  model reproduces this (`Utils.MillimetresReadAsMetres`).
- **Sheets with no header.** Extraction fails on a sheet that has columns,
  at most six rows and no header the strategies recognise. The three-column
  fallback then reads header row 6, which does not exist; the model returns
  an explicit error (`Dispatch.PriceDataErr`).

## Model

| member | source | states |
|---|---|---|
| Utils.FormattedPiece | data_processor/utils.py:13-27 | a piece free of `-`/`－` renders to text free of them, so rejoining keeps the component count |
| Utils.FormattedPieces | data_processor/utils.py:11-28 | one rendered piece per piece, in order |
| Utils.FormattedThickness | data_processor/utils.py:6-7 | the empty string formats to the empty string |
| Utils.FormatPiece | data_processor/utils.py:14-27 | the try/except body gives the specified rendering of one piece |
| Utils.FormatPieces | data_processor/utils.py:11-28 | the loop appending to `formatted_parts` gives every piece's rendering, in order |
| Utils.FormatThickness | data_processor/utils.py:4-29 | `format_thickness` equals its specification `FormattedThickness` |
| Utils.ThicknessPieces | data_processor/utils.py:10-29 | splitting the result on dashes gives back exactly the rendered pieces of the input: the component count is preserved |
| Utils.PieceOfNumber | data_processor/utils.py:17-24 | a piece that parses as a number renders as that number's canonical text |
| Utils.PieceOfText | data_processor/utils.py:25-27 | a piece that does not parse is kept, stripped |
| Utils.NumeralPiece | data_processor/utils.py:17-24 | a canonical number's text renders to itself |
| Utils.FormattedPieceIdempotent | data_processor/utils.py:13-27 | rendering a piece twice equals rendering it once |
| Utils.PiecesIdempotent | data_processor/utils.py:11-28 | rendering the pieces twice equals rendering them once |
| Utils.FormattedThicknessIdempotent | data_processor/utils.py:4-29 | `format_thickness` is idempotent |
| Utils.IntegralThickness | data_processor/utils.py:21-22 | an integral thickness `n` formats as `n.0` |
| Utils.LengthToken | data_processor/utils.py:37 | a match is a non-empty run of digits and dots at the start of the text |
| Utils.NormalizeLength | data_processor/utils.py:31-57 | empty gives empty; an error happens only for a unit-suffixed token whose numeral does not parse |
| Utils.MillimetresReadAsMetres | data_processor/utils.py:37-43 | `"<n>mm"` is read as `n` metres, exactly like `"<n>m"` |
| Utils.NormalizeToken | data_processor/utils.py:37-45 | a unit-suffixed numeral gives the truncated value, times 1000 for metres |
| Utils.NormalizeBadToken | data_processor/utils.py:37-39 | a unit-suffixed token whose numeral does not parse raises |
| Utils.MetreToken | data_processor/utils.py:37-42 | `米`, `m` and `M` after a numeral are read as metres |
| Utils.MetresToMillimetres | data_processor/utils.py:37-43 | `n` metres normalise to `1000 * n` |
| Utils.BareLength | data_processor/utils.py:49-55 | a bare number below 20 is taken as metres, otherwise kept as millimetres |
| Utils.MalformedLength | data_processor/utils.py:37-39 | `a.b.c` followed by a unit raises |
| Utils.TwoDotsRejected | data_processor/utils.py:39 | a numeral with two dots does not parse |
| Utils.TightenWord | data_processor/utils.py:70 | text with no whitespace that does not end in `*` is copied unchanged, whatever follows it |
| Utils.TightenGap | data_processor/utils.py:70 | a run with no `*`, followed by neither whitespace nor `*`, is copied unchanged |
| Utils.TightenAroundStar | data_processor/utils.py:70 | `a * b` becomes `a*b`: the whitespace on both sides of the `*` is removed |
| Utils.TightenJoin | data_processor/utils.py:70 | specifications with no `*` at either end, joined by separator runs that may differ from gap to gap, are left unchanged |
| Utils.SpecPieces | data_processor/utils.py:74 | the pieces between separator runs contain no comma, full-width comma or whitespace |
| Utils.SpecPiecesAfterSeparator | data_processor/utils.py:74 | a separator run splits off an empty piece before what follows it |
| Utils.SpecPiecesAfterPiece | data_processor/utils.py:74 | a piece followed by nothing or by a separator is the first piece of the split |
| Utils.SpecPiecesJoin | data_processor/utils.py:74 | splitting pieces joined by separator runs, one run of its own per gap, gives back exactly those pieces, in order |
| Utils.SpecPiecesNoBreak | data_processor/utils.py:74 | no piece contains `<br>`, and the first piece starts the text |
| Utils.KeptPieces | data_processor/utils.py:79-81 | every kept piece is non-empty |
| Utils.KeptStep | data_processor/utils.py:79-83 | one loop step appends the stripped piece exactly when it is non-empty and not yet seen |
| Utils.UniqueStripped | data_processor/utils.py:77-85 | the `specs`/`seen` loop gives the distinct non-empty stripped pieces, in first-occurrence order |
| Utils.ParseSpecCell | data_processor/utils.py:59-85 | `parse_spec_cell` equals its specification `SpecValues` (empty cell gives `[]`), which `SpecValuesOfJoin` and `SpecValuesSpacedStar` tie to the text of the cell |
| Utils.KeptPiecesOfPieces | data_processor/utils.py:79-81 | non-empty pieces without whitespace are all kept, unchanged |
| Utils.SpecValuesOfJoin | data_processor/utils.py:59-85 | a cell listing distinct specifications, each gap its own run of commas, whitespace or line breaks, yields exactly those specifications, in order |
| Utils.SpecValuesMixedSeparators | data_processor/utils.py:59-85 | a cell `a, b\nc` of three distinct specifications, mixing ", " and a line break as in "30*30, 40*40\n50*50", yields `[a, b, c]` |
| Utils.SampleSpecsListed | data_processor/utils.py:74 | "30*30", "40*40" and "50*50" are specifications as they stand between separators |
| Utils.SpecValuesSpacedStar | data_processor/utils.py:59-85 | a cell `a * b` yields the one specification `a*b` |
| Utils.SpecValuesClean | data_processor/utils.py:59-85 | every specification is non-empty and free of separators and `<br>` |
| Utils.KeptPiecesArePieces | data_processor/utils.py:79-83 | the kept specifications are exactly the non-empty pieces |
| Seqs.Distinct | data_processor/utils.py:77-83 | the de-duplicated list holds only input elements, pairwise distinct |
| Seqs.DistinctCovers | data_processor/utils.py:77-83 | every input element survives de-duplication |
| Seqs.DistinctOrder | data_processor/utils.py:77-83 | de-duplication keeps first-occurrence order |
| Seqs.DistinctOfDistinct | data_processor/utils.py:77-83 | a list without repetitions is left unchanged by de-duplication |
| Text.Split | data_processor/utils.py:10 | at least one piece, none containing a separator |
| Text.StripIdempotent | data_processor/utils.py:14 | stripping twice equals stripping once |
| Numbers.ParseFloat | data_processor/utils.py:17 | a parsed number is canonical, and negative only when the text has a `-` |
| Numbers.NumberText | data_processor/utils.py:24 | the text of a number has a `-` exactly when the number is negative |
| Numbers.ParseNumberText | data_processor/utils.py:17-24 | parsing the text of a number gives the number back |
| Numbers.NatParse | data_processor/utils.py:17-22 | the digits of `n` parse to `n` |
| Numbers.Times1000 | data_processor/utils.py:43 | the value is exactly 1000 times the input |
| Cells.PriceValue | data_processor/strategies.py:89 | a price cell that is not a number is read as 0 |
| Sheet.Renderings | data_processor/strategies.py:36 | one rendering per cell, in column order |
| Sheet.HeaderTexts | data_processor/strategies.py:24-29 | header texts are non-empty and stripped, at most one per column |
| Sheet.EmptyHeaderIsNan | data_processor/strategies.py:26-28 | an empty header cell contributes `"nan"` |
| Sheet.ColumnHeaders | data_processor/strategies.py:22-29 | reading the headers fails exactly when the sheet has columns and the header row does not exist |
| Sheet.GetColumnHeaders | data_processor/strategies.py:22-29 | the column loop equals `ColumnHeaders` |
| Sheet.FirstLabelledRow | data_processor/strategies.py:35-39 | the first row below the limit containing all labels, or none when no such row exists |
| Sheet.ScanForLabels | data_processor/strategies.py:35-39 | the scan with early return finds that first labelled row |
| Sheet.Triples | data_processor/strategies.py:52 | the number of start columns 0, 3, 6, … with `start + 2 < width` |
| Sheet.Quads | data_processor/strategies.py:115 | the number of start columns 0, 4, 8, … with `start + 3 < width` |
| SpecMemory.InUse | data_processor/strategies.py:178-180 | the specifications used are the ones remembered after the cell is read; none only when neither the cell nor the memory has any |
| SpecMemory.RememberElsewhere | data_processor/strategies.py:121-127 | remembering in one column leaves every other column's memory alone |
| SpecMemory.ReadSpecColumn | data_processor/strategies.py:178-180 | reading a specification cell updates the memory and gives the list in use |
| SpecMemory.ThicknessOf | data_processor/strategies.py:182 | the thickness is missing exactly when its cell is empty |
| SpecMemory.PriceOf | data_processor/strategies.py:183 | the price is missing exactly when its cell is empty |
| SpecMemory.Records | data_processor/strategies.py:185-192 | records exist exactly when specifications, thickness and price are all present: one per specification, in order, sharing thickness and price |
| SpecMemory.EmitSpecRecords | data_processor/strategies.py:186-192 | the inner `for spec in specs_to_use` loop gives one record per specification |
| SpecMemory.EmitRecords | data_processor/strategies.py:185-192 | the emission step equals `Records` |
| SpecMemory.RememberSound | data_processor/strategies.py:179-180 | remembering clean specifications keeps the memory clean |
| SpecMemory.RecordsSound | data_processor/strategies.py:185-192 | records built from clean specifications and a formatted thickness are clean |
| SpecMemory.ThicknessOfFormatted | data_processor/strategies.py:182-187 | every emitted thickness is already in `format_thickness` form |
| Zhengda.ZhengdaLayout | data_processor/strategies.py:34-39 | the first of the first 20 rows naming `正大热镀` and `规格`, data starting on the next row; none when no such row exists |
| Zhengda.Match | data_processor/strategies.py:34-39 | the scan equals `ZhengdaLayout` |
| Zhengda.ReadSpec | data_processor/strategies.py:69-83 | an empty specification is missing; one with `*` carries its own size |
| Zhengda.Emit | data_processor/strategies.py:66-91 | at most one record, carrying the remembered count and the cell's price (what the record holds: `SizedEmits`, `SizedRecord`, `BareUsesSize`, `BareRecordSize`) |
| Zhengda.EmitWhen | data_processor/strategies.py:66-83 | a record is emitted exactly when the specification is non-empty, the price truthy, and the specification has `*` or a size is remembered |
| Zhengda.Block | data_processor/strategies.py:53-91 | a block yields at most one record |
| Zhengda.BlockStep | data_processor/strategies.py:53-91 | the block body equals `Block` |
| Zhengda.RowStep | data_processor/strategies.py:52-91 | the block loop over a row equals `RowBlocks` |
| Zhengda.RowsSkip | data_processor/strategies.py:49 | a row of empty cells changes nothing |
| Zhengda.RowsNext | data_processor/strategies.py:47-52 | any other row adds what its block loop yields |
| Zhengda.ExtractRows | data_processor/strategies.py:47-91 | the row loop equals the fold `Rows` |
| Zhengda.Extract | data_processor/strategies.py:41-93 | `extract` equals `ZhengdaExtraction` |
| Zhengda.ReadSpecSound | data_processor/strategies.py:69-85 | a sized reading comes from a specification with `*`, and every thickness read is in `format_thickness` form |
| Zhengda.CutTableSound | data_processor/strategies.py:52-60 | every block of the sheet reads soundly and carries its own count cell |
| Zhengda.EmitSound | data_processor/strategies.py:66-91 | an emitted record's specification contains `*` and its count, if any, is filled |
| Zhengda.BlockSound | data_processor/strategies.py:60-91 | a block keeps only filled counts and emits sound records |
| Zhengda.RowBlocksSound | data_processor/strategies.py:52-91 | the same over a row |
| Zhengda.RowsSound | data_processor/strategies.py:47-91 | the same over the rows |
| Zhengda.ZhengdaRecordsSound | data_processor/strategies.py:41-93 | every extracted record has `*` in its specification, a formatted thickness and a filled count or none |
| Zhengda.RowBlocksMemoryCounts | data_processor/strategies.py:60-62 | a row's remembered counts depend only on its count cells |
| Zhengda.RowsMemoryCounts | data_processor/strategies.py:47-62 | the same over the rows |
| Zhengda.RowCountsAt | data_processor/strategies.py:60-62 | within a row, a filled count cell replaces that block's count |
| Zhengda.RowsCountsTrack | data_processor/strategies.py:47-64 | the remembered count of a block is the nearest filled count cell above |
| Zhengda.CountsTrack | data_processor/strategies.py:44-64 | after any number of rows, a block's count is the nearest filled count cell above, from the data start on |
| Zhengda.BlockRecordCount | data_processor/strategies.py:64-90 | a record carries its block's count as remembered after the count cell is read |
| Zhengda.CutSetsSize | data_processor/strategies.py:55-72 | a block sets a size exactly when its specification cell holds `*` and its price cell is truthy; the size is the stripped text before the first `*` |
| Zhengda.EmitSizes | data_processor/strategies.py:66-72 | a block changes the remembered size only at its own column, and only when it sets a size |
| Zhengda.RowBlocksSizesAt | data_processor/strategies.py:52-72 | within a row, block `j`'s remembered size is replaced only by block `j` itself |
| Zhengda.RowsSizesTrack | data_processor/strategies.py:47-72 | the remembered size of a block is the one set by the nearest non-empty row above whose block sets a size |
| Zhengda.SizesTrack | data_processor/strategies.py:44-72 | after any number of rows of the sheet, a block's remembered size is that nearest size, from the data start on |
| Zhengda.BareUsesSize | data_processor/strategies.py:66-81 | a bare specification with a truthy price leaves the sizes alone and yields `size*spec` exactly when the remembered size is non-empty |
| Zhengda.BareRecordSize | data_processor/strategies.py:47-91 | in the fold, a bare specification with a truthy price yields a record exactly when the nearest size set above in its block is non-empty, and the record's specification is that size, `*` and the bare text |
| Zhengda.SizedEmits | data_processor/strategies.py:66-91 | a specification with `*` and a truthy price yields exactly one record holding the whole specification and the reading's thickness, and its size becomes the block's remembered size |
| Zhengda.SizedRecord | data_processor/strategies.py:57-91 | block `j` of a row whose specification cell holds `*` and whose price cell is truthy yields exactly one record: specification = the cell's stripped text, thickness = format_thickness of the stripped text after the first `*`, price = the price cell's, count = the block's count after its count cell is read; the stripped text before the first `*` becomes the block's size |
| FourColumn.FourColumnLayout | data_processor/strategies.py:98-103 | the first of the first 20 rows naming `方管`, `矩管`, `厚度` and `价格`; none when no such row exists |
| FourColumn.Match | data_processor/strategies.py:98-103 | the scan equals `FourColumnLayout` |
| FourColumn.Cut | data_processor/strategies.py:115-116 | a row cuts into `Quads(width)` blocks |
| FourColumn.BlockEffect | data_processor/strategies.py:119-141 | records exist exactly when the square-then-rectangular list, thickness and price are present: one per specification; other columns' memory unchanged |
| FourColumn.BlockStep | data_processor/strategies.py:116-141 | the block body equals `Block` |
| FourColumn.RowBlocksNext | data_processor/strategies.py:115 | one more block appends what it yields |
| FourColumn.RowStep | data_processor/strategies.py:115-141 | the block loop over a row equals `RowBlocks` |
| Sheet.QuadsExit | data_processor/strategies.py:115 | the block loop stops after exactly `Quads(width)` blocks |
| FourColumn.RowsSkip | data_processor/strategies.py:112 | a row of empty cells changes nothing |
| FourColumn.RowsNext | data_processor/strategies.py:110-115 | any other row adds what its block loop yields |
| FourColumn.ExtractRows | data_processor/strategies.py:110-141 | the row loop equals the fold `Rows` |
| FourColumn.Extract | data_processor/strategies.py:105-143 | `extract` equals `FourColumnExtraction` |
| FourColumn.CutTableSound | data_processor/strategies.py:119-136 | every block lists clean specifications and a formatted thickness |
| FourColumn.BlockSound | data_processor/strategies.py:119-141 | a block keeps the memory clean and emits clean records |
| FourColumn.RowBlocksSound | data_processor/strategies.py:115-141 | the same over a row |
| FourColumn.RowsSound | data_processor/strategies.py:110-141 | the same over the rows |
| FourColumn.FourColumnRecordsSound | data_processor/strategies.py:105-143 | every extracted record has a clean specification, a formatted thickness and no count |
| FourColumn.RowBlocksMemory | data_processor/strategies.py:121-126 | a row's memory depends only on its specification cells |
| FourColumn.RowMemoryAt | data_processor/strategies.py:121-127 | within a row, a column's list replaces its memory only when non-empty |
| FourColumn.RowsSpecsTrack | data_processor/strategies.py:110-127 | a column's memory is the nearest non-empty list above |
| FourColumn.CutTableSpecs | data_processor/strategies.py:120-141 | a block's square and rectangular lists are those of its two cells; its thickness is format_thickness of its third cell and its price that of its fourth, each missing exactly when its cell is empty |
| FourColumn.SpecsTrack | data_processor/strategies.py:108-127 | after any number of rows, each specification column remembers the nearest non-empty list above, from the data start on |
| ThreeColumn.ThreeColumnLayout | data_processor/strategies.py:148-162 | the first of 20 rows naming `规格`, `厚度`, `价格`; else the first of 10 naming `规格`; else header 6, data 7; it always matches |
| ThreeColumn.Match | data_processor/strategies.py:148-162 | the two scans and the fallback equal `ThreeColumnLayout` |
| ThreeColumn.Cut | data_processor/strategies.py:174-175 | a row cuts into `Triples(width)` blocks |
| ThreeColumn.CutTable | data_processor/strategies.py:169-174 | one list of blocks per row |
| ThreeColumn.BlockEffect | data_processor/strategies.py:176-192 | records exist exactly when the list in use, thickness and price are present: one per specification; other columns' memory unchanged |
| ThreeColumn.BlockStep | data_processor/strategies.py:175-192 | the block body equals `Block` |
| ThreeColumn.RowBlocksNext | data_processor/strategies.py:174 | one more block appends what it yields |
| ThreeColumn.RowStep | data_processor/strategies.py:174-192 | the block loop over a row equals `RowBlocks` |
| ThreeColumn.RowsSkip | data_processor/strategies.py:171 | a row of empty cells changes nothing |
| ThreeColumn.RowsNext | data_processor/strategies.py:169-174 | any other row adds what its block loop yields |
| ThreeColumn.ExtractRows | data_processor/strategies.py:169-192 | the row loop equals the fold `Rows` |
| ThreeColumn.Extract | data_processor/strategies.py:164-194 | `extract` equals `ThreeColumnExtraction` |
| ThreeColumn.CutTableSound | data_processor/strategies.py:178-187 | every block lists clean specifications and a formatted thickness |
| ThreeColumn.BlockSound | data_processor/strategies.py:178-192 | a block keeps the memory clean and emits clean records |
| ThreeColumn.RowBlocksSound | data_processor/strategies.py:174-192 | the same over a row |
| ThreeColumn.RowsSound | data_processor/strategies.py:169-192 | the same over the rows |
| ThreeColumn.ThreeColumnRecordsSound | data_processor/strategies.py:164-194 | every extracted record has a clean specification, a formatted thickness and no count |
| ThreeColumn.RowBlocksSpecsAt | data_processor/strategies.py:178-180 | within a row, a block's list replaces its memory only when non-empty |
| ThreeColumn.RowsSpecsTrack | data_processor/strategies.py:169-180 | a block's memory is the nearest non-empty list above |
| ThreeColumn.CutTableSpecs | data_processor/strategies.py:178-191 | a block's list is that of its specification cell; its thickness is format_thickness of its second cell and its price that of its third, each missing exactly when its cell is empty |
| ThreeColumn.SpecsTrack | data_processor/strategies.py:167-180 | after any number of rows, each specification column remembers the nearest non-empty list above, from the data start on |
| Dispatch.Choose | data_processor/core.py:155-161 | Zhengda exactly when it matches, four-column exactly when Zhengda does not and it does, else three-column, each at the header it found |
| Dispatch.ExtractPriceData | data_processor/core.py:155-161 | the strategy loop equals extraction by the chosen strategy |
| Dispatch.HeaderNamesSpec | data_processor/strategies.py:152-158 | a full three-column header row also names the specification |
| Dispatch.PriceDataErr | data_processor/core.py:155-161 | extraction fails exactly on sheets with columns, at most six rows and no recognised header row |
| Mapper.DimensionMatch | data_processor/core.py:218 | a match is two non-empty digit runs, the first starting the specification |
| Mapper.ShapeSuffix | data_processor/core.py:218-231 | the suffix is `方管`, `矩管` or empty; empty exactly when there is no `a*b`, no `方` and no `矩` |
| Mapper.DimensionsRead | data_processor/core.py:218 | `a*b…` is read as the dimensions `a` and `b` |
| Mapper.SquareWhenEqual | data_processor/core.py:222-227 | `a*b` gives `方管` exactly when `a` and `b` are equal numbers, otherwise `矩管` |
| Mapper.BlackTubeName | data_processor/core.py:237-239 | the base name `黑` becomes `黑方管` or `黑矩管` |
| Mapper.GalvanizedPipeName | data_processor/core.py:246-249 | a `热镀`/`镀锌` pipe is always named `镀锌管` |
| Mapper.NameShowsShape | data_processor/core.py:236-244 | otherwise the name contains the suffix read from the specification |
| Mapper.PlateWidthBeforeLength | data_processor/core.py:269-286 | a plate's width and length are the smaller and larger of its first two numbers; unit `块` |
| Text.DigitRunsOfDimensions | data_processor/core.py:261 | the numbers found in `a*b…` are `a` and then `b`, ahead of any later ones |
| Mapper.PlateFromDimensions | data_processor/core.py:269-277 | a plate written `a*b…` has width `min(a, b)` and length `max(a, b)` |
| Mapper.ThicknessAndLength | data_processor/core.py:263-321 | the per-type table: which column holds thickness and length, and the unit |
| Mapper.CountOnlyForPipes | data_processor/core.py:293-297 | specification 4 is the piece count for `管材` only |
| Mapper.RoundPipeModel | data_processor/core.py:323-337 | a round pipe's model is the stripped text before the first `*` |
| Mapper.ModelIsSpec | data_processor/core.py:323-337 | any other model is the specification itself |
| Mapper.NotesColumn | data_processor/core.py:362 | the notes column is the same for every row when the file has notes, else `规格: <model>` |
| Mapper.TemplateRowOf | data_processor/core.py:340-368 | both prices equal the record's price; the file-wide columns are copied from the file facts |
| Mapper.TemplateRows | data_processor/core.py:210-370 | one template row per record, in input order |
| Mapper.CreateTemplate | data_processor/core.py:204-378 | the appending loop equals `TemplateRows` |
| Metadata.FirstPresent | data_processor/core.py:45-48 | the first candidate that is present, or none when none is |
| Metadata.FindFirst | data_processor/core.py:45-48 | the `for … break` loop finds that first candidate |
| Metadata.IdentifyType | data_processor/core.py:43-53 | step 1 equals `ProductType` |
| Metadata.IdentifyKeyword | data_processor/core.py:57-68 | step 2's two keyword loops equal `KeywordName` |
| Metadata.IdentifyNaming | data_processor/core.py:43-78 | steps 1 and 2 with the Zhengda and `黑` corrections equal `NamingOf` |
| Metadata.IdentifyBrand | data_processor/core.py:93-112 | step 5 equals `Brand` |
| Metadata.IdentifyMaterial | data_processor/core.py:120-132 | step 7 equals `Material` |
| Metadata.NoteRow | data_processor/core.py:145-147 | the keyword loop appends the stripped row once per keyword present |
| Metadata.CollectNotes | data_processor/core.py:142-147 | the note loop over the first 20 rows equals `Notes` |
| Metadata.InfoOf | data_processor/core.py:20-153 | fails exactly when a found length does not parse; the unit is always `件` and the location is empty |
| Metadata.ExtractAllInfo | data_processor/core.py:20-153 | `extract_all_info_from_file` equals `InfoOf` |
| Metadata.ProductTypePriority | data_processor/core.py:44-48 | the type is the first vocabulary entry present in the text or in its space-free variant |
| Metadata.FilenameKeywordFirst | data_processor/core.py:57-61 | a keyword in the file name wins: the name is a keyword of the file name, no later in the list than any present |
| Metadata.ZhengdaPipeNaming | data_processor/core.py:71-74 | `正大热镀管` forces the name `镀锌管` and a type |
| Metadata.BlackByDefault | data_processor/core.py:76-78 | a square/rectangular list with no keyword is named `黑` |
| Metadata.ZhengdaBrand | data_processor/core.py:95-96 | `正大` in the text or file name gives brand `正大制管` |
| Metadata.BrandFromPatterns | data_processor/core.py:98-112 | otherwise the brand is the first pattern match shorter than 10 characters, or empty |
| Metadata.KeywordCount | data_processor/core.py:145-147 | at most one count per keyword |
| Metadata.NotedPerKeyword | data_processor/core.py:145-147 | a row is noted exactly once per note keyword it contains |
| Metadata.NotesFromLeadingRows | data_processor/core.py:143-147 | every note is the stripped text of a leading row containing a note keyword |
| Metadata.WithManufacturer | data_processor/core.py:407-408 | a manufacturer other than `自动识别` replaces the brand and nothing else; otherwise the facts are unchanged |
| Sorter.Spec1Value | data_processor/core.py:380-391 | the sort value is never negative |
| Sorter.RangeLowerEnd | data_processor/core.py:387-389 | a range `x-…` is read as its lower end `x` |
| Sorter.PlainNumberReads | data_processor/core.py:384-389 | a non-negative number with no range reads as itself |
| Sorter.BlankReadsZero | data_processor/core.py:382-391 | whitespace-only text passes the emptiness test, strips to nothing and reads as 0 |
| Sorter.LeadingDashReadsZero | data_processor/core.py:388-391 | text starting with a dash reads as 0 |
| Sorter.NegativeReadsZero | data_processor/core.py:388-391 | a negative number reads as 0, since it is split at its minus sign |
| Sorter.Ranks | data_processor/core.py:444-454 | one rank per key |
| Sorter.ComputeRanks | data_processor/core.py:444-454 | the dictionary-and-counter loop equals `Ranks` |
| Sorter.RankNewKey | data_processor/core.py:450-453 | a new key gets the next rank and the loop invariant is kept |
| Sorter.RankKnownKey | data_processor/core.py:450-453 | a known key gets its stored rank and the loop invariant is kept |
| Sorter.SameRankSameKey | data_processor/core.py:429-438 | two rows share a rank exactly when their keys are equal |
| Sorter.RankFollowsFirstAppearance | data_processor/core.py:429-438 | ranks order keys by first appearance, in both directions |
| Sorter.Insert | data_processor/core.py:461 | stable insertion adds exactly one element |
| Sorter.InsertSorted | data_processor/core.py:461 | insertion keeps a list sorted by the three keys |
| Sorter.InsertStable | data_processor/core.py:461 | insertion keeps ties in input order |
| Sorter.InsertionSort | data_processor/core.py:461 | sorting permutes the rows |
| Sorter.InsertionSortSorted | data_processor/core.py:461 | the result is sorted by (name rank, model rank, spec1 value) and ties keep input order |
| Sorter.UntagInsertionSort | data_processor/core.py:461-464 | dropping the helper keys after sorting permutes the rows |
| Sorter.SortKeyed | data_processor/core.py:459-464 | sorted, stable, a permutation, and each row keeps its own keys |
| Sorter.NameKeys | data_processor/core.py:432-434 | one stripped product name per row |
| Sorter.ModelKeys | data_processor/core.py:447-449 | one stripped model per row |
| Sorter.Spec1Values | data_processor/core.py:457 | one specification 1 value per row |
| Sorter.SortKeyedRows | data_processor/core.py:461-464 | the insertion loop equals sorting and dropping the helper keys |
| Sorter.SortTemplate | data_processor/core.py:426-464 | the rank-and-sort block equals `SortedRows` |
| Sorter.SortedRowsPermutation | data_processor/core.py:426-464 | the sorted table is a permutation of the template rows |
| Sorter.SortedRowsOrdered | data_processor/core.py:426-464 | the sorted table is ordered by name rank, model rank and spec1 value; ties keep input order; each row's keys are its own |

## Left out

- Reading the workbook (`pd.read_excel`), the Streamlit UI, the debug output and the batch loop are not modelled. The engine starts from a table of cells.
- `df.astype(str).to_string()` is not modelled. The rendered text of the whole sheet is an input of `Metadata.InfoOf`.
- The regular-expression searches for length, brand patterns, telephone, material and standard are not modelled. What each finds first is an input (`Metadata.Finds`); only the priority among them is modelled.
- Numbers.ParseFloat: does not model IEEE doubles, exponents, `inf`/`nan`, underscores or non-ASCII digits, because the model uses exact decimals for plain numerals.
- Text.IsDigit: accepts only the ASCII digits `0`-`9`. In a `str` pattern, Python's `\d` matches every Unicode decimal digit (full-width `３`, for example), and `int` and `float` accept those digits too. Text with such digits is read differently by the members below.
- Text.DigitRuns: finds runs of ASCII digits only, where `re.findall(r'(\d+)', …)` also finds runs of other Unicode decimal digits. So the plate and coil sizes of `Mapper.Columns` do not cover them.
- Text.DigitRunLength: measures a run of ASCII digits only (see `Text.IsDigit`).
- Utils.LengthToken: `[\d\.]` is narrowed to ASCII digits and dots, so `６米` is left unchanged by `Utils.NormalizeLength` where the source gives `6000`.
- Mapper.DimensionMatch: `(\d+)` is narrowed to ASCII digits, so `３０*３０` gets no dimensions and no `方管` suffix from `Mapper.ShapeSuffix`.
- Numbers.NumberText: is Python's `str(float)` for values whose shortest repr is plain positional notation; exponent notation is not modelled.
- Cells.Render: how pandas prints a numeric cell is carried in the cell (`Num(value, text)`), not computed.
- Utils.Lower: lower-cases only `M`, the one upper-case letter that can change whether a unit matches.
- `analyze_spec_format` is not modelled. Its result only feeds debug output.
- The template columns the source always leaves empty (second to fifth price tiers, stock, price difference, display flag) are not represented in `Mapper.TemplateRow`.
- The unreachable `[], []` after the strategy loop is not modelled, because the three-column strategy always matches (`Dispatch.Choose`).
- Zhengda `len(parts) >= 2` after splitting on `*` always holds, so its `continue` branch is not modelled.
- Sorter.SortTemplate: pandas' multi-key `sort_values` is stable. It is modelled as a stable insertion sort, specified by the order it produces.
- Aliasing and update in place of the pandas frame are not modelled. The frame is a sequence of row values that `SortTemplate` returns.
