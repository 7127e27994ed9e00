# Chart data models of the App Inventor chart designer

This project models the data-shaping logic of the two abstract base classes
behind the chart designer's mock charts:

- `MockChartDataModel` turns designer data into entries of one data series.
  `setElements` takes comma-separated text, splits it into fields and groups
  them into tuples of the model's tuple size. A trailing group that is too
  short is dropped. `setElementsFromCSVColumns` takes a table of columns,
  skips row 0 (the column names) and builds one tuple per remaining row. An
  empty column is filled with the model's default entry for that row.
  `getHexColor` turns an App Inventor colour `&HAARRGGBB` into `#RRGGBB`.
- `MockChartModel` has its own `getHexColor`, which turns `&HAARRGGBB`
  into `#RRGGBBAA`.
- Both classes add their series to, and remove it from, the chart's shared
  list of datasets with the same code.

The classes are abstract over hooks that the concrete chart kinds implement.
The model does not interpret them. An import returns the trace of the calls
it makes to them, in order: `ClearEntries`, `AddEntryFromTuple(t)` and
`PostDataImportAction`. The tuple size (`getTupleSize()`) is a parameter:
`tupleSize >= 1` for `setElements`, `tupleSize >= 0` for the column import. The default entry for a row (`getDefaultTupleEntry(i)`)
is a function parameter `defaultEntry: int -> string`.

Files:

- `java_split.dfy` (module `JavaSplit`): Java's `String.split(",")`.
  Without a comma the result is the text itself, so `""` gives `[""]`.
  Otherwise the text is cut at every comma and trailing empty fields are
  removed, so `","` gives `[]`.
- `chart_data_model.dfy` (module `ChartDataModel`): the call trace, both
  imports and the RGB colour conversion.
- `chart_model.dfy` (module `ChartModel`): the RGBA colour conversion.
- `chart_datasets.dfy` (module `ChartDatasets`): the shared dataset list.
  A series is an opaque handle compared by identity.
- `argb_color.dfy` (module `ArgbColor`): colour values, their
  `&HAARRGGBB` text and a reader for `#RRGGBB` / `#RRGGBBAA`. These are
  used to state what the two colour conversions preserve.
- `arith.dfy`, `wrappers.dfy`: division facts and an `Option` type.

Two behaviours of the source are modelled as written:

- Column import does not guard its reads. It reads only the first
  `tupleSize` columns, and only for rows after the column names. When the
  table has at least one such row, a tuple size above the number of
  columns, or a non-empty column among the first `tupleSize` that is
  shorter than the row count, makes `List.get` throw
  `IndexOutOfBoundsException`. Entries are already cleared by then, and rows
  added before the failing row stay. `SetElementsFromCsvColumns` returns
  this as the outcome `ThrewIndexOutOfBounds`. Its trace then stops after
  those rows and has no post-import action.
- The colour conversion cuts the text at fixed positions and does not check
  its contents. The model does the same. What the conversion preserves is
  proved only for well-formed `&HAARRGGBB` texts.

## Model

| member | source | states |
|---|---|---|
| JavaSplit.Split | appinventor/appengine/src/com/google/appinventor/client/editor/simple/components/MockChartDataModel.java:88 | the empty text splits to the single empty field, and only to it; for any other text the last field returned is non-empty |
| JavaSplit.SplitDropsOnlyTrailingEmpty | appinventor/appengine/src/com/google/appinventor/client/editor/simple/components/MockChartDataModel.java:88 | the split is a prefix of all comma-separated fields, and every field left off is empty |
| JavaSplit.JoinFields | appinventor/appengine/src/com/google/appinventor/client/editor/simple/components/MockChartDataModel.java:88 | joining the fields with commas gives back the text, so no character is lost |
| JavaSplit.FieldsJoin | appinventor/appengine/src/com/google/appinventor/client/editor/simple/components/MockChartDataModel.java:88 | joining comma-free fields and cutting again gives back the same fields |
| JavaSplit.SplitOnlyComma | appinventor/appengine/src/com/google/appinventor/client/editor/simple/components/MockChartDataModel.java:88 | a lone comma splits to no fields at all |
| JavaSplit.SplitTrailingEmpty | appinventor/appengine/src/com/google/appinventor/client/editor/simple/components/MockChartDataModel.java:88 | "1,2,," splits to ["1", "2"] |
| JavaSplit.SplitLeadingEmpty | appinventor/appengine/src/com/google/appinventor/client/editor/simple/components/MockChartDataModel.java:88 | ",a" splits to ["", "a"]: a leading empty field is kept |
| ChartDataModel.ImportCallsShape | appinventor/appengine/src/com/google/appinventor/client/editor/simple/components/MockChartDataModel.java:90-120 | an import trace starts with exactly one clear and ends with exactly one post-import action, also when no tuple was added; the tuples added are exactly the given ones, in order |
| ChartDataModel.SetElements | appinventor/appengine/src/com/google/appinventor/client/editor/simple/components/MockChartDataModel.java:85-121 | the trace of setElements is a clear, one add per full group of split fields in order, then the post-import action; there are fields / tupleSize adds (integer division) |
| ChartDataModel.AddGroups | appinventor/appengine/src/com/google/appinventor/client/editor/simple/components/MockChartDataModel.java:98-117 | the loop that stops at the first group running past the last field adds exactly the full groups, front to back |
| ChartDataModel.CopyTuple | appinventor/appengine/src/com/google/appinventor/client/editor/simple/components/MockChartDataModel.java:107-113 | the tuple built for a group holds exactly the tupleSize fields from index i on, in order |
| ChartDataModel.ChunksCount | appinventor/appengine/src/com/google/appinventor/client/editor/simple/components/MockChartDataModel.java:98-105 | n fields make n / tupleSize tuples; a trailing group shorter than tupleSize makes none |
| ChartDataModel.ChunkAt | appinventor/appengine/src/com/google/appinventor/client/editor/simple/components/MockChartDataModel.java:108-116 | tuple k holds exactly fields k*s through k*s+s-1, in order |
| ChartDataModel.ChunksCover | appinventor/appengine/src/com/google/appinventor/client/editor/simple/components/MockChartDataModel.java:98-117 | the tuples laid end to end are the fields up to the last full group, and fewer than tupleSize fields are dropped |
| ChartDataModel.SetElementsAddsGroup | appinventor/appengine/src/com/google/appinventor/client/editor/simple/components/MockChartDataModel.java:91-116 | in the setElements trace the clear comes first and call k+1 adds fields k*s through k*s+s-1, so adds come in increasing k |
| ChartDataModel.RowCount | appinventor/appengine/src/com/google/appinventor/client/editor/simple/components/MockChartDataModel.java:143-154 | the row count is the size of the first non-empty column, and it is 0 exactly when every column is empty |
| ChartDataModel.SetElementsFromCsvColumns | appinventor/appengine/src/com/google/appinventor/client/editor/simple/components/MockChartDataModel.java:139-179 | the import completes exactly when every row 1..rows-1 can be read; then the trace is a clear, one add per row 1..rows-1 in order (never row 0), and one post-import action; otherwise it throws at the first unreadable row, after adding the rows before it |
| ChartDataModel.BuildRow | appinventor/appengine/src/com/google/appinventor/client/editor/simple/components/MockChartDataModel.java:159-171 | the row loop succeeds exactly when every one of the first tupleSize cells of row i can be read, and then builds field j as the default for i when column j is empty and the column's i-th text otherwise |
| ChartDataModel.CsvZeroTupleSize | appinventor/appengine/src/com/google/appinventor/client/editor/simple/components/MockChartDataModel.java:157-175 | with tuple size 0 the import never throws and adds one empty tuple per row after the column names |
| ChartDataModel.CsvColumnsSuffice | appinventor/appengine/src/com/google/appinventor/client/editor/simple/components/MockChartDataModel.java:157-171 | when the first tupleSize columns exist and each is empty or holds every row, every row can be read |
| ChartDataModel.CsvRowAt | appinventor/appengine/src/com/google/appinventor/client/editor/simple/components/MockChartDataModel.java:157-175 | a completed column import makes rows - 1 adds; call i adds row i, whose field j is the default for i when column j is empty and the column's i-th text otherwise |
| ChartDataModel.HexColor | appinventor/appengine/src/com/google/appinventor/client/editor/simple/components/MockChartDataModel.java:75-78 | the result starts with '#' and is three characters shorter than the input, so a 10-character ARGB text gives 7 characters |
| ChartDataModel.HexColorKeepsRgb | appinventor/appengine/src/com/google/appinventor/client/editor/simple/components/MockChartDataModel.java:69-78 | for an &HAARRGGBB colour the result is #RRGGBB, reads back as the same red, green and blue, and does not depend on alpha |
| ChartModel.HexColor | appinventor/appengine/src/com/google/appinventor/client/editor/simple/components/MockChartModel.java:74-77 | the result starts with '#' and is one character shorter than the input; for a 10-character input it has 9 characters that are a permutation of input characters 2..9 |
| ChartModel.HexColorExtendsRgb | appinventor/appengine/src/com/google/appinventor/client/editor/simple/components/MockChartModel.java:76 | the RGBA text is the data model's RGB text followed by the alpha digits |
| ChartModel.HexColorRoundTrip | appinventor/appengine/src/com/google/appinventor/client/editor/simple/components/MockChartModel.java:69-77 | for an &HAARRGGBB colour the result is #RRGGBBAA and reads back as the same colour, alpha included |
| ChartModel.HexColorInjective | appinventor/appengine/src/com/google/appinventor/client/editor/simple/components/MockChartModel.java:74-77 | two different colours convert to two different texts |
| ChartDatasets.AddDataSeriesToChart | appinventor/appengine/src/com/google/appinventor/client/editor/simple/components/MockChartDataModel.java:49-60 | whether or not the list was empty, the series ends up appended after the existing series, in their order |
| ChartDatasets.RemoveDataSeriesFromChart | appinventor/appengine/src/com/google/appinventor/client/editor/simple/components/MockChartDataModel.java:65-67 | a list without the series is left unchanged, and a list holding it gets exactly one element shorter; which element goes, and that the others keep their order, is stated by RemoveFirstOccurrence and RemoveTakesOneCopy |
| ChartDatasets.RemoveFirstOccurrence | appinventor/appengine/src/com/google/appinventor/client/editor/simple/components/MockChartDataModel.java:65-67 | the first occurrence of the series is removed and the others keep their order; a list without the series is unchanged |
| ChartDatasets.RemoveTakesOneCopy | appinventor/appengine/src/com/google/appinventor/client/editor/simple/components/MockChartModel.java:64-66 | removal takes out exactly one copy of the series and keeps every other series; the list gets one shorter when the series was there |
| ChartDatasets.AddThenRemove | appinventor/appengine/src/com/google/appinventor/client/editor/simple/components/MockChartModel.java:48-66 | adding a series the list did not hold and then removing it gives back the original list |

## Left out

- The concrete hooks are not modelled. They are `addEntryFromTuple`,
  `clearEntries`, `postDataImportAction`, `getDefaultTupleEntry`,
  `setDefaultElements` and `setDefaultStylingProperties`. Only the order of
  the calls to them is modelled, because their bodies belong to the concrete
  chart kinds. Calls to `getDefaultTupleEntry` are not traced, because it
  only returns a value.
- `changeColor`, `changeLabel` and `MockChartModel.addEntry` are left out.
  The first is abstract, the second only stores a label in the chart
  library's series object, and the third is abstract and takes floats.
- ChartDataModel.SetElements: the tuple size is required to be at least 1.
  The loop advances by `i += tupleSize`, so with 0 it never ends whenever
  the split is non-empty, which includes the empty text (it splits to
  `[""]`); it ends at once only when the split is empty, as for `","`. A
  negative size makes `new String[tupleSize]` throw
  `NegativeArraySizeException` as soon as the split is non-empty. Neither
  case is modelled.
- ChartDataModel.SetElementsFromCsvColumns: a negative tuple size is
  excluded by a precondition; the source throws
  `NegativeArraySizeException` at the first row when there are at least two
  rows. A tuple size of 0 is modelled: the import adds one empty tuple per
  row after the column names.
- ChartDataModel.HexColor and ChartModel.HexColor: inputs shorter than 4
  characters are excluded by a precondition. `substring` throws on them and
  the source does not handle that.
- ChartDataModel.AddGroups: Java's 32-bit `int` index arithmetic is not
  modelled. With more than 2^30 fields, `i + tupleSize - 1` can wrap to a
  negative value (for example 2^30+2 fields and tuple size 2^30+1 on the
  second pass). The break is then skipped and the source throws
  `ArrayIndexOutOfBoundsException`, while the model silently drops that
  group.
- ChartDataModel.HexColor and ChartModel.HexColor: colour texts are taken to
  be ASCII. Java's `substring` counts UTF-16 code units and the model counts
  characters, so the two differ on texts with characters outside the Basic
  Multilingual Plane (Java gives `"#xx"` for two emoji followed by `xx`, the
  model gives `"#"`). The comma split is unaffected, since a comma is a
  single code unit either way.
- The chart library's `Data` and `Dataset` objects are not modelled. The
  dataset list is a sequence of opaque series handles. `setDatasets` on an
  empty list and `add` both give the same list.
- The asynchronous import, the import scheduler, live-source observers and
  the refresh signal are not modelled. No code for them appears in these
  two classes.
