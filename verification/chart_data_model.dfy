/**
 * The data-import logic of the chart designer's data model base class
 * (`MockChartDataModel`).
 *
 * The class is abstract over a handful of hooks that the concrete chart kinds
 * implement.  The model does not interpret them; it records the calls an
 * import makes to them, in order, as a trace of `Call`s:
 *   - `clearEntries()`                 -> `ClearEntries`
 *   - `addEntryFromTuple(t)`           -> `AddEntryFromTuple(t)`
 *   - `postDataImportAction()`         -> `PostDataImportAction`
 * `getTupleSize()` becomes the parameter `tupleSize` and
 * `getDefaultTupleEntry(i)` the function parameter `defaultEntry`.
 */
module ChartDataModel {
  import opened JavaSplit
  import opened Wrappers
  import opened ArgbColor
  import Arith

  /** One entry's fields, as the text handed to `addEntryFromTuple`. */
  type Tuple = seq<string>

  /** A call the import makes to one of the abstract hooks. */
  datatype Call = ClearEntries | AddEntryFromTuple(tuple: Tuple) | PostDataImportAction

  /** How a call into the data model ended. */
  datatype Outcome = Returned | ThrewIndexOutOfBounds

  // ---------------------------------------------------------------------
  // getHexColor: &HAARRGGBB to #RRGGBB
  // ---------------------------------------------------------------------

  /**
   * `getHexColor(color)`: the `&H` prefix and the alpha digits are dropped and
   * `#` is put in front, so `&HAARRGGBB` becomes `#RRGGBB`.  The source cuts
   * the text at index 4, which throws for a text shorter than that.
   */
  function HexColor(color: string): (r: string)
    requires |color| >= 4
    ensures |r| == |color| - 3 && r[0] == '#'
    ensures |color| == 10 ==> |r| == 7
  {
    "#" + color[4..]
  }

  /**
   * On an App Inventor colour text the result is the CSS colour with the same
   * red, green and blue, whatever the alpha was.
   */
  lemma HexColorKeepsRgb(c: Argb)
    ensures HexColor(AppInventorText(c)) == "#" + HexByte(c.red) + HexByte(c.green) + HexByte(c.blue)
    ensures ParseRgb(HexColor(AppInventorText(c))) == Some((c.red, c.green, c.blue))
    ensures forall a: Byte :: HexColor(AppInventorText(c.(alpha := a))) == HexColor(AppInventorText(c))
  {
    var t := AppInventorText(c);
    var h := HexColor(t);
    assert t[4..] == HexByte(c.red) + HexByte(c.green) + HexByte(c.blue);
    assert h[1..3] == HexByte(c.red) && h[3..5] == HexByte(c.green) && h[5..7] == HexByte(c.blue);
    HexByteRoundTrip(c.red);
    HexByteRoundTrip(c.green);
    HexByteRoundTrip(c.blue);
    forall a: Byte
      ensures HexColor(AppInventorText(c.(alpha := a))) == h
    {
      assert AppInventorText(c.(alpha := a))[4..] == t[4..];
    }
  }

  /** One `addEntryFromTuple` call per tuple, in order. */
  function AddCalls(tuples: seq<Tuple>): (calls: seq<Call>)
  {
    seq(|tuples|, k requires 0 <= k < |tuples| => AddEntryFromTuple(tuples[k]))
  }

  /**
   * The trace of a completed full-replace import of `tuples`: one clear
   * first, the adds in order, and one post-import action last.
   */
  function ImportCalls(tuples: seq<Tuple>): (calls: seq<Call>)
  {
    [ClearEntries] + AddCalls(tuples) + [PostDataImportAction]
  }

  lemma AddCallsConcat(a: seq<Tuple>, b: seq<Tuple>)
    ensures AddCalls(a + b) == AddCalls(a) + AddCalls(b)
  {
    assert forall k :: 0 <= k < |a| + |b| ==> AddCalls(a + b)[k] == (AddCalls(a) + AddCalls(b))[k];
  }

  /** The tuples of the add calls of a trace, in order. */
  function AddedTuples(calls: seq<Call>): seq<Tuple>
  {
    if |calls| == 0 then []
    else if calls[0].AddEntryFromTuple? then [calls[0].tuple] + AddedTuples(calls[1..])
    else AddedTuples(calls[1..])
  }

  /**
   * An import trace begins with exactly one clear, ends with exactly one
   * post-import action, and the tuples handed to `addEntryFromTuple` are
   * exactly `tuples`, in order.
   */
  lemma {:induction false} ImportCallsShape(tuples: seq<Tuple>)
    ensures var calls := ImportCalls(tuples);
      && |calls| == |tuples| + 2
      && calls[0] == ClearEntries
      && calls[|calls| - 1] == PostDataImportAction
      && (forall k :: 1 <= k < |calls| - 1 ==> calls[k].AddEntryFromTuple?)
      && AddedTuples(calls) == tuples
  {
    var calls := ImportCalls(tuples);
    assert calls[1..] == AddCalls(tuples) + [PostDataImportAction];
    AddedTuplesOfAdds(tuples);
  }

  lemma {:induction false} AddedTuplesOfAdds(tuples: seq<Tuple>)
    ensures AddedTuples(AddCalls(tuples) + [PostDataImportAction]) == tuples
  {
    if |tuples| == 0 {
      assert AddCalls(tuples) + [PostDataImportAction] == [PostDataImportAction];
    } else {
      var calls := AddCalls(tuples) + [PostDataImportAction];
      assert calls[0] == AddEntryFromTuple(tuples[0]);
      assert calls[1..] == AddCalls(tuples[1..]) + [PostDataImportAction];
      AddedTuplesOfAdds(tuples[1..]);
    }
  }

  // ---------------------------------------------------------------------
  // setElements: comma-separated text, grouped into tuples
  // ---------------------------------------------------------------------

  /**
   * The consecutive groups of `size` fields, front to back; a trailing group
   * of fewer than `size` fields is dropped.
   */
  function Chunks(fields: seq<string>, size: int): seq<Tuple>
    requires size >= 1
    decreases |fields|
  {
    if |fields| < size then []
    else [fields[..size]] + Chunks(fields[size..], size)
  }

  /** As many tuples as whole groups fit: `|fields| / size` (integer division). */
  lemma {:induction false} ChunksCount(fields: seq<string>, size: int)
    requires size >= 1
    ensures |Chunks(fields, size)| == |fields| / size
    decreases |fields|
  {
    if |fields| < size {
      Arith.DivSmall(|fields|, size);
    } else {
      ChunksCount(fields[size..], size);
      Arith.DivStep(|fields|, size);
    }
  }

  /** The k-th tuple is exactly the fields `k*size .. k*size + size - 1`. */
  lemma {:induction false} ChunkAt(fields: seq<string>, size: int, k: int)
    requires size >= 1
    requires 0 <= k < |Chunks(fields, size)|
    ensures k * size + size <= |fields|
    ensures Chunks(fields, size)[k] == fields[k * size .. k * size + size]
    decreases k
  {
    if k > 0 {
      ChunkAt(fields[size..], size, k - 1);
      assert (k - 1) * size + size == k * size;
    }
  }

  /** Concatenation of tuples. */
  function Flatten(tuples: seq<Tuple>): seq<string>
  {
    if |tuples| == 0 then [] else tuples[0] + Flatten(tuples[1..])
  }

  /**
   * No field is lost or reordered except the dropped trailing group, which
   * is shorter than one tuple.
   */
  lemma {:induction false} ChunksCover(fields: seq<string>, size: int)
    requires size >= 1
    ensures var kept := |fields| / size * size;
      && Flatten(Chunks(fields, size)) == fields[..kept]
      && |fields| - kept < size
    decreases |fields|
  {
    Arith.DivRemainder(|fields|, size);
    if |fields| < size {
      Arith.DivSmall(|fields|, size);
    } else {
      ChunksCover(fields[size..], size);
      Arith.DivStep(|fields|, size);
      var kept' := (|fields| - size) / size * size;
      assert fields[..size] + fields[size..][..kept'] == fields[..size + kept'];
    }
  }

  /**
   * `setElements(elements)`: split at commas, clear, add the tuples, then run
   * the post-import action.  The post-import action runs even when no tuple
   * was added.
   */
  method SetElements(elements: string, tupleSize: int) returns (calls: seq<Call>)
    requires tupleSize >= 1
    ensures calls == ImportCalls(Chunks(Split(elements), tupleSize))
    ensures |calls| == |Split(elements)| / tupleSize + 2
  {
    var entries := Split(elements);
    calls := [ClearEntries];
    var adds := AddGroups(entries, tupleSize);
    calls := calls + adds + [PostDataImportAction];
    ChunksCount(entries, tupleSize);
  }

  /** From index `i`, the first tuple is the next `size` fields. */
  lemma ChunksStep(entries: seq<string>, i: nat, size: int)
    requires size >= 1 && i + size <= |entries|
    ensures AddCalls(Chunks(entries[i..], size))
         == [AddEntryFromTuple(entries[i .. i + size])] + AddCalls(Chunks(entries[i + size..], size))
  {
    assert entries[i..][..size] == entries[i .. i + size];
    assert entries[i..][size..] == entries[i + size..];
    AddCallsConcat([entries[i .. i + size]], Chunks(entries[i + size..], size));
  }

  /**
   * The loop of `setElements`: add each full group of `tupleSize` fields as
   * one tuple, and stop at the first group that would run past the last
   * field.
   */
  method AddGroups(entries: seq<string>, tupleSize: int) returns (calls: seq<Call>)
    requires tupleSize >= 1
    ensures calls == AddCalls(Chunks(entries, tupleSize))
  {
    calls := [];
    var i := 0;
    while i < |entries|
      invariant 0 <= i <= |entries|
      invariant calls + AddCalls(Chunks(entries[i..], tupleSize)) == AddCalls(Chunks(entries, tupleSize))
    {
      if i + tupleSize - 1 >= |entries| {
        break;
      }
      var tuple := CopyTuple(entries, i, tupleSize);
      ChunksStep(entries, i, tupleSize);
      calls := calls + [AddEntryFromTuple(tuple)];
      i := i + tupleSize;
    }
    assert Chunks(entries[i..], tupleSize) == [];
  }

  /**
   * In the trace of `setElements`, call k + 1 adds the k-th group of fields:
   * the adds come in increasing k and the clear comes before all of them.
   */
  lemma SetElementsAddsGroup(elements: string, tupleSize: int, k: int)
    requires tupleSize >= 1
    requires 0 <= k < |Split(elements)| / tupleSize
    ensures var fields := Split(elements);
      var calls := ImportCalls(Chunks(fields, tupleSize));
      && |calls| == |fields| / tupleSize + 2
      && k * tupleSize + tupleSize <= |fields|
      && calls[0] == ClearEntries
      && calls[k + 1] == AddEntryFromTuple(fields[k * tupleSize .. k * tupleSize + tupleSize])
  {
    var fields := Split(elements);
    ChunksCount(fields, tupleSize);
    ChunkAt(fields, tupleSize, k);
  }

  /** The tuple of `setElements`: the `tupleSize` fields from index `i` on, in order. */
  method CopyTuple(entries: seq<string>, i: nat, tupleSize: nat) returns (tuple: Tuple)
    requires i + tupleSize <= |entries|
    ensures tuple == entries[i .. i + tupleSize]
  {
    tuple := [];
    var j := 0;
    while j < tupleSize
      invariant 0 <= j <= tupleSize
      invariant tuple == entries[i .. i + j]
    {
      tuple := tuple + [entries[i + j]];
      j := j + 1;
    }
  }

  // ---------------------------------------------------------------------
  // setElementsFromCSVColumns: a table of columns, one tuple per row
  // ---------------------------------------------------------------------

  /**
   * The number of rows of a column table: the size of the first column that
   * is not empty, or 0 when every column is empty.  Row 0 holds the column
   * names.
   */
  function RowCount(columns: seq<seq<string>>): (rows: nat)
    ensures rows == 0 <==> forall j :: 0 <= j < |columns| ==> |columns[j]| == 0
    ensures rows > 0 ==> exists j :: 0 <= j < |columns| && |columns[j]| == rows &&
                                     forall j' :: 0 <= j' < j ==> |columns[j']| == 0
  {
    if |columns| == 0 then 0
    else if |columns[0]| > 0 then |columns[0]|
    else
      var rows := RowCount(columns[1..]);
      assert forall j :: 1 <= j < |columns| ==> columns[j] == columns[1..][j - 1];
      rows
  }

  /**
   * Whether cell (column `j`, row `i`) can be read: the column exists, and it
   * is either empty (a default is used) or long enough to have row `i`.
   */
  predicate CellReadable(columns: seq<seq<string>>, j: int, i: int)
  {
    0 <= j < |columns| && (|columns[j]| == 0 || 0 <= i < |columns[j]|)
  }

  /** The field taken from column `j` for row `i`. */
  function Cell(columns: seq<seq<string>>, defaultEntry: int -> string, j: int, i: int): string
    requires CellReadable(columns, j, i)
  {
    if |columns[j]| == 0 then defaultEntry(i) else columns[j][i]
  }

  /** Whether all `size` fields of row `i` can be read. */
  predicate RowReadable(columns: seq<seq<string>>, size: int, i: int)
  {
    forall j :: 0 <= j < size ==> CellReadable(columns, j, i)
  }

  /** The tuple built for row `i` from the first `size` columns. */
  function Row(columns: seq<seq<string>>, size: nat, defaultEntry: int -> string, i: int): Tuple
    requires RowReadable(columns, size, i)
  {
    seq(size, j requires 0 <= j < size && CellReadable(columns, j, i) => Cell(columns, defaultEntry, j, i))
  }

  /** The tuples for rows 1 .. upTo - 1, in row order: row 0 is never among them. */
  function CsvRows(columns: seq<seq<string>>, size: nat, defaultEntry: int -> string, upTo: int): (r: seq<Tuple>)
    requires forall i :: 1 <= i < upTo ==> RowReadable(columns, size, i)
    ensures |r| == if upTo <= 1 then 0 else upTo - 1
  {
    if upTo <= 1 then []
    else
      seq(upTo - 1, k requires 0 <= k < upTo - 1 && RowReadable(columns, size, k + 1) =>
        Row(columns, size, defaultEntry, k + 1))
  }

  /**
   * `setElementsFromCSVColumns(columns)`, with the loops of the source.  The
   * row count comes from the first non-empty column; row 0 (the column
   * names) is skipped; for row i, field j is `defaultEntry(i)` when column j
   * is empty and `columns[j][i]` otherwise.  Reading a column past the end of
   * the table or a row past the end of a column throws
   * IndexOutOfBoundsException, which ends the import without the
   * post-import action.
   */
  method SetElementsFromCsvColumns(columns: seq<seq<string>>, tupleSize: int, defaultEntry: int -> string)
      returns (calls: seq<Call>, outcome: Outcome)
    requires tupleSize >= 0
    ensures outcome == Returned <==>
              forall i :: 1 <= i < RowCount(columns) ==> RowReadable(columns, tupleSize, i)
    ensures outcome == Returned ==>
              calls == ImportCalls(CsvRows(columns, tupleSize, defaultEntry, RowCount(columns)))
    ensures outcome == ThrewIndexOutOfBounds ==>
              && 1 <= |calls| < RowCount(columns)
              && (forall i :: 1 <= i < |calls| ==> RowReadable(columns, tupleSize, i))
              && !RowReadable(columns, tupleSize, |calls|)
              && calls == [ClearEntries] + AddCalls(CsvRows(columns, tupleSize, defaultEntry, |calls|))
  {
    calls := [ClearEntries];

    var rows := 0;
    var c := 0;
    while c < |columns|
      invariant 0 <= c <= |columns|
      invariant forall j :: 0 <= j < c ==> |columns[j]| == 0
    {
      if |columns[c]| > 0 {
        rows := |columns[c]|;
        break;
      }
      c := c + 1;
    }
    assert rows == RowCount(columns);

    var i := 1;
    while i < rows
      invariant 1 <= i <= if rows >= 1 then rows else 1
      invariant forall r :: 1 <= r < i ==> RowReadable(columns, tupleSize, r)
      invariant calls == [ClearEntries] + AddCalls(CsvRows(columns, tupleSize, defaultEntry, i))
    {
      var tuple, readable := BuildRow(columns, tupleSize, defaultEntry, i);
      if !readable {
        outcome := ThrewIndexOutOfBounds;
        return;
      }
      assert CsvRows(columns, tupleSize, defaultEntry, i + 1)
          == CsvRows(columns, tupleSize, defaultEntry, i) + [tuple];
      AddCallsConcat(CsvRows(columns, tupleSize, defaultEntry, i), [tuple]);
      calls := calls + [AddEntryFromTuple(tuple)];
      i := i + 1;
    }
    if rows == 0 {
      assert i == 1;
      assert CsvRows(columns, tupleSize, defaultEntry, i) == [];
    }
    calls := calls + [PostDataImportAction];
    outcome := Returned;
  }

  /**
   * The inner loop of `setElementsFromCSVColumns`: field j of row i is
   * `defaultEntry(i)` when column j is empty and `columns[j][i]` otherwise.
   * `readable` is false when a read throws IndexOutOfBoundsException.
   */
  method BuildRow(columns: seq<seq<string>>, tupleSize: nat, defaultEntry: int -> string, i: nat)
      returns (tuple: Tuple, readable: bool)
    ensures readable <==> RowReadable(columns, tupleSize, i)
    ensures readable ==> tuple == Row(columns, tupleSize, defaultEntry, i)
  {
    tuple := [];
    var j := 0;
    while j < tupleSize
      invariant 0 <= j <= tupleSize
      invariant |tuple| == j
      invariant forall jj :: 0 <= jj < j ==>
                  CellReadable(columns, jj, i) && tuple[jj] == Cell(columns, defaultEntry, jj, i)
    {
      if j >= |columns| {
        assert !CellReadable(columns, j, i);
        return tuple, false;
      }
      var column := columns[j];
      if |column| == 0 {
        tuple := tuple + [defaultEntry(i)];
      } else {
        if i >= |column| {
          assert !CellReadable(columns, j, i);
          return tuple, false;
        }
        tuple := tuple + [column[i]];
      }
      j := j + 1;
    }
    readable := true;
  }

  /**
   * The import completes when the first `tupleSize` columns exist and each of
   * them is either empty or holds every row.
   */
  lemma CsvColumnsSuffice(columns: seq<seq<string>>, tupleSize: int)
    requires tupleSize <= |columns|
    requires forall j :: 0 <= j < tupleSize ==> |columns[j]| == 0 || |columns[j]| >= RowCount(columns)
    ensures forall i :: 1 <= i < RowCount(columns) ==> RowReadable(columns, tupleSize, i)
  {
  }

  /**
   * The completed import adds one tuple per row after the column names, and
   * field j of row i is the default for i when column j is empty and the
   * column's i-th text otherwise.
   */
  lemma CsvRowAt(columns: seq<seq<string>>, tupleSize: nat, defaultEntry: int -> string, i: int, j: int)
    requires forall r :: 1 <= r < RowCount(columns) ==> RowReadable(columns, tupleSize, r)
    requires 1 <= i < RowCount(columns) && 0 <= j < tupleSize
    ensures var calls := ImportCalls(CsvRows(columns, tupleSize, defaultEntry, RowCount(columns)));
      && |calls| == RowCount(columns) + 1
      && calls[i] == AddEntryFromTuple(Row(columns, tupleSize, defaultEntry, i))
      && CellReadable(columns, j, i)
      && calls[i].tuple[j] == (if |columns[j]| == 0 then defaultEntry(i) else columns[j][i])
  {
    assert RowReadable(columns, tupleSize, i);
    var rows := CsvRows(columns, tupleSize, defaultEntry, RowCount(columns));
    assert rows[i - 1] == Row(columns, tupleSize, defaultEntry, i);
    assert ImportCalls(rows)[i] == AddCalls(rows)[i - 1];
  }

  /**
   * With tuple size 0 every row can be read, and the completed import adds
   * one empty tuple per row after the column names.
   */
  lemma CsvZeroTupleSize(columns: seq<seq<string>>, defaultEntry: int -> string)
    ensures forall i :: 1 <= i < RowCount(columns) ==> RowReadable(columns, 0, i)
    ensures var rows := CsvRows(columns, 0, defaultEntry, RowCount(columns));
      |rows| == (if RowCount(columns) <= 1 then 0 else RowCount(columns) - 1) &&
      forall k :: 0 <= k < |rows| ==> rows[k] == []
  {
  }
}
