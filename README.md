# Combustion results: field reader and time-series aggregation

A Dafny model of the core of `plot_combustion_results.py`: the reader for OpenFOAM-style
ASCII scalar field files (`read_scalar_field`) and the loop that turns a case directory of
time-step snapshots into six aligned time series (`analyze_series`).

- `runtime.dfy` (module `Runtime`): `None`, the two exceptions that escape the script
  (`IndexError` from a header on the last line and numpy's zero-size reduction error), and
  the parse functions `int()` and `float()`. Those two are left abstract and are passed in
  as `string -> Option<...>` functions.
- `lines.dfy` (module `Lines`): the `str` operations the reader uses. These are
  `isspace`, `strip()`, `strip(';')` and substring `in`.
- `field_reader.dfy` (module `FieldReader`): the file is its list of lines, or `None` when
  it does not exist. `ScanHeader` and `ReadField` specify the reader. `ReadScalarField` and
  `ReadValues` are its two loops, each proved equal to the specification.
- `time_order.dfy` (module `TimeOrder`): `sorted(time_dirs, key=float)` as a stable
  insertion sort, proved to be sorted, a permutation and stable.
- `series_aggregator.dfy` (module `SeriesAggregator`): the directory listing is a sequence
  of `(name, isDir)` entries. The files are a function from (snapshot, field name) to
  `Option<lines>`. `np.mean` is a parameter, while `np.max` and `np.min` are the greatest
  and least element. `Analyze` specifies `analyze_series`. `AnalyzeSeries` is its loop,
  with the listing loop (`ListTimeDirs`) and the body of the snapshot loop
  (`VisitSnapshot`) written as helper methods.

Behaviour of the code worth noting:

- The times are nondecreasing, not strictly increasing. Two directories such as `1` and
  `1.0` have the same time, and both are kept, in listing order.
- The reader can raise. When the scan reaches a header on the last line, `lines[i + 1]`
  raises `IndexError`. Only `ValueError` is caught, so this ends the whole
  `analyze_series` run (`Raised(IndexOutOfRange)`).
- A field whose declared and parsed counts are both 0 is an empty array, not `None`.
  When such a field reaches `np.max` or `np.min`, the run ends with an exception
  (`Raised(ZeroSizeReduction)`).
- Data lines lose both leading and trailing `;`, after surrounding white space is removed.

## Model

| member | source | states |
|---|---|---|
| `Lines.IsSpace` | plot_combustion_results.py:19 | The characters Python's `str.isspace()` accepts, which `strip()` with no argument removes. This is the definition that `StripShape` relies on. |
| `Lines.StripSpace` | plot_combustion_results.py:19 | `line.strip()`. `StripShape` characterises it. |
| `Lines.StripCell` | plot_combustion_results.py:32 | `line.strip().strip(';')`. `StripShape`, applied to each of the two strips, determines it. `StripCellShape` states what the composition cuts away. |
| `Lines.StripShape` | plot_combustion_results.py:32 | `strip` returns a middle slice of the text. Everything cut away is a stripped character, and the result neither starts nor ends with one. |
| `Lines.StripCellShape` | plot_combustion_results.py:32 | The cleaned text of a data line is a slice of the line. Only white space and `;` are cut away, and the cleaned text neither starts nor ends with `;`. |
| `FieldReader.IsHeader` | plot_combustion_results.py:17 | A line is a header exactly when it contains both `nonuniform` and `List<scalar>` as substrings. |
| `FieldReader.FirstStop` | plot_combustion_results.py:16-23 | The header scan stops at the first line that is a header and is not followed by an unparsable count line. The scan passes every line before it. |
| `FieldReader.ScanHeader` | plot_combustion_results.py:15-26 | The scan raises `IndexError` (`IndexOutOfRange`) exactly when it reaches a header on the last line. It finds nothing exactly when it passes every line. Otherwise it uses the first header whose next line parses as an integer: the count is that integer and the data starts 3 lines below the header. |
| `FieldReader.DataBlock` | plot_combustion_results.py:29-31 | The data lines are the lines from the start index up to, and excluding, the first line containing `)`, which is tested before stripping. With no such line they run to the end of the file. |
| `FieldReader.CellValue` | plot_combustion_results.py:32-37 | A data line gives the float of its stripped text, or nothing when that text is empty or not a float. `SkippedLineContributesNothing` and `CellValuesAllParse` state what this means for a block. |
| `FieldReader.CellValues` | plot_combustion_results.py:32-37 | Each data line adds at most one value. |
| `FieldReader.CellValuesConcat` | plot_combustion_results.py:29-37 | The values of consecutive runs of lines are the runs' values concatenated, so the values keep file order. |
| `FieldReader.SkippedLineContributesNothing` | plot_combustion_results.py:33-37 | A line that is empty after stripping, or not a float, adds nothing and does not stop the loop. |
| `FieldReader.CellValuesAllParse` | plot_combustion_results.py:32-37 | When every data line holds a float, the values are exactly those floats, one per line, in order. |
| `FieldReader.ReadField` | plot_combustion_results.py:8-42 | A missing file gives `None`. A file gives an exception exactly when the header scan reaches a header on its last line, and that exception is always `IndexError` (`IndexOutOfRange`). A file whose header scan passes every line gives `None`. Any array returned has exactly the count declared under the first counted header, so a negative count always gives `None`. |
| `FieldReader.ReadFieldFromHeader` | plot_combustion_results.py:25-42 | Given the first counted header, the result is the values of its data lines when their number equals the declared count, and `None` otherwise. A partial array is never returned. |
| `FieldReader.DataBlockEndsAtCloser` | plot_combustion_results.py:29-31 | `)`-free lines followed by a `)` line form exactly the data block. |
| `FieldReader.ReadWellFormedField` | plot_combustion_results.py:8-42 | A file with a header, a matching count, an opening line that is never inspected, N float lines and a `)` line reads back as exactly those N floats, in order. |
| `FieldReader.ReadScalarField` | plot_combustion_results.py:8-42 | The line-by-line reader, with its `break`, `continue` and exception path, returns what `ReadField` specifies. |
| `FieldReader.ReadValues` | plot_combustion_results.py:28-37 | The data loop returns the values of exactly the data block. |
| `TimeOrder.SortByTime` | plot_combustion_results.py:63 | `sorted(time_dirs, key=float)`. It is specified by the lemmas `SortByTimeSortsAndPermutes` (ascending, permutation) and `SortByTimeIsStable`. |
| `TimeOrder.SortByTimeSortsAndPermutes` | plot_combustion_results.py:63 | The snapshot order is ascending by numeric time (not by text) and is a permutation of the kept names. |
| `TimeOrder.SortByTimeIsStable` | plot_combustion_results.py:63 | For every time value, the names with that time keep their listing order, as in Python's stable `sorted`. |
| `TimeOrder.InsertByTimeSorted` | plot_combustion_results.py:63 | Inserting a name into a sorted sequence keeps it sorted. |
| `SeriesAggregator.Max` | plot_combustion_results.py:74-77 | `np.max` of a non-empty field is one of its values and no value exceeds it. |
| `SeriesAggregator.Min` | plot_combustion_results.py:75 | `np.min` of a non-empty field is one of its values and no value is below it. |
| `SeriesAggregator.TimeDirs` | plot_combustion_results.py:52-61 | Every kept name is listed as a directory and parses as a time above 0. Every such directory is kept. |
| `SeriesAggregator.ListTimeDirs` | plot_combustion_results.py:52-61 | The listing loop builds exactly `TimeDirs`, in listing order. |
| `SeriesAggregator.TimeDirsConcat` | plot_combustion_results.py:52-61 | The first loop is an order-preserving filter. The names kept from two runs of the listing are those of the first run followed by those of the second, so kept names stay in listing order, each as often as it is listed. |
| `SeriesAggregator.Summarise` | plot_combustion_results.py:70-78 | A snapshot yields a row exactly when all three reads return non-empty arrays. It is skipped exactly when no read raised and one returned `None`. Otherwise it raises the exception of the first read to raise, in the order `T`, `rho`, `p`, or else numpy's zero-size error. A row holds the directory's time, the max of `T`, the min and max of `rho`, the max of `p` and `np.mean` of `p`. |
| `SeriesAggregator.Step` | plot_combustion_results.py:66-78 | One snapshot: `T`, `rho` and `p` are read with `ReadField` and passed to `Summarise`, whose contract states the outcome. |
| `SeriesAggregator.Collect` | plot_combustion_results.py:63-78 | The loop over the sorted snapshots: a row is appended to all six lists, a skipped snapshot changes nothing, and the first exception ends the run. `CollectAligned`, `CollectRaisesIff`, `CollectFirstFault` and `RaisedIsFinal` state its properties. |
| `SeriesAggregator.CompletedConcat` | plot_combustion_results.py:63-71 | Keeping the snapshots that yield a row is an order-preserving filter, so the i-th row belongs to the i-th such snapshot in processing order. |
| `SeriesAggregator.CollectFirstFault` | plot_combustion_results.py:63-78 | A run that raises ends with the exception of the first snapshot that fails. No earlier snapshot fails. |
| `SeriesAggregator.Completed` | plot_combustion_results.py:66-71 | A snapshot is among those that yield a row exactly when its visit yields a row. All three fields must be read, non-empty and exception-free. |
| `SeriesAggregator.CollectAligned` | plot_combustion_results.py:66-81 | The six lists have equal length, one entry per snapshot that yields a row. Entry i of every list belongs to the i-th such snapshot. A dropped snapshot is absent from all six lists. |
| `SeriesAggregator.CollectRaisesIff` | plot_combustion_results.py:63-78 | The run raises exactly when some visited snapshot raises. |
| `SeriesAggregator.RaisedIsFinal` | plot_combustion_results.py:63-78 | After an exception, later snapshots change nothing. |
| `SeriesAggregator.CompletedSorted` | plot_combustion_results.py:63-71 | Dropping snapshots keeps ascending time order. |
| `SeriesAggregator.Analyze` | plot_combustion_results.py:44-81 | `analyze_series`: `Collect` over `SortByTime(TimeDirs(...))`. `TimesAscendPositive` states what its result promises. |
| `SeriesAggregator.TimesAscendPositive` | plot_combustion_results.py:52-81 | Every returned time is above 0, and the times never decrease. |
| `SeriesAggregator.VisitSnapshot` | plot_combustion_results.py:64-78 | The loop body, which calls the reader method three times, returns what `Step` specifies. By `Summarise`, that is a row exactly when all three arrays are non-empty, a skip exactly when none raised and one is `None`, and otherwise the first exception. |
| `SeriesAggregator.AnalyzeSeries` | plot_combustion_results.py:44-81 | The whole aggregation returns what `Analyze` specifies: rows for the positive-time directories in time order, skipping incomplete snapshots, or the first exception. |

## Left out

- `plot_results` (matplotlib rendering and image files), the command-line entry point with
  its usage message and `sys.exit`, and the `tqdm` progress bar. These are output and
  observability only.
- Real file-system access. `os.listdir`, `os.path.isdir`, `os.path.join` and `open`
  become the entry sequence and the file function. Errors from `open` other than a missing
  file (permissions, a directory named `T`, undecodable bytes) are not modelled.
- The grammar of Python's `int()` and `float()` (signs, underscores, `nan`, `inf`). Both
  are abstract parameters. Values are exact reals, so IEEE effects such as NaN comparisons
  in `t_val > 0.0` or in `np.max` are not modelled.
- `np.mean` is an abstract parameter because its floating-point summation is not modelled.
  Conversion to numpy arrays is the identity on sequences.
- `SeriesAggregator.VisitSnapshot`: Python appends the time before `np.max` raises on an
  empty field. The model checks for empty fields before appending anything. Because the
  exception discards every list, the result is the same.
- `TimeOrder.SortByTimeSortsAndPermutes`: Python's `sorted` is Timsort, while the model is
  a stable insertion sort. Both are stable sorts on the same key, so their outputs agree,
  but the model does not prove that a stable sorted permutation is unique.
- `TimeOrder.TimeOf` maps a name that does not parse to 0. That case is never used,
  because only names that parse are sorted or turned into times.
