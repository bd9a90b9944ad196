# truthtables in Dafny

A model of the `truthtables` library and of its older `tt` package. Both
hold Boolean functions as tables and move them between three text forms:

- **dense truth tables**: one output bit string per input assignment, with
  `2^n` rows;
- **covers** (`PLA`): lists of input cubes over `0`, `1`, `-` paired with
  output cubes;
- **numeric tables** (`tt.TruthTable`): two cell arrays in which 2 stands
  for a don't-care.

The model covers three things:

- reading and writing the Berkeley PLA text format (`.i`, `.o`, `.p`,
  `.ilb`, `.ob`, `.type` directives, cube lines, `.e`/`.end`);
- writing Verilog modules, as a `case` statement or as a sum of products
  for each output;
- choosing the writer from a file name.

Files and clocks are parameters:

- a file being read is its list of lines;
- a file being written is the text produced;
- `datetime.now()` is a `stamp` string.

Python's runtime failures are an `Err` of a `Failure` datatype that names
the exception. This covers `ValueError`, `IndexError`, `AttributeError`,
`NotImplementedError`, the `PLAParsingError` of each reader, and the
unbound local raised when a header lacks a directive. Some source code works
step by step: the readers' loops, the writers' accumulating `f.write`
calls, `_line_to_list`, `input_product`, `__str__` and `to_int`. Those are
methods with loop invariants. Each is proved equal to a specification
function, and the properties of that function are proved as lemmas.

Modules, in dependency order:

- `Base`: `Option`, `Result`, the failures.
- `Builtins`: `str.strip`/`split`, `int()`, `" ".join`, the line
  splitting of text-mode files (a line ends at `\n`, `\r` or `\r\n`),
  Python indexing and slicing.
- `Binary`: `bin(k)[2:].zfill(w)`, `log2`.
- `Literals`: the literals of a product and its `" & "` text.
- `Trits`: `_line_to_list` and the rendering of cells.
- `DenseTables`: the `truthtables.TruthTable` class.
- `Covers`: the `truthtables.PLA` class.
- `PlaHeader`: the header scan shared by `read_pla_info` and `read_info`.
- `PlaLines`: the section checks of a cube line.
- `PlaReader`: `truthtables.read_pla` and `read_pla_info`.
- `TtRead`: the body loop shared by `tt.utils.pla.read_pla` and
  `pla_utils.read_table`.
- `TtTables`: the `tt.TruthTable` class.
- `WrittenPla`: what a written PLA file looks like to the readers.
- `TtPla`: `tt/utils/pla.py`.
- `TtPlaUtils`: `tt/utils/pla_utils.py`.
- `VerilogIo`: `truthtables/io.py`.
- `TtVerilog`: `tt/utils/verilog.py`.

The central results:

- Every writer round-trips through its reader. These are
  `TtPla.RoundTrip`, `TtPlaUtils.RoundTrip` and `VerilogIo.PlaRoundTrip`.
- Each header count is the last directive that sets it.
- A reader fails exactly on the first bad line, or on a product-count
  mismatch.
- Every Verilog sum of products is true under exactly the onset of its
  output. These are `VerilogIo.DenseSopMeaning`, `VerilogIo.CoverSopMeaning`
  and `TtVerilog.SopMeaning`.
- The case statement has exactly one arm per input assignment.

## Model

| member | source | states |
|---|---|---|
| Builtins.CarriageReturnExample | truthtables/truthtable.py:186-187 | reading a file in text mode ends a line at `\n`, at `\r` and at `\r\n`: `.ilb a` CR `1 1` CR LF `.e` is the three lines `.ilb a`, `1 1`, `.e` |
| Binary.Log2 | truthtables/truthtable.py:10-13 | `log2(len(rows))` is integral exactly when the row count is a power of two, and then it is the exponent; this is the exact logarithm, not the source's float test (see Left out) |
| Binary.PaddedBin | truthtables/truthtable.py:49-51 | `bin(k)[2:].zfill(w)` is a binary string of value `k`, at least `w` long, exactly `w` long iff `k < 2^w` |
| Binary.PaddedBinOfValue | tt/truthtable.py:89-91 | a `w`-digit binary string is recovered from its value by zero-padded `bin` |
| Binary.BitsInjective | tt/truthtable.py:89-91 | two binary strings of the same length with the same value are equal |
| Trits.ToCells | tt/utils/pla.py:101-115 | `_line_to_list` succeeds iff every character is `0`, `1`, `-` or `~`, mapping them to 0, 1, 2, 2 position by position; otherwise ValueError |
| Trits.LineToList | tt/utils/pla_utils.py:10-21 | the loop that appends one cell per character computes `ToCells`, failing at the first other character |
| Trits.CellsFailureSticks | tt/utils/pla.py:113-114 | once a bad character is met, the rest of the line does not change the outcome |
| Trits.ReadRendered | tt/truthtable.py:38-39 | cells written with `2` replaced by `-` or `~` are read back by `_line_to_list` as the same cells |
| DenseTables.NewTruthTable | truthtables/truthtable.py:9-30 | with the exact logarithm (see Left out), the constructor succeeds iff the row count is a power of two and explicit labels match the shape; an empty table fails in `log`; given labels are kept, missing ones default to `i0..`/`o0..`; the output count is the width of row 0 |
| DenseTables.InputStr | truthtables/truthtable.py:49-51 | `input_str(k)` is the binary of `k`, exactly `num_inputs` digits long iff `k` is a row index |
| DenseTables.InputStrBijective | truthtables/truthtable.py:49-51 | on the rows of a valid table, `input_str` is a bijection between row indices and `num_inputs`-digit assignments |
| DenseTables.ColumnOnes | truthtables/truthtable.py:56 | the rows with `1` in a column, increasing; IndexError iff some row is too short |
| DenseTables.Onset | truthtables/truthtable.py:53-56 | an unknown output label is a ValueError; otherwise exactly the rows whose output column is `1`, in increasing order |
| DenseTables.DenseProduct | truthtables/truthtable.py:58-66 | `input_product(k)` fails with IndexError iff `k` has more binary digits than there are inputs |
| DenseTables.InputProduct | truthtables/truthtable.py:58-66 | the loop of `input_product` computes `DenseProduct` |
| DenseTables.MintermProduct | truthtables/truthtable.py:60-66 | the term loop over a bit string yields the minterm text, or IndexError when labels run out |
| DenseTables.DenseProductMeaning | truthtables/truthtable.py:58-66 | a row's product has one literal per input, negated iff the bit is 0, and holds under exactly the assignment of that row |
| DenseTables.IntendedProduct | truthtables/truthtable.py:49-66 | the evidently intended `input_product`: it succeeds iff the row index is below `2^num_inputs`, with the empty product for the one row of a table without inputs |
| DenseTables.IntendedProductRows | truthtables/truthtable.py:49-66 | the intended product exists for every row of a valid table, including the one row of a table without inputs |
| DenseTables.IntendedAgrees | truthtables/truthtable.py:49-66 | with at least one input, the intended product is the product the source computes |
| DenseTables.ConstantTableProduct | truthtables/truthtable.py:49-66 | the one-row table `["1"]` gets no inputs and output `o0`; `input_product(0)` fails with IndexError, since `bin(0)[2:].zfill(0)` is `"0"`; the intended product is empty |
| DenseTables.CountingTableExample | truthtables/truthtable.py:9-30 | a four-row table gets inputs `i0, i1` and outputs of its row width |
| Covers.NumInputs | truthtables/truthtable.py:131-133 | `num_inputs` is the length of the first input cube; IndexError for an empty cover |
| Covers.NumOutputs | truthtables/truthtable.py:135-137 | `num_outputs` is the length of the first output cube; IndexError for an empty cover |
| Covers.NewPla | truthtables/truthtable.py:72-93 | the constructor keeps the cubes and name; default labels need a first cube of their kind, and IndexError is raised exactly when one is missing |
| Covers.GetItem | truthtables/truthtable.py:111-113 | an integer key gives the pair of cubes at that Python index (negative counts from the end), IndexError when out of range |
| Covers.Slice | truthtables/truthtable.py:111-114 | an in-range slice key gives a cover of the sliced cube lists with default name and labels, and fails with IndexError exactly when the slice is empty |
| Covers.Lines | truthtables/truthtable.py:116-120 | iteration yields, per product, the input cube, a space and the output cube; IndexError if the output list is shorter |
| Covers.ToString | truthtables/truthtable.py:119-120 | `str(pla)` succeeds iff there is an output cube for every input cube |
| Covers.Concat | truthtables/truthtable.py:122-129 | `a + b` concatenates the cube lists, keeping `a`'s name and labels |
| Covers.ConcatLines | truthtables/truthtable.py:122-129 | the lines of `a + b` are the lines of `a` followed by those of `b` |
| Covers.Onset | truthtables/truthtable.py:151-156 | unknown label is a ValueError; otherwise the increasing indices of products whose output cube has `1` in that column |
| Covers.CubeLits | truthtables/truthtable.py:158-166 | a cube's literals are its cared positions, increasing, negated iff the character is `0` |
| Covers.CubeMeaning | truthtables/truthtable.py:158-166 | the conjunction of a cube's literals holds under exactly the assignments the cube matches (`-` matches both values) |
| Covers.CubeProduct | truthtables/truthtable.py:158-166 | the product of a cube fails with IndexError iff some cared position has no label |
| Covers.CoverProduct | truthtables/truthtable.py:158-166 | `input_product(k)` fails with IndexError for a line number out of Python range |
| Covers.InputProduct | truthtables/truthtable.py:158-166 | the loop of `PLA.input_product` computes `CoverProduct` |
| Covers.CubeProductLoop | truthtables/truthtable.py:160-166 | the term loop over one cube computes `CubeProduct` |
| PlaHeader.ScanHeader | truthtables/truthtable.py:222-229 | the loop over the lines computes the header scan |
| PlaHeader.Scan | truthtables/truthtable.py:222-229 | the scan fails iff some `.i`/`.o`/`.p` line has a non-integer last word; otherwise each count is the value of the last directive of its kind, or unset when there is none |
| PlaHeader.ScanFailure | truthtables/truthtable.py:224-229 | the scan fails iff some `.i`/`.o`/`.p` line has a non-integer last word, with the error of the first one |
| PlaHeader.ScanLastWins | truthtables/truthtable.py:222-229 | each count the scan returns is the value of the last directive of its kind, or unset if none |
| PlaHeader.ScanCounts | tt/utils/pla.py:62-68 | the same for all three counts together |
| PlaHeader.NeverSet | truthtables/truthtable.py:222-229 | a count with no directive stays unset |
| PlaHeader.Checked | truthtables/truthtable.py:231-238 | `read_pla_info`'s checks in order `.i`, `.o`, `.p`: an unset count is an unbound local, a zero count a PLAParsingError naming it; succeeds iff all three are set and nonzero, returning them |
| PlaHeader.Unchecked | tt/utils/pla_utils.py:84 | `read_info` returns the counts iff all three are set, else an unbound local |
| PlaHeader.DirectiveLine | truthtables/io.py:104 | the line `.i N` the writers emit is recognised by the scan as an inputs directive of value N |
| PlaHeader.KindOfDirective | truthtables/truthtable.py:224-225 | a stripped line starting `.i ` is an inputs directive whose value is `int` of its last word |
| PlaLines.CheckSections | truthtables/truthtable.py:191-198 | a cube line is accepted iff it splits into two sections of the announced widths; otherwise the error of the first check that fails, at its line |
| PlaLines.CollectMeaning | truthtables/truthtable.py:187-200 | the append loop succeeds iff no line fails, gathering the kept cubes in order, and otherwise stops at the first failure |
| PlaReader.ReadPlaInfo | truthtables/truthtable.py:208-238 | the method computes the checked header info |
| PlaReader.Info | truthtables/truthtable.py:208-238 | a scan failure is passed on; a successful result is the three scanned counts, all set and nonzero |
| PlaReader.InfoMeaning | truthtables/truthtable.py:222-238 | each count returned is the last directive's and nonzero; no `.i` is an unbound local; a non-integer count fails |
| PlaReader.ReadPla | truthtables/truthtable.py:180-205 | the method computes `read_pla` on the file's lines |
| PlaReader.Read | truthtables/truthtable.py:180-205 | a header failure is passed on; on success both lists have exactly the `.p` count of entries |
| PlaReader.ReadBody | truthtables/truthtable.py:184-200 | the loop appends the two sections of each accepted cube line, or returns the first failure |
| PlaReader.ReadLine | truthtables/truthtable.py:188-198 | one line: stripped, skipped unless it starts with `1`, `0` or `-`, otherwise checked |
| PlaReader.WrittenCube | truthtables/truthtable.py:190-198 | the line `a b` with the announced widths is accepted as the cube `(a, b)` |
| PlaReader.KeptCubes | truthtables/truthtable.py:187-200 | the kept cubes are exactly the cube lines' two sections, in order, of the announced widths |
| PlaReader.ReadMeaning | truthtables/truthtable.py:180-205 | a successful read returns one input and one output section per cube line, in file order, with the announced widths and product count |
| PlaReader.ReadFailure | truthtables/truthtable.py:191-203 | the read fails exactly when some line fails (with the first failure) or the cube count differs from `.p` |
| TtRead.ReadTableBody | tt/utils/pla.py:17-53 | the in-place loop over two `np.empty` arrays, keeping `tt_start` as the source does (0 meaning unset), computes `Table` |
| TtRead.StoreLine | tt/utils/pla.py:24-51 | one pass: at a cube line `tt_start` becomes the line number while it is still 0, then the converted cells are stored at row `line_num - tt_start` of both arrays, or the pass fails |
| TtRead.Table | tt/utils/pla.py:17-53 | a negative dimension is a ValueError from `np.empty`; a successful read has `num_products` rows of the announced widths, and every written row has its array's width |
| TtRead.FillingAsWritten | tt/utils/pla.py:20-51 | the loop as written, over the per-line outcomes: on success both arrays keep `num_products` rows |
| TtRead.Filling | tt/utils/pla.py:20-51 | the loop with `tt_start` fixed at the first cube line: on success both arrays keep `num_products` rows |
| TtRead.AsWrittenSucceeds | tt/utils/pla.py:24-51 | when line 0 is not a cube line, the loop as written succeeds iff no line fails its checks and every cube line lies within `num_products` rows of the first |
| TtRead.AsWrittenRows | tt/utils/pla.py:50-51 | when line 0 is not a cube line, `tt_start` ends as the first cube line and row `r` of each array holds the cells of the line `r` lines after it, or is unwritten when that line is not a cube line |
| TtRead.AsWrittenContiguous | tt/utils/pla.py:50-51 | when the cube lines are contiguous, start after line 0 and are as many as the products, row `r` holds the `r`-th cube's cells |
| TtRead.AsWrittenWidths | tt/utils/pla.py:28-36 | every row the loop writes has the width of its array |
| TtRead.FillingSucceeds | tt/utils/pla.py:24-51 | for the intended loop: it succeeds iff no line fails its checks and every cube line lies within `num_products` rows of the first |
| TtRead.FillingRows | tt/utils/pla.py:50-51 | for the intended loop: row `r` of each array holds the cells of the line `r` lines after the first cube line, or is unwritten when that line is not a cube line |
| TtRead.Contiguous | tt/utils/pla.py:50-51 | for the intended loop: when the cube lines are contiguous and as many as the products, row `r` holds the `r`-th cube's cells |
| TtRead.AsWrittenAgrees | tt/utils/pla.py:25-26 | when the first line is not a cube line, the loop as written and the intended loop agree |
| TtRead.StartResetExample | tt/utils/pla.py:25-26 | a file opening with cubes `1 1`, `0 0`: the as-written loop overwrites row 0 and leaves row 1 unwritten; the intended loop stores both |
| TtPla.StartResetFile | tt/utils/pla.py:11-53 | `read_pla` of the file `1 1`, `0 0`, `.i 1`, `.o 1`, `.p 2` returns one-row-wide arrays whose row 0 holds the second cube and whose row 1 is never written |
| TtTables.New | tt/truthtable.py:9-22 | the constructor keeps a two-dimensional array as given, rows and width, and promotes a single row to a one-row array holding exactly that row |
| TtTables.Str | tt/truthtable.py:35-40 | the accumulating `__str__` loop computes the table's text |
| TtTables.Text | tt/truthtable.py:35-40 | the text is a prefix of the product lines each followed by a newline, and ends in no whitespace |
| TtTables.TextLines | tt/truthtable.py:35-40 | the text is the product lines (`-` and `~` for don't-cares) joined by newlines: `rstrip` removes exactly the last newline |
| TtTables.OnesIn | tt/truthtable.py:61 | `nonzero` of a column test: the increasing row indices whose cell in the column is 1 |
| TtTables.Onset | tt/truthtable.py:58-63 | `onset(c)` picks both arrays' rows at those indices; IndexError for a column out of range or a missing input row |
| TtTables.OnsetMeaning | tt/truthtable.py:58-63 | every onset row has a 1 in the column and every such product of the table appears in the onset with its own input row |
| TtTables.Product | tt/truthtable.py:66-76 | `input_product(line)` fails with IndexError iff the line is out of Python range |
| TtTables.InputProduct | tt/truthtable.py:66-76 | the method computes `Product` |
| TtTables.LabelledProduct | tt/truthtable.py:66-76 | with caller labels, `input_labels` is never bound: an out-of-range line is an IndexError, a row with a 0 or 1 cell an unbound local, a row of don't-cares the empty product; without labels it is `Product` |
| TtTables.RowProduct | tt/truthtable.py:70-76 | the term loop over a row of cells yields the product of the row written as a cube |
| TtTables.RowProductMeaning | tt/truthtable.py:70-76 | a row's product holds under exactly the assignments the row covers (2 matching both values) |
| TtTables.RowInts | tt/truthtable.py:86-92 | one row pair converts to the MSB-first values of its bits, failing on a don't-care |
| TtTables.ToInt | tt/truthtable.py:79-94 | the loop filling two zeroed arrays computes the specification `ToInts` |
| TtTables.ToInts | tt/truthtable.py:79-94 | on success both arrays have `num_products` cells |
| TtTables.ConvertRow | tt/truthtable.py:86-92 | one pass of the loop computes the outcome of one row pair |
| TtTables.RowIntsRoundTrip | tt/truthtable.py:89-92 | a converted row fits in int64 and its zero-padded binary is the row again |
| TtTables.ToIntsMeaning | tt/truthtable.py:79-94 | `to_int` succeeds iff every paired row pair is free of don't-cares, non-empty and within int64; then cell `k` holds row `k`'s value (its zero-padded binary is the row again) and the cells past the paired rows stay 0 |
| TtPla.ReadPla | tt/utils/pla.py:11-53 | the method computes `read_pla`: the header info, then the loop as written |
| TtPla.Read | tt/utils/pla.py:11-53 | a header failure is passed on, a negative count is a ValueError; a successful read returns arrays of `num_products` rows and the announced widths, every written row of that width |
| TtPla.WritePla | tt/utils/pla.py:83-98 | the writing method produces the file text; `.type` is written only for a non-empty type |
| TtPla.PlaText | tt/utils/pla.py:83-98 | the file starts with the header lines, each followed by a newline, and ends with `.end` and no newline after it |
| TtPla.HeadWritten | tt/utils/pla.py:86-95 | the written header announces the table's input, output and product counts |
| TtPla.FileLines | tt/utils/pla.py:85-98 | when the stamp and the type hold no line break (`\n` or `\r`), the file splits into the header, one cube line per product, and `.end` |
| TtPla.ReadWritten | tt/utils/pla.py:11-53 | those lines are read back as the table's counts and cells |
| TtPla.RoundTrip | tt/utils/pla.py:83-98 | when the stamp and the type hold no line break, what `write_pla` writes, `read_pla` reads back: the table's counts and, row by row, its cells |
| TtPlaUtils.ReadInfo | tt/utils/pla_utils.py:69-84 | the method computes `read_info` |
| TtPlaUtils.InfoOf | tt/utils/pla_utils.py:69-84 | a scan failure is passed on; otherwise it succeeds iff all three counts are set, returning the scanned counts |
| TtPlaUtils.InfoMeaning | tt/utils/pla_utils.py:74-84 | each count returned is that of the last directive of its kind |
| TtPlaUtils.InfoFailure | tt/utils/pla_utils.py:74-84 | a non-integer count fails; a missing directive is an unbound local |
| TtPlaUtils.InfoAgrees | tt/utils/pla_utils.py:69-84 | `read_info` accepts what `read_pla_info` accepts, with the same counts, and additionally only headers with a zero count |
| TtPlaUtils.ReadTable | tt/utils/pla_utils.py:24-66 | the method computes `read_table`: the counts of `read_info`, then the loop as written |
| TtPlaUtils.TableOf | tt/utils/pla_utils.py:24-66 | a header failure is passed on, a negative count is a ValueError; a successful read returns arrays of `num_products` rows and the announced widths, every written row of that width |
| TtPlaUtils.TableText | tt/utils/pla_utils.py:99-106 | `write_table` fails with IndexError exactly for an empty list of entries |
| TtPlaUtils.WriteTable | tt/utils/pla_utils.py:99-106 | the writing method produces that text |
| TtPlaUtils.HeadWritten | tt/utils/pla_utils.py:100-103 | the header announces the first entry's widths and the entry count |
| TtPlaUtils.FileLines | tt/utils/pla_utils.py:99-106 | split into lines, the file is the header, one line per entry, and `.e` |
| TtPlaUtils.TableOfWritten | tt/utils/pla_utils.py:24-66 | those lines are read back as the entries' cells |
| TtPlaUtils.RoundTrip | tt/utils/pla_utils.py:87-106 | what `write_table` writes, `read_table` reads back, entry by entry |
| TtPlaUtils.StarExample | tt/utils/pla_utils.py:93-97 | the `*` output don't-care the documentation offers does not read back: the read fails with an unexpected character at the entry's line |
| VerilogIo.Suffix | truthtables/io.py:24-33 | `Path(name).suffix` is empty or a dot followed by a dot-free, slash-free word |
| VerilogIo.SuffixOf | truthtables/io.py:26-29 | `dir/stem.ext` has suffix `.ext` iff the stem is non-empty |
| VerilogIo.ToFile | truthtables/io.py:9-45 | unknown suffix without a format, unknown mode for Verilog, and unknown format are ValueErrors |
| VerilogIo.ToFileByName | truthtables/io.py:24-43 | `stem.v` selects the Verilog writer of the mode, `stem.pla` the PLA writer, any other name is refused |
| VerilogIo.PortList | truthtables/io.py:87-95 | the module's port list is the input declaration list followed by the output one |
| VerilogIo.HeaderText | truthtables/io.py:87-95 | `_get_header`: when no label, name or stamp holds a line break, the text is exactly the comment, the module line, a blank line, the input and output declarations (`output reg` for the case writer) and a blank line |
| VerilogIo.CaseBlock | truthtables/io.py:64-76 | `get_case_block` fails with NotImplementedError exactly for a cover |
| VerilogIo.GetCaseBlock | truthtables/io.py:64-76 | the accumulating method computes `CaseBlock` |
| VerilogIo.CaseArms | truthtables/io.py:69-72 | every arm label is a `num_inputs`-digit binary of its row index, and every assignment labels exactly one arm |
| VerilogIo.VerilogCase | truthtables/io.py:79-84 | `write_verilog_case` fails exactly for a cover |
| VerilogIo.WriteVerilogCase | truthtables/io.py:79-84 | the writing method produces that text |
| VerilogIo.OutputAssign | truthtables/io.py:53-59 | one output: succeeds iff the onset and all its products do; fails with the onset's error, else with the first product's error; otherwise no line for an empty onset and exactly one `assign` line summing the bracketed products of a non-empty onset, one per onset index |
| VerilogIo.AssignsMeaning | truthtables/io.py:53-59 | the outer loop fails iff some output's assignment does; otherwise its lines are, in output order, one per output whose onset is not empty, summing that onset's products |
| VerilogIo.InputProduct | truthtables/io.py:56 | the product text of one onset line, for either table kind |
| VerilogIo.OnsetProducts | truthtables/io.py:54-56 | the inner loop brackets each onset product |
| VerilogIo.WriteVerilogSop | truthtables/io.py:48-61 | the writing method produces the SOP module text |
| VerilogIo.VerilogSop | truthtables/io.py:48-61 | `write_verilog_sop` fails iff some output's assignment does; otherwise it is the header, one `assign` line per output with a non-empty onset, and `endmodule` |
| VerilogIo.DenseSopWritten | truthtables/io.py:48-61 | for a valid dense table with at least one input whose rows are as wide as its outputs, `write_verilog_sop` succeeds |
| VerilogIo.CoverSopWritten | truthtables/io.py:48-61 | for a cover with as many output cubes as input cubes, input cubes of the first cube's width and output cubes at least as wide, `write_verilog_sop` succeeds |
| VerilogIo.ConstantTableSop | truthtables/io.py:48-61 | for the one-row table `["1"]`, `write_verilog_sop` fails: the product of its only onset row raises IndexError |
| VerilogIo.DenseSopProducts | truthtables/io.py:55-56 | for a dense table, the products written are the minterms of the onset rows |
| VerilogIo.DenseSopMeaning | truthtables/io.py:53-59 | the written sum is true under exactly the assignments whose row has `1` for that output |
| VerilogIo.CoverSopProducts | truthtables/io.py:55-56 | for a cover, the products written are the onset products' input cubes |
| VerilogIo.CubeRowProduct | truthtables/truthtable.py:158-166 | `input_product(k)` of a cover is the product text of cube `k`'s literals |
| VerilogIo.CoverSopMeaning | truthtables/io.py:53-59 | the written sum is true under exactly the assignments matched by a cube whose output cube has `1` for that output |
| VerilogIo.PlaFile | truthtables/io.py:98-112 | `write_pla` succeeds exactly for a cover with a first input and output cube, a `pla_type` and enough output cubes; a dense table fails |
| VerilogIo.WritePla | truthtables/io.py:98-112 | the writing method produces that text |
| VerilogIo.HeadWritten | truthtables/io.py:103-109 | the header announces the cover's widths and product count |
| VerilogIo.PlaFileLines | truthtables/io.py:102-112 | for a readable cover (cubes are blank-free words of the first cube's widths, input cubes start with `0`, `1` or `-`, labels hold no line break `\n` or `\r`) and a type and stamp without line breaks, the file splits into the header, the cube lines and `.end` |
| VerilogIo.ReadWritten | truthtables/truthtable.py:180-205 | `read_pla` reads those lines back as the cover's cubes |
| VerilogIo.PlaRoundTrip | truthtables/io.py:98-112 | for a readable cover and a type and stamp without line breaks, what `write_pla` writes, `read_pla` reads back as the same input and output cubes |
| VerilogIo.CarriageReturnLabel | truthtables/io.py:102-106 | a cover with the label `a` CR `1 1` is not readable: written out, its `.ilb` line would split into two lines |
| TtVerilog.Products | tt/utils/verilog.py:17-19 | one bracketed product per onset row |
| TtVerilog.RowProduct | tt/utils/verilog.py:19 | `line.input_product(0)` of a row made its own table is the product of its cells |
| TtVerilog.OnsetProducts | tt/utils/verilog.py:16-19 | the inner loop computes `Products` |
| TtVerilog.HeaderText | tt/utils/verilog.py:6-14 | when the module name holds no line break, the text is exactly the module line over the default labels, a blank line, the input and output declarations and a blank line |
| TtVerilog.VerilogSop | tt/utils/verilog.py:3-23 | fails iff some output's onset does; otherwise the header, then for every output `c` in order the line assigning `oC` the bracketed products of its onset, then `endmodule` |
| TtVerilog.WriteVerilogSop | tt/utils/verilog.py:3-23 | the writing method produces the module text |
| TtVerilog.OnsetRows | tt/utils/verilog.py:18 | the onset of an existing output holds, in order, the input rows of the products whose output is 1 |
| TtVerilog.SopMeaning | tt/utils/verilog.py:16-21 | the written sum is true under exactly the assignments covered by a row whose output is 1 |
| TtVerilog.EmptyOnsetLine | tt/utils/verilog.py:20-21 | an output that is never 1 still gets the line `assign oC = ;` |

## Left out

- Files and clocks: reading is modelled on the list of lines a file splits
  into, writing on the text written, and `datetime.now()` on a stamp
  parameter. The contents of a partly written file after an exception are
  not modelled.
- Path normalisation by `pathlib` beyond `suffix`, such as `..` or
  repeated slashes.
- `PLA.entropy`, `PLA.output_entropies` and `entropy`: floating-point
  arithmetic.
- `PLA.from_file`: it is `read_pla` followed by the constructor, both
  modelled.
- The `filename=` path of the `tt.TruthTable` constructor: it is
  `tt.utils.pla.read_pla` (`TtPla.Read`) followed by storing the two
  arrays it returns, both modelled; the model builds tables only from
  given arrays.
- `PLA.from_truth_table`: it reads the attributes `table.output_lines`
  and `table.inptus`, which a `TruthTable` does not have. Its only effect
  is the AttributeError that `VerilogIo.PlaFile` returns for a dense
  table.
- `PLA.pla_type` is never set by the class. `write_pla` fails with
  AttributeError unless a caller sets it, so the model carries it as an
  optional field beside the cover.
- `int()`: the model parses an optional sign followed by ASCII decimal
  digits, and reports a ValueError for any other word. Python agrees on
  signed and unsigned ASCII forms. It also accepts underscores between
  digits (`1_0`) and non-ASCII Unicode decimal digits, which the model
  rejects.
- Binary.Log2: the dense constructor tests whether the float
  `math.log(len(rows), 2)` is integral. The model uses the exact integer
  logarithm instead, and does not model floating-point rounding. The two
  differ on large tables: `math.log(2**29, 2)` is `29.000000000000004`, so
  the source refuses tables of 2^29, 2^31, 2^39, 2^47, 2^51, 2^55, 2^58,
  2^59 and 2^62 rows, and `math.log(2**53 + 1, 2)` is `53.0`, so it accepts
  2^53 + 1 rows as a table of 53 inputs.
- DenseTables.NewTruthTable: for the same reason it accepts exactly the
  powers of two, including the large ones the source refuses, and refuses
  2^53 + 1 rows, which the source accepts.
- Slices with a step, and `TruthTable.__getitem__`, `__iter__` and
  `__len__` of the dense table, which only expose the row list.
- The `tt.TruthTable.__getitem__` and `__iter__` wrappers: the model works
  on row sequences directly.
- `np.empty` rows that no cube line writes hold arbitrary bytes, which
  the model represents as `None`.
- The numpy width of those rows (`uint8`) is not modelled, since the cells
  are only 0, 1 and 2.
- TtTables.ToIntsMeaning: the int64 array cells are proved in range
  rather than modelling wrap-around, since every converted value fits.
- TtTables.Product: this is the path without caller labels. With labels,
  the misspelled `input_lables` parameter leaves `input_labels` unbound.
  The first 0 or 1 cell of the row then raises UnboundLocalError.
  `TtTables.LabelledProduct` models that path.
- FillingSucceeds: it is stated for the intended loop, where `tt_start`
  is the first cube line. The source's loop differs when line 0 is a cube
  line. `TtRead.AsWrittenSucceeds` states the same for the source's loop
  when line 0 is not a cube line. When line 0 is a cube line, only
  `TtRead.StartResetExample` describes the source.
- Contiguous: the same restriction applies. `TtRead.AsWrittenContiguous`
  states it for the source's loop when the cube run starts after line 0.
  Every file the `tt` writers produce starts with a comment line.
- The `reset_defined` local of the info readers is unused.
- The `tt` Verilog writer writes `assign oC = ;` for an empty onset
  (`TtVerilog.EmptyOnsetLine`), while `truthtables/io.py` skips the
  output. Both are modelled as written.

## Findings

| source | as written | input that shows it | evidently intended | confidence | as-written member | corrected member |
|---|---|---|---|---|---|---|
| tt/utils/pla.py:25-26 (also tt/utils/pla_utils.py:38-39) | `tt_start` uses 0 as "not yet set", so when the first cube line is line 0 the next cube line resets `tt_start` to its own position | a file whose first two lines are the cube lines `1 1` and `0 0`, followed by `.i 1`, `.o 1` and `.p 2`: both cubes go to row 0 and row 1 is never written | `tt_start` is the position of the first cube line, so consecutive cube lines fill consecutive rows | not executed | TtRead.StartResetExample | TtRead.FillingRows |
| truthtables/truthtable.py:49-66 | `input_str(0)` of a table without inputs is `bin(0)[2:].zfill(0)`, which is `"0"`, one digit more than there are inputs, so `input_product(0)` indexes past the empty input list | `TruthTable(["1"])`: the constant-1 function, whose one row gets no inputs; `input_product(0)` and `write_verilog_sop` raise IndexError | `input_str(0)` is the empty string, so the one row's product is the empty product | not executed | DenseTables.ConstantTableProduct | DenseTables.IntendedProductRows |

The readers `TtPla.Read` and `TtPlaUtils.TableOf` follow the source as
written, through `TtRead.FillingAsWritten`. The corrected loop is
`TtRead.Filling`, and `TtRead.FillingRows` proves the intended placement
for it. `TtRead.AsWrittenAgrees` shows that the two loops agree when
line 0 is not a cube line. That covers every file written by
`tt/utils/pla.py` and `tt/utils/pla_utils.py`.

The Verilog writers use `DenseTables.DenseProduct`, as the source does.
`DenseTables.IntendedProduct` is the corrected `input_product`, and
`DenseTables.IntendedAgrees` shows that the two agree on every table with at
least one input. `VerilogIo.DenseSopWritten` and
`VerilogIo.ConstantTableSop` separate the two cases for the writer.
