# RAM-style constraint emitter

A Dafny model of `gen_constrs.py`, the script that prints Vivado-style
`set_property ram_style` directives for the memory cells of a streaming
design. Given a dimension `dim`, it loops over `range(dim * dim)`. It sorts
each index `i` into one of four bands by the literal thresholds 0, 800 and 2479:

| index | style | cell name |
|---|---|---|
| `i == 0` | `ultra` | `FeaturePair` |
| `1 <= i < 800` | `ultra` | `FeaturePair_<i>` |
| `800 <= i < 2479` | `block` | `FeaturePair_<i>` |
| `i >= 2479` | `distributed` | `FeaturePair_<i>` |

For each index it prints
`set_property ram_style <style> [get_cells streaming_wrapper/<name>/DualPortRAMBB/mem_reg]`.

Modules:

- `Wrappers`: `Option`, the result type of the parsers.
- `Decimal`: `NatToDecimal` is Python's `%d` for a non-negative integer. `ParseDecimal` is its inverse. The module proves the two form a bijection between the naturals and the canonical digit strings.
- `GenConstrs`: covers the emitter.
  - `Style` classifies an index into its band.
  - `CellName` builds the cell name. `Line` is one directive, built by `Render`.
  - `Emit(dim)` is the whole output, one string per printed line.
  - `EmitLines` is the loop. Its body, `DirectiveFor`, is written branch by branch with the script's literal directive texts.
  - `Run` is a whole invocation, taking an argument that has already been read.
- `DirectiveParse`: `ParseLine` reads a directive back into its style and index. It is the exact inverse of `Render`, and it is how the lemmas about order and distinctness name the index of an output line.
- `EmitProperties`: lemmas about the whole output.

The line count is `dim * dim` for every integer `dim`, so a negative dimension
such as -3 prints 9 lines (`EmitNegated`, `SmallDimensions`): the loop bound at
gen_constrs.py:6 is a square, which is never negative. The model has no memory
or platform bound on that count (see "## Left out").

## Model

| member | source | states |
|---|---|---|
| `Decimal.NatToDecimal` | gen_constrs.py:10 | the `%d` rendering is a non-empty string of digits with no leading zero; it starts with `0` exactly for 0, and has one digit exactly below 10 |
| `Decimal.ParseDecimal` | gen_constrs.py:10 | for every natural `n`, the parser returns `Some(n)` exactly when `s` is the `%d` rendering of `n`; it rejects every other string |
| `Decimal.ValueOfDecimal` | gen_constrs.py:10 | reading the digits of a rendering gives back the number |
| `Decimal.DecimalOfValue` | gen_constrs.py:10 | every canonical digit string is the rendering of the number it denotes |
| `Decimal.NatToDecimalInjective` | gen_constrs.py:10-14 | distinct indices get distinct `%d` suffixes |
| `GenConstrs.Style` | gen_constrs.py:7-14 | the style is `ultra` exactly below 800, `block` exactly in `[800, 2479)`, and `distributed` exactly from 2479; index 0 and indices 1-799 share `ultra` |
| `GenConstrs.CellName` | gen_constrs.py:7-14 | every name starts with `FeaturePair`; it is exactly `FeaturePair` for index 0; for any other index, `_` follows, and the rest is the `%d` rendering of the index |
| `GenConstrs.Render` | gen_constrs.py:8-14 | a directive is the fixed prefix `set_property ram_style `, the style word, the fixed ` [get_cells streaming_wrapper/`, the cell name and the fixed tail `/DualPortRAMBB/mem_reg]`, at consecutive positions; only the style word and the name vary |
| `GenConstrs.Line` | gen_constrs.py:8-14 | the line for index `i` opens with the fixed prefix and closes with the fixed tail; after the prefix comes the style word of `i`'s band, and before the tail comes `i`'s cell name |
| `GenConstrs.SquareNonNegative` | gen_constrs.py:6 | `dim * dim` is never negative, so `range(dim * dim)` runs for every integer `dim` |
| `GenConstrs.Emit` | gen_constrs.py:6 | the output has exactly `dim * dim` lines, for negative `dim` too |
| `GenConstrs.DirectiveFor` | gen_constrs.py:7-14 | the loop body, choosing among the script's four literal print statements, yields exactly the model's directive `Line(i)` |
| `GenConstrs.EmitLines` | gen_constrs.py:6-14 | the loop over `range(dim * dim)`, appending one directive per index, yields exactly `Emit(dim)` |
| `GenConstrs.LineBands` | gen_constrs.py:7-14 | per band, the directive text equals the script's literal: the bare `FeaturePair` line with `ultra` for index 0; the `FeaturePair_%d` line with `ultra` below 800, `block` below 2479, and `distributed` from 2479 |
| `GenConstrs.StyleMonotone` | gen_constrs.py:9-14 | as the index grows, the style never moves back from `block` to `ultra` or from `distributed` to `block` |
| `GenConstrs.CellNameInjective` | gen_constrs.py:7-14 | distinct indices get distinct cell names; the bare base name belongs to index 0 only |
| `GenConstrs.Run` | gen_constrs.py:5-14 | a missing or non-integer argument gives the invalid-argument outcome and no lines; an integer argument `dim` prints exactly `Emit(dim)`, which has `dim * dim` lines |
| `DirectiveParse.ParseCellNameOf` | gen_constrs.py:7-14 | the name printed for index `i` reads back as `i` |
| `DirectiveParse.ParseCellNameSound` | gen_constrs.py:7-14 | every name the parser accepts is the name printed for the index it reads |
| `DirectiveParse.ParseCellNameExact` | gen_constrs.py:7-14 | the name parser returns index `i` exactly for the name printed for `i` |
| `DirectiveParse.ParseRender` | gen_constrs.py:8-14 | a directive for any style and cell reads back as that style and index |
| `DirectiveParse.ParseLineSound` | gen_constrs.py:8-14 | every line the parser accepts is a rendered directive for what it reads |
| `DirectiveParse.ParseLineExact` | gen_constrs.py:8-14 | the parser yields directive `d` if and only if the line is the rendering of `d` |
| `DirectiveParse.LineRoundTrip` | gen_constrs.py:7-14 | the line printed for index `i` reads back as style `Style(i)` and index `i` |
| `DirectiveParse.LineInjective` | gen_constrs.py:7-14 | distinct indices print distinct lines |
| `EmitProperties.EmitAt` | gen_constrs.py:6-14 | line `k` of the output names index `k`, with that index's style |
| `EmitProperties.EmitInOrder` | gen_constrs.py:6 | every output line parses, and the indices the lines name strictly ascend |
| `EmitProperties.EmitDistinct` | gen_constrs.py:6-14 | no output line appears twice |
| `EmitProperties.EmitBands` | gen_constrs.py:7-14 | along the output, line 0 and the lines below 800 are `ultra`, lines in `[800, 2479)` are `block`, and the lines from 2479 are `distributed` |
| `EmitProperties.EmitNegated` | gen_constrs.py:6 | a dimension and its negation print the same output of `dim * dim` lines |
| `EmitProperties.SmallDimensions` | gen_constrs.py:6-8 | dimension 0 prints nothing; dimensions 1 and -1 print exactly the bare `FeaturePair` `ultra` directive; dimension -3 prints 9 lines |

## Left out

- Reading `sys.argv[1]` and parsing it with Python's `int()` (gen_constrs.py:5) are process-level argument handling. `Run` takes the argument already read as an `Option<int>`, where `None` stands for a missing or non-integer argument. Python's diagnostic and non-zero exit status become the `InvalidArgument` outcome.
- Printing to standard output with the Python 2 `print` statement is left out. The output is the returned sequence, with one element per printed line and no newline terminators.
- Python 2's `range(dim * dim)` builds the whole index list before the loop starts (gen_constrs.py:6). For a large square it fails with `MemoryError` before printing anything. Once `dim * dim` no longer fits a C `long`, it raises `OverflowError`. `Emit` and `EmitLines` have no such bound: they describe the output for every integer `dim`, as if memory were unlimited.
- The meaning of the directives to the hardware toolchain is left out. The model treats them as opaque strings.
