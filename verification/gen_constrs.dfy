/**
 The constraint emitter: for a dimension `dim` it produces one
 `set_property ram_style` directive per index `i` in `range(dim * dim)`,
 in ascending index order. Each index falls into one of four bands fixed by
 literal thresholds; the band decides the RAM style and whether the cell name
 carries a `_<i>` suffix.
 */
module GenConstrs {
  import opened Wrappers
  import opened Decimal

  /** The three implementation styles a memory cell can be given. */
  datatype RamStyle = Ultra | Block | Distributed

  /** The style keyword as it appears in a directive. */
  function StyleWord(style: RamStyle): string {
    match style
    case Ultra => "ultra"
    case Block => "block"
    case Distributed => "distributed"
  }

  /** Position of a style in the order the bands are laid out along the index axis. */
  function Rank(style: RamStyle): nat {
    match style
    case Ultra => 0
    case Block => 1
    case Distributed => 2
  }

  /**
   The band classification of index `i`: four branches, the first two of
   which share a style, so the styles split the indices at 800 and 2479.
   */
  function Style(i: nat): (r: RamStyle)
    ensures r == Ultra <==> i < 800
    ensures r == Block <==> 800 <= i < 2479
    ensures r == Distributed <==> 2479 <= i
  {
    if i == 0 then Ultra
    else if i < 800 then Ultra
    else if i < 2479 then Block
    else Distributed
  }

  const BaseName: string := "FeaturePair"

  /**
   Index 0 uses the bare base name; every other index appends `_` and its
   `%d` rendering, which can be read back from the end of the name.
   */
  function CellName(i: nat): (r: string)
    ensures BaseName <= r
    ensures r == BaseName <==> i == 0
    ensures i != 0 ==> r[|BaseName|] == '_' && r[|BaseName| + 1..] == NatToDecimal(i)
  {
    if i == 0 then BaseName
    else
      var r := BaseName + "_" + NatToDecimal(i);
      assert r[|BaseName| + 1..] == NatToDecimal(i);
      r
  }

  const Prefix: string := "set_property ram_style "
  const Middle: string := " [get_cells streaming_wrapper/"
  const Tail: string := "/DualPortRAMBB/mem_reg]"

  /** Where the style word ends and the cell name starts in a directive for `style`. */
  function NameStart(style: RamStyle): nat {
    |Prefix| + |StyleWord(style)| + |Middle|
  }

  /**
   The directive giving cell `name` the style `style`: the fixed prefix, the
   style word, the fixed separator, the name and the fixed tail, in that
   order; only the style word and the name vary.
   */
  function Render(style: RamStyle, name: string): (r: string)
    ensures |r| == NameStart(style) + |name| + |Tail|
    ensures r[..|Prefix|] == Prefix
    ensures r[|Prefix|..|Prefix| + |StyleWord(style)|] == StyleWord(style)
    ensures r[|Prefix| + |StyleWord(style)|..NameStart(style)] == Middle
    ensures r[NameStart(style)..NameStart(style) + |name|] == name
    ensures r[NameStart(style) + |name|..] == Tail
  {
    FiveSlices(Prefix, StyleWord(style), Middle, name, Tail);
    Prefix + StyleWord(style) + Middle + name + Tail
  }

  /** The five consecutive slices of a five-part concatenation are its parts. */
  lemma FiveSlices(a: string, b: string, c: string, d: string, e: string)
    ensures var s := a + b + c + d + e;
      && s[..|a|] == a
      && s[|a|..|a| + |b|] == b
      && s[|a| + |b|..|a| + |b| + |c|] == c
      && s[|a| + |b| + |c|..|a| + |b| + |c| + |d|] == d
      && s[|a| + |b| + |c| + |d|..] == e
  {
    var s := a + b + c + d + e;
    assert s == a + (b + (c + (d + e)));
  }

  /**
   The directive printed for index `i`: every such line opens with the fixed
   prefix, closes with the fixed tail, and carries the style word of `i`'s
   band and `i`'s cell name in between.
   */
  function Line(i: nat): (r: string)
    ensures |r| == NameStart(Style(i)) + |CellName(i)| + |Tail|
    ensures r[..|Prefix|] == Prefix
    ensures r[|r| - |Tail|..] == Tail
    ensures r[|Prefix|..|Prefix| + |StyleWord(Style(i))|] == StyleWord(Style(i))
    ensures r[NameStart(Style(i))..|r| - |Tail|] == CellName(i)
  {
    Render(Style(i), CellName(i))
  }

  /** The square of any integer, negative or not, is a natural number. */
  lemma SquareNonNegative(dim: int)
    ensures dim * dim >= 0
  {
    if dim < 0 {
      assert dim * dim == (-dim) * (-dim);
    }
  }

  /** The whole output for dimension `dim`: one line per index of `range(dim * dim)`. */
  function Emit(dim: int): (lines: seq<string>)
    ensures |lines| == dim * dim
  {
    SquareNonNegative(dim);
    seq(dim * dim, k requires 0 <= k => Line(k))
  }

  /**
   One pass of the loop body: the directive for index `i`, chosen among the
   script's four literal print statements.
   */
  method DirectiveFor(i: nat) returns (line: string)
    ensures line == Line(i)
  {
    if i == 0 {
      line := "set_property ram_style ultra [get_cells streaming_wrapper/FeaturePair/DualPortRAMBB/mem_reg]";
    } else if i < 800 {
      line := "set_property ram_style ultra [get_cells streaming_wrapper/FeaturePair_" + NatToDecimal(i) + "/DualPortRAMBB/mem_reg]";
    } else if i < 2479 {
      line := "set_property ram_style block [get_cells streaming_wrapper/FeaturePair_" + NatToDecimal(i) + "/DualPortRAMBB/mem_reg]";
    } else {
      line := "set_property ram_style distributed [get_cells streaming_wrapper/FeaturePair_" + NatToDecimal(i) + "/DualPortRAMBB/mem_reg]";
    }
    LineBands(i);
  }

  /** The emitting loop over `range(dim * dim)`; it prints exactly the model's output. */
  method EmitLines(dim: int) returns (lines: seq<string>)
    ensures lines == Emit(dim)
  {
    SquareNonNegative(dim);
    var total := dim * dim;
    lines := [];
    var i := 0;
    while i < total
      invariant 0 <= i <= total
      invariant lines == Emit(dim)[..i]
    {
      var line := DirectiveFor(i);
      assert line == Emit(dim)[i];
      TakeOneMore(Emit(dim), i);
      lines := lines + [line];
      i := i + 1;
    }
    assert lines == Emit(dim)[..total];
  }

  lemma TakeOneMore<T>(s: seq<T>, i: nat)
    requires i < |s|
    ensures s[..i + 1] == s[..i] + [s[i]]
  {
  }

  /** The four bands, each with the exact text of its directive. */
  lemma LineBands(i: nat)
    ensures i == 0 ==>
      Line(i) == "set_property ram_style ultra [get_cells streaming_wrapper/FeaturePair/DualPortRAMBB/mem_reg]"
    ensures 1 <= i < 800 ==>
      Line(i) == "set_property ram_style ultra [get_cells streaming_wrapper/FeaturePair_" + NatToDecimal(i) + "/DualPortRAMBB/mem_reg]"
    ensures 800 <= i < 2479 ==>
      Line(i) == "set_property ram_style block [get_cells streaming_wrapper/FeaturePair_" + NatToDecimal(i) + "/DualPortRAMBB/mem_reg]"
    ensures 2479 <= i ==>
      Line(i) == "set_property ram_style distributed [get_cells streaming_wrapper/FeaturePair_" + NatToDecimal(i) + "/DualPortRAMBB/mem_reg]"
  {
    if i == 0 {
      BaseLineText();
    } else {
      SuffixedLineText(i);
      if i < 800 {
        UltraHeadText();
      } else if i < 2479 {
        BlockHeadText();
      } else {
        DistributedHeadText();
      }
    }
  }

  /** Everything of a suffixed line before the decimal index. */
  function Head(style: RamStyle): string {
    Prefix + StyleWord(style) + Middle + BaseName + "_"
  }

  lemma SuffixedLineText(i: nat)
    requires i != 0
    ensures Line(i) == Head(Style(i)) + NatToDecimal(i) + Tail
  {
    var w, d := StyleWord(Style(i)), NatToDecimal(i);
    assert Line(i) == Prefix + w + Middle + (BaseName + "_" + d) + Tail;
    RegroupSuffixed(Prefix, w, Middle, BaseName, "_", d, Tail);
  }

  /*
   Two regroupings of concatenations, stated over arbitrary strings so that
   their proofs never look inside the literal pieces of a directive.
   */

  lemma RegroupSuffixed(a: string, b: string, c: string, d: string, e: string, f: string, g: string)
    ensures a + b + c + (d + e + f) + g == (a + b + c + d + e) + f + g
  {
  }

  lemma RegroupRender(a: string, b: string, c: string, d: string, e: string)
    ensures a + b + c + d + e == a + (b + c + (d + e))
  {
  }

  /*
   The remaining lemmas check, one concatenation at a time, that the pieces
   the model assembles spell out the script's literal directive texts. Each
   step is its own lemma because equalities between long string literals are
   costly for the solver when several share one proof.
   */

  lemma BaseLineText()
    ensures Line(0) == "set_property ram_style ultra [get_cells streaming_wrapper/FeaturePair/DualPortRAMBB/mem_reg]"
  {
    BaseLineParts();
    UltraWord();
    UltraLead();
    UltraBase();
  }

  lemma BaseLineParts()
    ensures Line(0) == Prefix + "ultra" + Middle + (BaseName + Tail)
  {
    assert Line(0) == Render(Ultra, BaseName);
  }

  lemma UltraHeadText()
    ensures Head(Ultra) == "set_property ram_style ultra [get_cells streaming_wrapper/FeaturePair_"
  {
    assert Head(Ultra) == Prefix + "ultra" + Middle + (BaseName + "_");
    UltraWord();
    UltraLead();
    UltraHead();
  }

  lemma BlockHeadText()
    ensures Head(Block) == "set_property ram_style block [get_cells streaming_wrapper/FeaturePair_"
  {
    assert Head(Block) == Prefix + "block" + Middle + (BaseName + "_");
    BlockWord();
    BlockLead();
    BlockHead();
  }

  lemma DistributedHeadText()
    ensures Head(Distributed) == "set_property ram_style distributed [get_cells streaming_wrapper/FeaturePair_"
  {
    assert Head(Distributed) == Prefix + "distributed" + Middle + (BaseName + "_");
    DistributedWord();
    DistributedLead();
    DistributedHead();
  }

  lemma UltraWord()
    ensures "set_property ram_style " + "ultra" == "set_property ram_style ultra"
  {
  }

  lemma UltraLead()
    ensures "set_property ram_style ultra" + " [get_cells streaming_wrapper/"
      == "set_property ram_style ultra [get_cells streaming_wrapper/"
  {
  }

  lemma UltraHead()
    ensures "set_property ram_style ultra [get_cells streaming_wrapper/" + "FeaturePair_"
      == "set_property ram_style ultra [get_cells streaming_wrapper/FeaturePair_"
  {
  }

  lemma UltraBase()
    ensures "set_property ram_style ultra [get_cells streaming_wrapper/" + "FeaturePair/DualPortRAMBB/mem_reg]"
      == "set_property ram_style ultra [get_cells streaming_wrapper/FeaturePair/DualPortRAMBB/mem_reg]"
  {
  }

  lemma BlockWord()
    ensures "set_property ram_style " + "block" == "set_property ram_style block"
  {
  }

  lemma BlockLead()
    ensures "set_property ram_style block" + " [get_cells streaming_wrapper/"
      == "set_property ram_style block [get_cells streaming_wrapper/"
  {
  }

  lemma BlockHead()
    ensures "set_property ram_style block [get_cells streaming_wrapper/" + "FeaturePair_"
      == "set_property ram_style block [get_cells streaming_wrapper/FeaturePair_"
  {
  }

  lemma DistributedWord()
    ensures "set_property ram_style " + "distributed" == "set_property ram_style distributed"
  {
  }

  lemma DistributedLead()
    ensures "set_property ram_style distributed" + " [get_cells streaming_wrapper/"
      == "set_property ram_style distributed [get_cells streaming_wrapper/"
  {
  }

  lemma DistributedHead()
    ensures "set_property ram_style distributed [get_cells streaming_wrapper/" + "FeaturePair_"
      == "set_property ram_style distributed [get_cells streaming_wrapper/FeaturePair_"
  {
  }

  /** As the index grows the style never moves back to an earlier band. */
  lemma StyleMonotone(i: nat, j: nat)
    requires i <= j
    ensures Rank(Style(i)) <= Rank(Style(j))
  {
  }

  /** Only index 0 gets the bare base name; all names are distinct. */
  lemma CellNameInjective(i: nat, j: nat)
    ensures CellName(i) == CellName(j) ==> i == j
  {
    if i != 0 && j != 0 && CellName(i) == CellName(j) {
      var n := |BaseName + "_"|;
      assert CellName(i)[n..] == NatToDecimal(i);
      assert CellName(j)[n..] == NatToDecimal(j);
      NatToDecimalInjective(i, j);
    } else if i == 0 && j != 0 {
      assert |CellName(j)| > |CellName(i)|;
    } else if j == 0 && i != 0 {
      assert |CellName(i)| > |CellName(j)|;
    }
  }

  /** The outcome of a run of the script. */
  datatype Outcome = Printed(lines: seq<string>) | InvalidArgument

  /**
   A run of the script, given its argument already read as an integer, or
   `None` when the argument is missing or not an integer.
   */
  function Run(arg: Option<int>): (r: Outcome)
    ensures r == InvalidArgument <==> arg == None
    ensures arg.Some? ==> r.Printed? && r.lines == Emit(arg.value)
    ensures r.Printed? ==> |r.lines| == arg.value * arg.value
  {
    match arg
    case None => InvalidArgument
    case Some(dim) => Printed(Emit(dim))
  }
}
