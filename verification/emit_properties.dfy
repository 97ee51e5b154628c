/**
 Properties of the whole output `Emit(dim)`: which line sits where, the
 order of the indices, the bands along the output, and the effect of the
 sign of the dimension.
 */
module EmitProperties {
  import opened Wrappers
  import opened Decimal
  import opened GenConstrs
  import opened DirectiveParse

  /** Line `k` of the output is the directive for index `k`. */
  lemma EmitAt(dim: int, k: int)
    requires 0 <= k < dim * dim
    ensures ParseLine(Emit(dim)[k]) == Some(Directive(Style(k), k))
  {
    LineRoundTrip(k);
  }

  /** The indices named by the output lines strictly ascend. */
  lemma EmitInOrder(dim: int)
    ensures forall k :: 0 <= k < |Emit(dim)| ==> ParseLine(Emit(dim)[k]).Some?
    ensures forall j, k :: 0 <= j < k < |Emit(dim)| ==>
      ParseLine(Emit(dim)[j]).value.index < ParseLine(Emit(dim)[k]).value.index
  {
    forall k | 0 <= k < |Emit(dim)| ensures ParseLine(Emit(dim)[k]) == Some(Directive(Style(k), k)) {
      EmitAt(dim, k);
    }
  }

  /** No line is printed twice. */
  lemma EmitDistinct(dim: int)
    ensures forall j, k :: 0 <= j < k < |Emit(dim)| ==> Emit(dim)[j] != Emit(dim)[k]
  {
    forall j, k | 0 <= j < k < |Emit(dim)| ensures Emit(dim)[j] != Emit(dim)[k] {
      LineInjective(j, k);
    }
  }

  /** Along the output the styles follow the bands: ultra, then block, then distributed. */
  lemma EmitBands(dim: int)
    ensures |Emit(dim)| > 0 ==> ParseLine(Emit(dim)[0]) == Some(Directive(Ultra, 0))
    ensures forall k :: 1 <= k < |Emit(dim)| && k < 800 ==> ParseLine(Emit(dim)[k]) == Some(Directive(Ultra, k))
    ensures forall k :: 800 <= k < |Emit(dim)| && k < 2479 ==> ParseLine(Emit(dim)[k]) == Some(Directive(Block, k))
    ensures forall k :: 2479 <= k < |Emit(dim)| ==> ParseLine(Emit(dim)[k]) == Some(Directive(Distributed, k))
  {
    forall k | 0 <= k < |Emit(dim)| ensures ParseLine(Emit(dim)[k]) == Some(Directive(Style(k), k)) {
      EmitAt(dim, k);
    }
  }

  /**
   The output depends on the dimension only through its square: a negative
   dimension prints what its absolute value prints: `dim * dim` lines.
   */
  lemma EmitNegated(dim: int)
    ensures Emit(-dim) == Emit(dim)
    ensures |Emit(-dim)| == dim * dim
  {
    assert (-dim) * (-dim) == dim * dim;
  }

  /** Dimension 0 prints nothing; dimensions 1 and -1 print only the base cell's directive. */
  lemma SmallDimensions()
    ensures Emit(0) == []
    ensures Emit(1) == ["set_property ram_style ultra [get_cells streaming_wrapper/FeaturePair/DualPortRAMBB/mem_reg]"]
    ensures Emit(-1) == Emit(1)
    ensures |Emit(-3)| == 9
  {
    BaseLineText();
    assert Emit(1)[0] == Line(0);
    assert Emit(1) == [Line(0)];
    EmitNegated(1);
  }
}
