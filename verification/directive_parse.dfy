/**
 Reading a directive line back into the style and index it was printed for.
 The parser is the exact inverse of the printer: it accepts precisely the
 lines `Render(style, CellName(i))`, so an emitted line determines its index.
 */
module DirectiveParse {
  import opened Wrappers
  import opened Decimal
  import opened GenConstrs

  /** What one directive line says: which cell (by index) gets which style. */
  datatype Directive = Directive(style: RamStyle, index: nat)

  function StripPrefix(p: string, s: string): Option<string> {
    if p <= s then Some(s[|p|..]) else None
  }

  function StripSuffix(t: string, s: string): Option<string> {
    if |t| <= |s| && s[|s| - |t|..] == t then Some(s[..|s| - |t|]) else None
  }

  /** Reads the style keyword and the separator that follows it. */
  function ParseStyle(s: string): Option<(RamStyle, string)> {
    match StripPrefix(StyleWord(Ultra) + Middle, s)
    case Some(rest) => Some((Ultra, rest))
    case None =>
      match StripPrefix(StyleWord(Block) + Middle, s)
      case Some(rest) => Some((Block, rest))
      case None =>
        match StripPrefix(StyleWord(Distributed) + Middle, s)
        case Some(rest) => Some((Distributed, rest))
        case None => None
  }

  /** Reads a cell name back into its index; `FeaturePair_0` is never printed and is rejected. */
  function ParseCellName(name: string): Option<nat> {
    if name == BaseName then Some(0)
    else
      match StripPrefix(BaseName + "_", name)
      case None => None
      case Some(digits) =>
        match ParseDecimal(digits)
        case None => None
        case Some(n) => if n == 0 then None else Some(n)
  }

  /** Reads the cell name and the fixed tail that closes a directive. */
  function ParseTarget(style: RamStyle, s: string): Option<Directive> {
    match StripSuffix(Tail, s)
    case None => None
    case Some(name) =>
      match ParseCellName(name)
      case None => None
      case Some(i) => Some(Directive(style, i))
  }

  /** Reads everything after the fixed `set_property ram_style ` prefix. */
  function ParseBody(s: string): Option<Directive> {
    match ParseStyle(s)
    case None => None
    case Some((style, rest)) => ParseTarget(style, rest)
  }

  function ParseLine(line: string): Option<Directive> {
    match StripPrefix(Prefix, line)
    case None => None
    case Some(rest) => ParseBody(rest)
  }

  lemma StripPrefixOf(p: string, s: string)
    ensures StripPrefix(p, p + s) == Some(s)
  {
    assert (p + s)[|p|..] == s;
  }

  lemma StripSuffixOf(t: string, s: string)
    ensures StripSuffix(t, s + t) == Some(s)
  {
    assert (s + t)[|s|..] == t;
    assert (s + t)[..|s|] == s;
  }

  lemma StripPrefixSound(p: string, s: string)
    requires StripPrefix(p, s).Some?
    ensures s == p + StripPrefix(p, s).value
  {
    assert s == s[..|p|] + s[|p|..];
  }

  lemma StripSuffixSound(t: string, s: string)
    requires StripSuffix(t, s).Some?
    ensures s == StripSuffix(t, s).value + t
  {
    assert s == s[..|s| - |t|] + s[|s| - |t|..];
  }

  /** The name printed for index `i` reads back as `i`. */
  lemma ParseCellNameOf(i: nat)
    ensures ParseCellName(CellName(i)) == Some(i)
  {
    if i != 0 {
      var d := NatToDecimal(i);
      assert |CellName(i)| > |BaseName|;
      StripPrefixOf(BaseName + "_", d);
      assert ParseDecimal(d) == Some(i);
    }
  }

  /** A name the parser accepts is the name printed for the index it reads. */
  lemma ParseCellNameSound(name: string)
    requires ParseCellName(name).Some?
    ensures CellName(ParseCellName(name).value) == name
  {
    if name != BaseName {
      var sep := BaseName + "_";
      StripPrefixSound(sep, name);
      var digits := StripPrefix(sep, name).value;
      var n := ParseDecimal(digits).value;
      assert NatToDecimal(n) == digits;
    }
  }

  /** `ParseCellName` accepts exactly the names `CellName` produces, and inverts it. */
  lemma ParseCellNameExact(name: string, i: nat)
    ensures ParseCellName(name) == Some(i) <==> CellName(i) == name
  {
    if CellName(i) == name {
      ParseCellNameOf(i);
    }
    if ParseCellName(name) == Some(i) {
      ParseCellNameSound(name);
    }
  }

  /** The style keyword is read back, whichever of the three it is. */
  lemma ParseStyleOf(style: RamStyle, s: string)
    ensures ParseStyle(StyleWord(style) + Middle + s) == Some((style, s))
  {
    var t := StyleWord(style) + Middle + s;
    StripPrefixOf(StyleWord(style) + Middle, s);
    match style
    case Ultra =>
    case Block =>
      assert t[0] == 'b';
    case Distributed =>
      assert t[0] == 'd';
  }

  /** Whatever `ParseStyle` accepts is a keyword followed by the separator. */
  lemma ParseStyleSound(s: string)
    requires ParseStyle(s).Some?
    ensures StyleWord(ParseStyle(s).value.0) + Middle + ParseStyle(s).value.1 == s
  {
    var (style, rest) := ParseStyle(s).value;
    StripPrefixSound(StyleWord(style) + Middle, s);
  }

  lemma ParseTargetOf(style: RamStyle, i: nat)
    ensures ParseTarget(style, CellName(i) + Tail) == Some(Directive(style, i))
  {
    StripSuffixOf(Tail, CellName(i));
    ParseCellNameOf(i);
  }

  /** A rendered directive reads back as the style and index it was rendered from. */
  lemma ParseRender(style: RamStyle, i: nat)
    ensures ParseLine(Render(style, CellName(i))) == Some(Directive(style, i))
  {
    var name := CellName(i);
    var afterStyle := name + Tail;
    var rest := StyleWord(style) + Middle + afterStyle;
    RegroupRender(Prefix, StyleWord(style), Middle, name, Tail);
    StripPrefixOf(Prefix, rest);
    ParseStyleOf(style, afterStyle);
    ParseTargetOf(style, i);
  }

  /** Every line `ParseLine` accepts is the rendering of what it reads. */
  lemma ParseLineSound(line: string)
    requires ParseLine(line).Some?
    ensures line == Render(ParseLine(line).value.style, CellName(ParseLine(line).value.index))
  {
    var d := ParseLine(line).value;
    StripPrefixSound(Prefix, line);
    var rest := StripPrefix(Prefix, line).value;
    ParseStyleSound(rest);
    var (style, afterStyle) := ParseStyle(rest).value;
    StripSuffixSound(Tail, afterStyle);
    var name := StripSuffix(Tail, afterStyle).value;
    assert ParseCellName(name) == Some(d.index) && style == d.style;
    ParseCellNameSound(name);
    RegroupRender(Prefix, StyleWord(style), Middle, name, Tail);
  }

  /** `ParseLine` accepts exactly the rendered directives, and inverts `Render`. */
  lemma ParseLineExact(line: string, d: Directive)
    ensures ParseLine(line) == Some(d) <==> line == Render(d.style, CellName(d.index))
  {
    if line == Render(d.style, CellName(d.index)) {
      ParseRender(d.style, d.index);
    }
    if ParseLine(line) == Some(d) {
      ParseLineSound(line);
    }
  }

  /** The line printed for index `i` reads back as style `Style(i)` and index `i`. */
  lemma LineRoundTrip(i: nat)
    ensures ParseLine(Line(i)) == Some(Directive(Style(i), i))
  {
    ParseRender(Style(i), i);
  }

  /** Distinct indices print distinct lines. */
  lemma LineInjective(i: nat, j: nat)
    ensures Line(i) == Line(j) ==> i == j
  {
    LineRoundTrip(i);
    LineRoundTrip(j);
  }
}
