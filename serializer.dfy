/** The Mermaid flowchart serializer: a total map from nodes, edges and
    diagram options to flowchart text. Helpers are functions; `Serialize`
    builds the lines with loops, as the source does, and is proved equal to
    the line-level specification `Serialization`. */
module Serializer {
  import opened Graph
  import opened Decimal

  // ─── Characters ──────────────────────────────────────────────────────────

  /** The characters `[A-Za-z0-9_]` that ids keep. */
  predicate IsIdChar(c: char) {
    'a' <= c <= 'z' || 'A' <= c <= 'Z' || '0' <= c <= '9' || c == '_'
  }

  /** The characters JavaScript's `String.prototype.trim` removes: white
      space and line terminators. */
  predicate IsJsWhitespace(c: char) {
    c == '\t' || c == '\n' || c == '\U{000B}' || c == '\U{000C}' || c == '\r' || c == ' '
    || c == '\U{00A0}' || c == '\U{1680}' || ('\U{2000}' <= c <= '\U{200A}')
    || c == '\U{2028}' || c == '\U{2029}' || c == '\U{202F}' || c == '\U{205F}'
    || c == '\U{3000}' || c == '\U{FEFF}'
  }

  /** sanitizeId: every character outside `[A-Za-z0-9_]` becomes `_`. */
  function SanitizeId(id: string): (r: string)
    ensures |r| == |id|
    ensures forall i :: 0 <= i < |id| ==> r[i] == if IsIdChar(id[i]) then id[i] else '_'
    ensures forall i :: 0 <= i < |r| ==> IsIdChar(r[i])
  {
    if id == [] then [] else [if IsIdChar(id[0]) then id[0] else '_'] + SanitizeId(id[1..])
  }

  /** An id already within the alphabet is left alone. */
  lemma SanitizeIdKeepsCleanIds(id: string)
    requires forall i :: 0 <= i < |id| ==> IsIdChar(id[i])
    ensures SanitizeId(id) == id
  {
  }

  /** Sanitising twice is sanitising once. */
  lemma SanitizeIdIdempotent(id: string)
    ensures SanitizeId(SanitizeId(id)) == SanitizeId(id)
  {
    SanitizeIdKeepsCleanIds(SanitizeId(id));
  }

  /** escapeLabel: every `"` becomes `'`; nothing else changes. */
  function EscapeLabel(caption: string): (r: string)
    ensures |r| == |caption|
    ensures forall i :: 0 <= i < |caption| ==> r[i] == if caption[i] == '"' then '\'' else caption[i]
    ensures forall i :: 0 <= i < |r| ==> r[i] != '"'
  {
    if caption == [] then [] else [if caption[0] == '"' then '\'' else caption[0]] + EscapeLabel(caption[1..])
  }

  function TrimStart(s: string): (r: string)
    ensures r == [] <==> forall i :: 0 <= i < |s| ==> IsJsWhitespace(s[i])
    ensures r != [] ==> !IsJsWhitespace(r[0])
    ensures |r| <= |s| && r == s[|s| - |r|..]
  {
    if s != [] && IsJsWhitespace(s[0]) then TrimStart(s[1..]) else s
  }

  function TrimEnd(s: string): (r: string)
    ensures r == [] <==> forall i :: 0 <= i < |s| ==> IsJsWhitespace(s[i])
    ensures r <= s
    ensures r != [] ==> !IsJsWhitespace(r[|r| - 1])
  {
    if s != [] && IsJsWhitespace(s[|s| - 1]) then TrimEnd(s[..|s| - 1]) else s
  }

  /** `s.trim()`: a piece of `s` that neither starts nor ends with white space. */
  function Trim(s: string): (r: string)
    ensures |r| <= |s|
    ensures r != [] ==> !IsJsWhitespace(r[0]) && !IsJsWhitespace(r[|r| - 1])
  {
    var t := TrimStart(s);
    var r := TrimEnd(t);
    assert r != [] ==> r[0] == t[0];
    r
  }

  /** What `TrimStart` drops is white space. */
  lemma {:induction false} TrimStartDropsWhitespace(s: string)
    ensures forall i :: 0 <= i < |s| - |TrimStart(s)| ==> IsJsWhitespace(s[i])
  {
    if s != [] && IsJsWhitespace(s[0]) {
      TrimStartDropsWhitespace(s[1..]);
      forall i | 1 <= i < |s| - |TrimStart(s)|
        ensures IsJsWhitespace(s[i])
      {
        assert s[i] == s[1..][i - 1];
      }
    }
  }

  /** What `TrimEnd` drops is white space. */
  lemma {:induction false} TrimEndDropsWhitespace(s: string)
    ensures forall i :: |TrimEnd(s)| <= i < |s| ==> IsJsWhitespace(s[i])
  {
    if s != [] && IsJsWhitespace(s[|s| - 1]) {
      TrimEndDropsWhitespace(s[..|s| - 1]);
      forall i | |TrimEnd(s)| <= i < |s| - 1
        ensures IsJsWhitespace(s[i])
      {
        assert s[i] == s[..|s| - 1][i];
      }
    }
  }

  /** `r` is the piece of `s` starting at `k`, and everything in `s` before
      or after it is white space. */
  predicate IsTrimmedPiece(s: string, k: nat, r: string) {
    && k + |r| <= |s|
    && r == s[k..k + |r|]
    && (forall i :: 0 <= i < k ==> IsJsWhitespace(s[i]))
    && (forall i :: k + |r| <= i < |s| ==> IsJsWhitespace(s[i]))
  }

  /** `trim()` keeps one contiguous piece of `s`, starting where `TrimStart`
      starts, and everything it cuts on either side is white space. */
  lemma TrimPiece(s: string)
    ensures IsTrimmedPiece(s, |s| - |TrimStart(s)|, Trim(s))
  {
    TrimCuts(s);
    CutPiece(s, TrimStart(s), Trim(s));
  }

  /** `trim()` is `TrimEnd` after `TrimStart`, and each cuts only white space. */
  lemma TrimCuts(s: string)
    ensures var t := TrimStart(s);
            && |t| <= |s| && t == s[|s| - |t|..] && Trim(s) <= t
            && (forall i :: 0 <= i < |s| - |t| ==> IsJsWhitespace(s[i]))
            && (forall i :: |Trim(s)| <= i < |t| ==> IsJsWhitespace(t[i]))
  {
    TrimStartDropsWhitespace(s);
    TrimEndDropsWhitespace(TrimStart(s));
    assert Trim(s) == TrimEnd(TrimStart(s));
  }

  /** TrimPiece over abstract strings, so that the trimming functions stay
      folded while the slices are worked out. */
  lemma CutPiece(s: string, t: string, r: string)
    requires |t| <= |s| && t == s[|s| - |t|..] && r <= t
    requires forall i :: 0 <= i < |s| - |t| ==> IsJsWhitespace(s[i])
    requires forall i :: |r| <= i < |t| ==> IsJsWhitespace(t[i])
    ensures IsTrimmedPiece(s, |s| - |t|, r)
  {
    var k := |s| - |t|;
    forall i | k + |r| <= i < |s|
      ensures IsJsWhitespace(s[i])
    {
      assert s[i] == t[i - k];
    }
  }

  /** A trimmed string is empty exactly when every character is white space. */
  lemma TrimEmptyIffBlank(s: string)
    ensures Trim(s) == [] <==> forall i :: 0 <= i < |s| ==> IsJsWhitespace(s[i])
  {
  }

  /** `s.map(f)`, in the order the source's loops push the results. */
  function MapSeq<A, B>(f: A -> B, s: seq<A>): (r: seq<B>)
    ensures |r| == |s|
    ensures forall i :: 0 <= i < |s| ==> r[i] == f(s[i])
  {
    if s == [] then [] else MapSeq(f, s[..|s| - 1]) + [f(s[|s| - 1])]
  }

  /** `parts.join(sep)`: it starts with the first part and ends with the last. */
  function Join(parts: seq<string>, sep: string): (r: string)
    ensures |parts| > 0 ==> parts[0] <= r
    ensures |parts| > 0 ==> |parts[|parts| - 1]| <= |r| && r[|r| - |parts[|parts| - 1]|..] == parts[|parts| - 1]
  {
    if |parts| == 0 then ""
    else if |parts| == 1 then parts[0]
    else Join(parts[..|parts| - 1], sep) + sep + parts[|parts| - 1]
  }

  // ─── Shapes ──────────────────────────────────────────────────────────────

  /** The bracket pair each of the 14 shapes is written with: one to three
      characters on each side, equally many, and never a double quote. */
  function Brackets(shape: Shape): (r: (string, string))
    ensures 1 <= |r.0| <= 3 && |r.1| == |r.0|
    ensures '"' !in r.0 && '"' !in r.1
  {
    match shape
    case Rectangle => ("[", "]")
    case Rounded => ("(", ")")
    case Stadium => ("([", "])")
    case Subroutine => ("[[", "]]")
    case Cylinder => ("[(", ")]")
    case Circle => ("((", "))")
    case DoubleCircle => ("(((", ")))")
    case Diamond => ("{", "}")
    case Hexagon => ("{{", "}}")
    case Parallelogram => ("[/", "/]")
    case ParallelogramAlt => ("[\\", "\\]")
    case Trapezoid => ("[/", "\\]")
    case TrapezoidAlt => ("[\\", "/]")
    case Asymmetric => (">", "]")
  }

  /** shapeWrap: the sanitised id, the shape's opening bracket, the escaped
      label in double quotes and the shape's closing bracket. */
  function ShapeWrap(id: string, caption: string, shape: Shape): (r: string)
    ensures |r| == |id| + 2 * |Brackets(shape).0| + |caption| + 2
    ensures r[..|id|] == SanitizeId(id)
  {
    var (open, close) := Brackets(shape);
    SanitizeId(id) + open + "\"" + EscapeLabel(caption) + "\"" + close
  }

  /** The shape written with a given bracket pair, if any. */
  function ShapeOfBrackets(open: string, close: string): Option<Shape> {
    if (open, close) == Brackets(Rectangle) then Some(Rectangle)
    else if (open, close) == Brackets(Rounded) then Some(Rounded)
    else if (open, close) == Brackets(Stadium) then Some(Stadium)
    else if (open, close) == Brackets(Subroutine) then Some(Subroutine)
    else if (open, close) == Brackets(Cylinder) then Some(Cylinder)
    else if (open, close) == Brackets(Circle) then Some(Circle)
    else if (open, close) == Brackets(DoubleCircle) then Some(DoubleCircle)
    else if (open, close) == Brackets(Diamond) then Some(Diamond)
    else if (open, close) == Brackets(Hexagon) then Some(Hexagon)
    else if (open, close) == Brackets(Parallelogram) then Some(Parallelogram)
    else if (open, close) == Brackets(ParallelogramAlt) then Some(ParallelogramAlt)
    else if (open, close) == Brackets(Trapezoid) then Some(Trapezoid)
    else if (open, close) == Brackets(TrapezoidAlt) then Some(TrapezoidAlt)
    else if (open, close) == Brackets(Asymmetric) then Some(Asymmetric)
    else None
  }

  /** Every shape has its own bracket pair; each opening bracket is
      non-empty, starts outside the id alphabet and holds no `"`. */
  lemma BracketsDistinct(shape: Shape)
    ensures ShapeOfBrackets(Brackets(shape).0, Brackets(shape).1) == Some(shape)
    ensures Brackets(shape).0 != [] && !IsIdChar(Brackets(shape).0[0])
    ensures forall i :: 0 <= i < |Brackets(shape).0| ==> Brackets(shape).0[i] != '"'
  {
  }

  /** The parts a node declaration is read back into. */
  datatype Declaration = Declaration(id: string, shape: Shape, caption: string)

  /** Length of the longest prefix of `s` within the id alphabet. */
  function IdPrefixLength(s: string): (k: nat)
    ensures k <= |s|
    ensures forall i :: 0 <= i < k ==> IsIdChar(s[i])
    ensures k < |s| ==> !IsIdChar(s[k])
  {
    if s == [] || !IsIdChar(s[0]) then 0 else 1 + IdPrefixLength(s[1..])
  }

  /** Index of the first `"` in `s`, or `|s|` when there is none. */
  function QuoteIndex(s: string): (k: nat)
    ensures k <= |s|
    ensures forall i :: 0 <= i < k ==> s[i] != '"'
    ensures k < |s| ==> s[k] == '"'
  {
    if s == [] || s[0] == '"' then 0 else 1 + QuoteIndex(s[1..])
  }

  /** Reads a node declaration: an id, an opening bracket, a quoted label
      and a closing bracket. */
  function DecodeDeclaration(text: string): Option<Declaration> {
    var k := IdPrefixLength(text);
    DecodeBracketed(text[..k], text[k..])
  }

  /** Reads what follows the id: the opening bracket runs up to the first `"`. */
  function DecodeBracketed(sid: string, rest: string): Option<Declaration> {
    var q := QuoteIndex(rest);
    if q == |rest| then None else DecodeQuoted(sid, rest[..q], rest[q + 1..])
  }

  /** Reads what follows the opening quote: the label runs up to the next
      `"`, and the rest must close the opening bracket. */
  function DecodeQuoted(sid: string, open: string, after: string): Option<Declaration> {
    var q := QuoteIndex(after);
    if q == |after| then None
    else
      match ShapeOfBrackets(open, after[q + 1..])
      case None => None
      case Some(shape) => Some(Declaration(sid, shape, after[..q]))
  }

  lemma IdPrefixLengthOf(a: string, b: string)
    requires forall i :: 0 <= i < |a| ==> IsIdChar(a[i])
    requires b != [] && !IsIdChar(b[0])
    ensures IdPrefixLength(a + b) == |a|
  {
    var k := IdPrefixLength(a + b);
    assert (a + b)[|a|] == b[0];
  }

  lemma QuoteIndexOf(a: string, b: string)
    requires forall i :: 0 <= i < |a| ==> a[i] != '"'
    ensures QuoteIndex(a + "\"" + b) == |a|
  {
    var s := a + "\"" + b;
    var k := QuoteIndex(s);
    assert s[|a|] == '"';
  }

  lemma DecodeQuotedParts(sid: string, open: string, lbl: string, close: string)
    requires forall i :: 0 <= i < |lbl| ==> lbl[i] != '"'
    requires ShapeOfBrackets(open, close).Some?
    ensures DecodeQuoted(sid, open, lbl + "\"" + close)
         == Some(Declaration(sid, ShapeOfBrackets(open, close).value, lbl))
  {
    var after := lbl + "\"" + close;
    QuoteIndexOf(lbl, close);
    assert after[..|lbl|] == lbl;
    assert after[|lbl| + 1..] == close;
  }

  lemma DecodeBracketedParts(sid: string, open: string, after: string)
    requires forall i :: 0 <= i < |open| ==> open[i] != '"'
    ensures DecodeBracketed(sid, open + "\"" + after) == DecodeQuoted(sid, open, after)
  {
    var rest := open + "\"" + after;
    QuoteIndexOf(open, after);
    assert rest[..|open|] == open;
    assert rest[|open| + 1..] == after;
  }

  lemma DecodeDeclarationParts(sid: string, rest: string)
    requires forall i :: 0 <= i < |sid| ==> IsIdChar(sid[i])
    requires rest != [] && !IsIdChar(rest[0])
    ensures DecodeDeclaration(sid + rest) == DecodeBracketed(sid, rest)
  {
    IdPrefixLengthOf(sid, rest);
    assert (sid + rest)[|sid|..] == rest;
    assert (sid + rest)[..|sid|] == sid;
  }

  /** A node declaration gives back its sanitised id, its shape and its
      escaped label. */
  lemma DecodeShapeWrap(id: string, caption: string, shape: Shape)
    ensures DecodeDeclaration(ShapeWrap(id, caption, shape))
         == Some(Declaration(SanitizeId(id), shape, EscapeLabel(caption)))
  {
    var (open, close) := Brackets(shape);
    BracketsDistinct(shape);
    DecodePieces(SanitizeId(id), open, EscapeLabel(caption), close);
  }

  /** DecodeShapeWrap over abstract pieces, so that the brackets and the
      label stay folded while the text is taken apart. */
  lemma DecodePieces(sid: string, open: string, lbl: string, close: string)
    requires forall i :: 0 <= i < |sid| ==> IsIdChar(sid[i])
    requires open != [] && !IsIdChar(open[0]) && forall i :: 0 <= i < |open| ==> open[i] != '"'
    requires forall i :: 0 <= i < |lbl| ==> lbl[i] != '"'
    requires ShapeOfBrackets(open, close).Some?
    ensures DecodeDeclaration(sid + open + "\"" + lbl + "\"" + close)
         == Some(Declaration(sid, ShapeOfBrackets(open, close).value, lbl))
  {
    var after := lbl + "\"" + close;
    var rest := open + "\"" + after;
    assert sid + open + "\"" + lbl + "\"" + close == sid + rest;
    DecodeQuotedParts(sid, open, lbl, close);
    DecodeBracketedParts(sid, open, after);
    assert rest[0] == open[0];
    DecodeDeclarationParts(sid, rest);
  }

  /** Two declarations are equal only when they have the same sanitised id,
      the same shape and the same escaped label. */
  lemma ShapeWrapInjective(id1: string, label1: string, shape1: Shape,
                           id2: string, label2: string, shape2: Shape)
    requires ShapeWrap(id1, label1, shape1) == ShapeWrap(id2, label2, shape2)
    ensures SanitizeId(id1) == SanitizeId(id2) && shape1 == shape2
    ensures EscapeLabel(label1) == EscapeLabel(label2)
  {
    DecodeShapeWrap(id1, label1, shape1);
    DecodeShapeWrap(id2, label2, shape2);
  }

  // ─── Edge connectors ─────────────────────────────────────────────────────

  /** edgeConnector: the token joining the two ends of an edge line. */
  function EdgeConnector(style: EdgeStyle, arrow: ArrowType): (r: string)
    ensures 3 <= |r| <= 5
  {
    if style == Dashed then
      match arrow
      case NoArrow => "-.-"
      case Bidirectional => "<-.->"
      case CircleArrow => "-.-o"
      case CrossArrow => "-.-x"
      case _ => "-.->"
    else if style == Thick then
      match arrow
      case NoArrow => "==="
      case Bidirectional => "<===>"
      case _ => "==>"
    else
      match arrow
      case NoArrow => "---"
      case Bidirectional => "<-->"
      case CircleArrow => "--o"
      case CrossArrow => "--x"
      case _ => "-->"
  }

  /** The arrow types the thick style writes with its one-headed token. */
  predicate ThickArrowhead(arrow: ArrowType) {
    arrow == Arrow || arrow == CircleArrow || arrow == CrossArrow
  }

  /** The connector identifies the style and the arrow type, except that the
      thick style writes arrow, circle and cross alike. */
  lemma EdgeConnectorIdentifies(s1: EdgeStyle, a1: ArrowType, s2: EdgeStyle, a2: ArrowType)
    ensures EdgeConnector(s1, a1) == EdgeConnector(s2, a2)
        <==> s1 == s2 && (a1 == a2 || (s1 == Thick && ThickArrowhead(a1) && ThickArrowhead(a2)))
  {
  }

  /** A connector ends with an arrowhead exactly when the arrow type has one
      that the style can draw: thick draws circle and cross as arrows. */
  lemma EdgeConnectorHeadAtEnd(style: EdgeStyle, arrow: ArrowType)
    ensures var c := EdgeConnector(style, arrow);
            c[|c| - 1] == '>' <==> arrow != NoArrow && (style == Thick || (arrow != CircleArrow && arrow != CrossArrow))
  {
  }

  /** Only the bidirectional connectors open with a head. */
  lemma EdgeConnectorHeadAtStart(style: EdgeStyle, arrow: ArrowType)
    ensures EdgeConnector(style, arrow)[0] == '<' <==> arrow == Bidirectional
  {
  }

  // ─── The diagram text ────────────────────────────────────────────────────

  /** Serialisation options; an absent one takes its default. */
  datatype Options = Options(
    direction: Option<Direction>,
    theme: Option<Theme>,
    look: Option<Look>,
    curveStyle: Option<CurveStyle>)

  /** The whole output for a diagram without nodes. */
  const EmptyDiagram: string := "flowchart TD\n  %% Add nodes to get started"

  /** The keys of the init configuration, in insertion order, as
      `JSON.stringify` writes them. */
  function DirectiveEntries(theme: Theme, look: Look, curve: CurveStyle): (r: seq<string>)
    ensures |r| == (if theme != DefaultTheme then 1 else 0) + (if look != Classic then 1 else 0)
                   + (if curve != Basis then 1 else 0)
    ensures theme != DefaultTheme ==> r[0] == "\"theme\":\"" + theme.Name() + "\""
    ensures look != Classic ==> r[if theme != DefaultTheme then 1 else 0] == "\"look\":\"" + look.Name() + "\""
    ensures curve != Basis ==> r[|r| - 1] == "\"flowchart\":{\"curve\":\"" + curve.Name() + "\"}"
  {
    (if theme != DefaultTheme then ["\"theme\":\"" + theme.Name() + "\""] else [])
    + (if look != Classic then ["\"look\":\"" + look.Name() + "\""] else [])
    + (if curve != Basis then ["\"flowchart\":{\"curve\":\"" + curve.Name() + "\"}"] else [])
  }

  /** The leading init directive, present only when a setting differs from
      its default. */
  function InitDirective(theme: Theme, look: Look, curve: CurveStyle): (r: Option<string>)
    ensures r.Some? <==> theme != DefaultTheme || look != Classic || curve != Basis
  {
    var entries := DirectiveEntries(theme, look, curve);
    if entries == [] then None else Some("%%{ init: {" + Join(entries, ",") + "} }%%")
  }

  /** JavaScript truthiness of an optional string: present and non-empty. */
  predicate IsSet(c: Option<string>) {
    c.Some? && c.value != ""
  }

  /** The label a node is declared with: its own, or its id when empty. */
  function DeclaredLabel(n: Node): string {
    if n.data.text != "" then n.data.text else n.id
  }

  /** A declaration line: two spaces, then the sanitised id. */
  function NodeLine(n: Node): (r: string)
    ensures |r| > 2 + |n.id| && r[..2] == "  " && r[2..2 + |n.id|] == SanitizeId(n.id)
  {
    "  " + ShapeWrap(n.id, DeclaredLabel(n), n.data.shape.GetOr(Rectangle))
  }

  /** A declaration line is two spaces and a declaration that reads back as
      the node's sanitised id, its shape (rectangle when it has none) and its
      escaped label, the id standing in for an empty label. */
  lemma NodeLineDecodes(n: Node)
    ensures NodeLine(n)[..2] == "  "
    ensures DecodeDeclaration(NodeLine(n)[2..])
         == Some(Declaration(SanitizeId(n.id), n.data.shape.GetOr(Rectangle),
                             EscapeLabel(if n.data.text != "" then n.data.text else n.id)))
  {
    var w := ShapeWrap(n.id, DeclaredLabel(n), n.data.shape.GetOr(Rectangle));
    assert NodeLine(n) == "  " + w;
    assert NodeLine(n)[2..] == w;
    DecodeShapeWrap(n.id, DeclaredLabel(n), n.data.shape.GetOr(Rectangle));
  }

  /** The colour channels of a style line, set ones only, in the order fill,
      stroke, color. */
  function StyleParts(d: NodeData): (r: seq<string>)
    ensures |r| == (if IsSet(d.fillColor) then 1 else 0) + (if IsSet(d.strokeColor) then 1 else 0)
                   + (if IsSet(d.textColor) then 1 else 0)
    ensures IsSet(d.fillColor) ==> r[0] == "fill:" + d.fillColor.value
    ensures IsSet(d.strokeColor) ==> r[if IsSet(d.fillColor) then 1 else 0] == "stroke:" + d.strokeColor.value
    ensures IsSet(d.textColor) ==> r[|r| - 1] == "color:" + d.textColor.value
  {
    (if IsSet(d.fillColor) then ["fill:" + d.fillColor.value] else [])
    + (if IsSet(d.strokeColor) then ["stroke:" + d.strokeColor.value] else [])
    + (if IsSet(d.textColor) then ["color:" + d.textColor.value] else [])
  }

  /** A node gets a style line when one of its colours is set. */
  predicate HasCustomColour(n: Node) {
    IsSet(n.data.fillColor) || IsSet(n.data.strokeColor) || IsSet(n.data.textColor)
  }

  /** A style line: `style`, the sanitised id, and the comma-joined parts last. */
  function StyleLine(n: Node): (r: string)
    ensures |r| > 8 + |n.id| && r[..8] == "  style " && r[8..8 + |n.id|] == SanitizeId(n.id)
    ensures var j := Join(StyleParts(n.data), ","); |j| <= |r| && r[|r| - |j|..] == j
    ensures |r| == 9 + |n.id| + |Join(StyleParts(n.data), ",")|
  {
    "  style " + SanitizeId(n.id) + " " + Join(StyleParts(n.data), ",")
  }

  /** Whether an edge line carries its label: a string label that is not
      blank once trimmed. */
  predicate ShowsLabel(e: Edge) {
    e.text.Some? && Trim(e.text.value) != ""
  }

  function EdgeLine(e: Edge): string {
    var conn := EdgeConnector(e.data.edgeStyle.GetOr(Solid), e.data.arrowType.GetOr(Arrow));
    if ShowsLabel(e) then
      "  " + SanitizeId(e.source) + " " + conn + "|\"" + EscapeLabel(e.text.value) + "\"| " + SanitizeId(e.target)
    else
      "  " + SanitizeId(e.source) + " " + conn + " " + SanitizeId(e.target)
  }

  /** A label is shown exactly when it has a character that is not white
      space; either way the line starts with the sanitised source and the
      connector of the edge's style and arrow type, solid and arrow by default. */
  lemma EdgeLineForm(e: Edge)
    ensures ShowsLabel(e) <==> e.text.Some? && exists i :: 0 <= i < |e.text.value| && !IsJsWhitespace(e.text.value[i])
    ensures var head := "  " + SanitizeId(e.source) + " "
              + EdgeConnector(e.data.edgeStyle.GetOr(Solid), e.data.arrowType.GetOr(Arrow));
            && EdgeLine(e)[..|head|] == head
            && (ShowsLabel(e) ==> EdgeLine(e)[|head|..] == "|\"" + EscapeLabel(e.text.value) + "\"| " + SanitizeId(e.target))
            && (!ShowsLabel(e) ==> EdgeLine(e)[|head|..] == " " + SanitizeId(e.target))
  {
    if e.text.Some? {
      TrimEmptyIffBlank(e.text.value);
    }
    var head := "  " + SanitizeId(e.source) + " "
      + EdgeConnector(e.data.edgeStyle.GetOr(Solid), e.data.arrowType.GetOr(Arrow));
    var tgt := SanitizeId(e.target);
    if ShowsLabel(e) {
      var lbl := EscapeLabel(e.text.value);
      Regroup(head, "|\"", lbl, "\"| ", tgt);
      SplitAt(EdgeLine(e), head, "|\"" + lbl + "\"| " + tgt);
    } else {
      SplitAt(EdgeLine(e), head, " " + tgt);
    }
  }

  lemma Regroup(h: string, a: string, b: string, c: string, d: string)
    ensures h + a + b + c + d == h + (a + b + c + d)
  {
  }

  /** Cutting a concatenation where its first part ends. */
  lemma SplitAt(s: string, head: string, tail: string)
    requires s == head + tail
    ensures s[..|head|] == head && s[|head|..] == tail
  {
  }

  /** A linkStyle line: the edge's index in decimal, then its stroke colour last. */
  function LinkStyleLine(i: nat, colour: string): (r: string)
    ensures |r| > 20 + |colour| && r[..12] == "  linkStyle " && r[|r| - |colour| - 8..] == " stroke:" + colour
    ensures var digits := r[12..|r| - |colour| - 8];
            (forall k :: 0 <= k < |digits| ==> IsDigit(digits[k])) && DigitsValue(digits) == i
  {
    DigitsValueOfNatToString(i);
    var digits := NatToString(i);
    var r := "  linkStyle " + digits + " stroke:" + colour;
    LinkStyleSlices(r, digits, colour);
    r
  }

  lemma LinkStyleSlices(r: string, digits: string, colour: string)
    requires r == "  linkStyle " + digits + " stroke:" + colour
    ensures |r| == 20 + |digits| + |colour|
    ensures r[..12] == "  linkStyle " && r[12..|r| - |colour| - 8] == digits && r[|r| - |colour| - 8..] == " stroke:" + colour
  {
    var a := "  linkStyle " + digits;
    var b := " stroke:" + colour;
    assert r == a + b;
    assert r[..|a|] == a;
    assert r[|a|..] == b;
    assert a[..12] == "  linkStyle ";
    assert a[12..] == digits;
  }

  /** The kinds of line a diagram is made of, each rendered by one of the
      functions above. */
  datatype Line =
    | InitLine(directive: string)
    | HeaderOf(direction: Direction)
    | Declare(node: Node)
    | StyleOf(node: Node)
    | Connect(edge: Edge)
    | LinkStyle(index: nat, colour: string)

  function Render(l: Line): string {
    match l
    case InitLine(d) => d
    case HeaderOf(dir) => "flowchart " + dir.Name()
    case Declare(n) => NodeLine(n)
    case StyleOf(n) => StyleLine(n)
    case Connect(e) => EdgeLine(e)
    case LinkStyle(i, c) => LinkStyleLine(i, c)
  }

  /** One declaration per node, in order. */
  function NodeLines(ns: seq<Node>): (r: seq<Line>)
    ensures |r| == |ns|
    ensures forall i :: 0 <= i < |r| ==> r[i] == Declare(ns[i])
  {
    if ns == [] then [] else NodeLines(ns[..|ns| - 1]) + [Declare(ns[|ns| - 1])]
  }

  /** The nodes with at least one custom colour, in order. */
  function StyledNodes(ns: seq<Node>): (r: seq<Node>)
    ensures |r| <= |ns|
  {
    if ns == [] then []
    else StyledNodes(ns[..|ns| - 1]) + (if HasCustomColour(ns[|ns| - 1]) then [ns[|ns| - 1]] else [])
  }

  lemma StyledNodesSnoc(ns: seq<Node>)
    requires ns != []
    ensures StyledNodes(ns) == StyledNodes(ns[..|ns| - 1]) + (if HasCustomColour(ns[|ns| - 1]) then [ns[|ns| - 1]] else [])
  {
  }

  /** The styled nodes are nodes of the input with a custom colour. */
  lemma {:induction false} StyledNodesMembers(ns: seq<Node>)
    ensures forall i :: 0 <= i < |StyledNodes(ns)| ==> HasCustomColour(StyledNodes(ns)[i]) && StyledNodes(ns)[i] in ns
  {
    if ns != [] {
      var init := ns[..|ns| - 1];
      StyledNodesMembers(init);
      StyledNodesSnoc(ns);
      assert forall i :: 0 <= i < |init| ==> init[i] in ns;
    }
  }

  /** Exactly the nodes with a custom colour get a style line. */
  lemma {:induction false} StyledNodesExactly(ns: seq<Node>)
    ensures forall n :: n in StyledNodes(ns) <==> n in ns && HasCustomColour(n)
  {
    if ns != [] {
      var init := ns[..|ns| - 1];
      StyledNodesExactly(init);
      StyledNodesSnoc(ns);
      assert ns == init + [ns[|ns| - 1]];
    }
  }

  /** Filtering a concatenation filters each part, so the style lines
      follow the input order of the nodes, one per occurrence. */
  lemma {:induction false} StyledNodesAppend(a: seq<Node>, b: seq<Node>)
    ensures StyledNodes(a + b) == StyledNodes(a) + StyledNodes(b)
  {
    if b != [] {
      var b0 := b[..|b| - 1];
      StyledNodesAppend(a, b0);
      StyledNodesSnoc(a + b);
      StyledNodesSnoc(b);
      assert (a + b)[..|a + b| - 1] == a + b0;
    } else {
      assert a + b == a;
    }
  }

  /** When every node has a custom colour, all are styled. */
  lemma {:induction false} StyledNodesAll(ns: seq<Node>)
    ensures (forall i :: 0 <= i < |ns| ==> HasCustomColour(ns[i])) ==> StyledNodes(ns) == ns
  {
    if ns != [] {
      var init := ns[..|ns| - 1];
      StyledNodesAll(init);
      StyledNodesSnoc(ns);
      assert forall i :: 0 <= i < |init| ==> init[i] == ns[i];
      assert ns == init + [ns[|ns| - 1]];
    }
  }

  /** When no node has a custom colour, none is styled. */
  lemma {:induction false} StyledNodesNone(ns: seq<Node>)
    ensures (forall i :: 0 <= i < |ns| ==> !HasCustomColour(ns[i])) ==> StyledNodes(ns) == []
  {
    if ns != [] {
      var init := ns[..|ns| - 1];
      StyledNodesNone(init);
      StyledNodesSnoc(ns);
      assert forall i :: 0 <= i < |init| ==> init[i] == ns[i];
    }
  }

  /** One style line per node with a custom colour, in order. */
  function StyleLines(ns: seq<Node>): (r: seq<Line>)
    ensures |r| == |StyledNodes(ns)|
    ensures forall i :: 0 <= i < |r| ==> r[i] == StyleOf(StyledNodes(ns)[i])
  {
    if ns == [] then []
    else StyleLines(ns[..|ns| - 1]) + (if HasCustomColour(ns[|ns| - 1]) then [StyleOf(ns[|ns| - 1])] else [])
  }

  /** One line per edge, in order. */
  function EdgeLines(es: seq<Edge>): (r: seq<Line>)
    ensures |r| == |es|
    ensures forall i :: 0 <= i < |r| ==> r[i] == Connect(es[i])
  {
    if es == [] then [] else EdgeLines(es[..|es| - 1]) + [Connect(es[|es| - 1])]
  }

  /** The positions of the edges with a custom stroke colour, increasing. */
  function StrokedIndices(es: seq<Edge>): (r: seq<nat>)
    ensures |r| <= |es|
    ensures forall k :: 0 <= k < |r| ==> r[k] < |es| && IsSet(es[r[k]].data.strokeColor)
  {
    if es == [] then []
    else StrokedIndices(es[..|es| - 1]) + (if IsSet(es[|es| - 1].data.strokeColor) then [|es| - 1] else [])
  }

  /** Exactly the positions of the stroked edges, each once, increasing. */
  lemma {:induction false} StrokedIndicesSpec(es: seq<Edge>)
    ensures forall k, l :: 0 <= k < l < |StrokedIndices(es)| ==> StrokedIndices(es)[k] < StrokedIndices(es)[l]
    ensures forall i :: 0 <= i < |es| && IsSet(es[i].data.strokeColor) ==> i in StrokedIndices(es)
  {
    if es != [] {
      var init := es[..|es| - 1];
      StrokedIndicesSpec(init);
      assert forall i :: 0 <= i < |init| ==> init[i] == es[i];
    }
  }

  /** One linkStyle line per edge with a custom stroke colour, addressed by
      the edge's position in the sequence. */
  function LinkStyleLines(es: seq<Edge>): (r: seq<Line>)
    ensures |r| == |StrokedIndices(es)|
    ensures forall k :: 0 <= k < |r| ==>
      r[k] == LinkStyle(StrokedIndices(es)[k], es[StrokedIndices(es)[k]].data.strokeColor.value)
  {
    if es == [] then []
    else
      var n := |es| - 1;
      var init := es[..n];
      assert forall k :: 0 <= k < |StrokedIndices(init)| ==> es[StrokedIndices(init)[k]] == init[StrokedIndices(init)[k]];
      LinkStyleLines(init)
      + (if IsSet(es[n].data.strokeColor) then [LinkStyle(n, es[n].data.strokeColor.value)] else [])
  }

  function DirectiveLines(o: Options): seq<Line> {
    var d := InitDirective(o.theme.GetOr(DefaultTheme), o.look.GetOr(Classic), o.curveStyle.GetOr(Basis));
    if d.Some? then [InitLine(d.value)] else []
  }

  /** The lines of a diagram with nodes, in emission order. */
  function DiagramLines(nodes: seq<Node>, edges: seq<Edge>, o: Options): seq<Line> {
    Assemble(DirectiveLines(o), HeaderOf(o.direction.GetOr(TD)), nodes, edges)
  }

  /** The lines of a diagram after a given directive block and header. */
  function Assemble(directive: seq<Line>, header: Line, nodes: seq<Node>, edges: seq<Edge>): seq<Line> {
    directive + [header] + NodeLines(nodes) + StyleLines(nodes) + EdgeLines(edges) + LinkStyleLines(edges)
  }

  /** serialize, as a function. */
  function Serialization(nodes: seq<Node>, edges: seq<Edge>, o: Options): (r: string)
    ensures |nodes| == 0 ==> r == EmptyDiagram
    ensures |nodes| > 0 ==> Render(DiagramLines(nodes, edges, o)[0]) <= r
  {
    if |nodes| == 0 then EmptyDiagram else Join(MapSeq(Render, DiagramLines(nodes, edges, o)), "\n")
  }

  /** The directive line is there exactly when a setting is overridden, and
      it is the init directive of the settings. */
  lemma DirectivePresence(o: Options)
    ensures var d := InitDirective(o.theme.GetOr(DefaultTheme), o.look.GetOr(Classic), o.curveStyle.GetOr(Basis));
            && |DirectiveLines(o)| <= 1
            && (|DirectiveLines(o)| == 1 <==> d.Some?)
            && (d.Some? ==> DirectiveLines(o)[0] == InitLine(d.value))
  {
  }

  /** The layout of the lines: the directive (see DirectivePresence), the
      header, one declaration per node, the style lines, one line per edge
      and the linkStyle lines. */
  lemma DiagramLayout(nodes: seq<Node>, edges: seq<Edge>, o: Options)
    ensures var lines := DiagramLines(nodes, edges, o);
            var d := |DirectiveLines(o)|;
            var s := d + 1 + |nodes| + |StyledNodes(nodes)|;
            var t := s + |edges|;
            && |lines| == t + |StrokedIndices(edges)|
            && lines[d] == HeaderOf(o.direction.GetOr(TD))
            && (forall i :: 0 <= i < |nodes| ==> lines[d + 1 + i] == Declare(nodes[i]))
            && (forall k :: 0 <= k < |StyledNodes(nodes)| ==> lines[d + 1 + |nodes| + k] == StyleOf(StyledNodes(nodes)[k]))
            && (forall j :: 0 <= j < |edges| ==> lines[s + j] == Connect(edges[j]))
            && (forall k :: 0 <= k < |StrokedIndices(edges)| ==>
                  lines[t + k] == LinkStyle(StrokedIndices(edges)[k], edges[StrokedIndices(edges)[k]].data.strokeColor.value))
  {
    AssembleLayout(DirectiveLines(o), HeaderOf(o.direction.GetOr(TD)), nodes, edges);
  }

  /** DiagramLayout for any directive block, so that the directive stays
      folded. */
  lemma AssembleLayout(directive: seq<Line>, header: Line, nodes: seq<Node>, edges: seq<Edge>)
    ensures var lines := Assemble(directive, header, nodes, edges);
            var d := |directive|;
            var s := d + 1 + |nodes| + |StyledNodes(nodes)|;
            var t := s + |edges|;
            && |lines| == t + |StrokedIndices(edges)|
            && lines[d] == header
            && (forall i :: 0 <= i < |nodes| ==> lines[d + 1 + i] == Declare(nodes[i]))
            && (forall k :: 0 <= k < |StyledNodes(nodes)| ==> lines[d + 1 + |nodes| + k] == StyleOf(StyledNodes(nodes)[k]))
            && (forall j :: 0 <= j < |edges| ==> lines[s + j] == Connect(edges[j]))
            && (forall k :: 0 <= k < |StrokedIndices(edges)| ==>
                  lines[t + k] == LinkStyle(StrokedIndices(edges)[k], edges[StrokedIndices(edges)[k]].data.strokeColor.value))
  {
    LinesLayout(Assemble(directive, header, nodes, edges), directive, [header], NodeLines(nodes),
                StyleLines(nodes), EdgeLines(edges), LinkStyleLines(edges), nodes, StyledNodes(nodes), edges, StrokedIndices(edges));
  }

  /** DiagramLayout over abstract blocks, so that the block functions stay
      folded while the indices are worked out. */
  lemma LinesLayout(lines: seq<Line>, a: seq<Line>, b: seq<Line>, c: seq<Line>, d: seq<Line>, e: seq<Line>, f: seq<Line>,
                    nodes: seq<Node>, styled: seq<Node>, edges: seq<Edge>, stroked: seq<nat>)
    requires lines == a + b + c + d + e + f
    requires |b| == 1 && |c| == |nodes| && |d| == |styled| && |e| == |edges| && |f| == |stroked|
    requires forall i :: 0 <= i < |c| ==> c[i] == Declare(nodes[i])
    requires forall k :: 0 <= k < |d| ==> d[k] == StyleOf(styled[k])
    requires forall j :: 0 <= j < |e| ==> e[j] == Connect(edges[j])
    requires forall k :: 0 <= k < |stroked| ==>
               && stroked[k] < |edges| && edges[stroked[k]].data.strokeColor.Some?
               && f[k] == LinkStyle(stroked[k], edges[stroked[k]].data.strokeColor.value)
    ensures var s := |a| + 1 + |nodes| + |styled|;
            var t := s + |edges|;
            && |lines| == t + |stroked|
            && lines[|a|] == b[0]
            && (forall i :: 0 <= i < |nodes| ==> lines[|a| + 1 + i] == Declare(nodes[i]))
            && (forall k :: 0 <= k < |styled| ==> lines[|a| + 1 + |nodes| + k] == StyleOf(styled[k]))
            && (forall j :: 0 <= j < |edges| ==> lines[s + j] == Connect(edges[j]))
            && (forall k :: 0 <= k < |stroked| ==>
                  stroked[k] < |edges| && edges[stroked[k]].data.strokeColor.Some? &&
                  lines[t + k] == LinkStyle(stroked[k], edges[stroked[k]].data.strokeColor.value))
  {
    BlocksAt(a, b, c, d, e, f);
  }

  /** Indexing into six concatenated blocks. */
  lemma BlocksAt<T>(a: seq<T>, b: seq<T>, c: seq<T>, d: seq<T>, e: seq<T>, f: seq<T>)
    ensures var all := a + b + c + d + e + f;
            && |all| == |a| + |b| + |c| + |d| + |e| + |f|
            && (forall i :: 0 <= i < |b| ==> all[|a| + i] == b[i])
            && (forall i :: 0 <= i < |c| ==> all[|a| + |b| + i] == c[i])
            && (forall i :: 0 <= i < |d| ==> all[|a| + |b| + |c| + i] == d[i])
            && (forall i :: 0 <= i < |e| ==> all[|a| + |b| + |c| + |d| + i] == e[i])
            && (forall i :: 0 <= i < |f| ==> all[|a| + |b| + |c| + |d| + |e| + i] == f[i])
  {
  }

  lemma MapSeqSnoc<A, B>(f: A -> B, s: seq<A>, x: A)
    ensures MapSeq(f, s + [x]) == MapSeq(f, s) + [f(x)]
  {
    assert (s + [x])[..|s|] == s;
  }

  // Rendering of one line, in the terms the loops of serialize build it.

  lemma DeclareRendered(node: Node, caption: string, shape: Shape)
    requires caption == DeclaredLabel(node) && shape == node.data.shape.GetOr(Rectangle)
    ensures Render(Declare(node)) == "  " + ShapeWrap(node.id, caption, shape)
  {
  }

  lemma StyleRendered(node: Node, parts: seq<string>)
    requires parts == StyleParts(node.data)
    ensures Render(StyleOf(node)) == "  style " + SanitizeId(node.id) + " " + Join(parts, ",")
  {
  }

  lemma ConnectRendered(edge: Edge, src: string, connector: string, tgt: string)
    requires src == SanitizeId(edge.source) && tgt == SanitizeId(edge.target)
    requires connector == EdgeConnector(edge.data.edgeStyle.GetOr(Solid), edge.data.arrowType.GetOr(Arrow))
    ensures ShowsLabel(edge) ==>
      Render(Connect(edge)) == "  " + src + " " + connector + "|\"" + EscapeLabel(edge.text.value) + "\"| " + tgt
    ensures !ShowsLabel(edge) ==> Render(Connect(edge)) == "  " + src + " " + connector + " " + tgt
  {
    assert Render(Connect(edge)) == EdgeLine(edge);
  }

  lemma LinkStyleRendered(i: nat, colour: string)
    ensures Render(LinkStyle(i, colour)) == "  linkStyle " + NatToString(i) + " stroke:" + colour
  {
  }

  lemma AppendAssoc<T>(a: seq<T>, b: seq<T>, c: seq<T>)
    ensures a + b + c == a + (b + c)
  {
  }

  lemma NodeLinesStep(ns: seq<Node>, i: nat)
    requires i < |ns|
    ensures NodeLines(ns[..i + 1]) == NodeLines(ns[..i]) + [Declare(ns[i])]
  {
    assert ns[..i + 1][..i] == ns[..i];
  }

  lemma StyleLinesStep(ns: seq<Node>, i: nat)
    requires i < |ns|
    ensures StyleLines(ns[..i + 1]) == StyleLines(ns[..i]) + (if HasCustomColour(ns[i]) then [StyleOf(ns[i])] else [])
  {
    assert ns[..i + 1][..i] == ns[..i];
  }

  lemma EdgeLinesStep(es: seq<Edge>, i: nat)
    requires i < |es|
    ensures EdgeLines(es[..i + 1]) == EdgeLines(es[..i]) + [Connect(es[i])]
  {
    assert es[..i + 1][..i] == es[..i];
  }

  lemma LinkStyleLinesStep(es: seq<Edge>, i: nat)
    requires i < |es|
    ensures LinkStyleLines(es[..i + 1]) == LinkStyleLines(es[..i])
      + (if IsSet(es[i].data.strokeColor) then [LinkStyle(i, es[i].data.strokeColor.value)] else [])
  {
    assert es[..i + 1][..i] == es[..i];
  }

  /** The loop of serialize over the nodes that declares them. */
  method PushNodeLines(lines0: seq<string>, ghost kinds0: seq<Line>, nodes: seq<Node>) returns (lines: seq<string>)
    requires lines0 == MapSeq(Render, kinds0)
    ensures lines == MapSeq(Render, kinds0 + NodeLines(nodes))
  {
    lines := lines0;
    ghost var kinds := kinds0;
    for i := 0 to |nodes|
      invariant kinds == kinds0 + NodeLines(nodes[..i])
      invariant lines == MapSeq(Render, kinds)
    {
      var node := nodes[i];
      var shape := node.data.shape.GetOr(Rectangle);
      var caption := if node.data.text != "" then node.data.text else node.id;
      DeclareRendered(node, caption, shape);
      lines := lines + ["  " + ShapeWrap(node.id, caption, shape)];
      MapSeqSnoc(Render, kinds, Declare(node));
      NodeLinesStep(nodes, i);
      AppendAssoc(kinds0, NodeLines(nodes[..i]), [Declare(node)]);
      kinds := kinds + [Declare(node)];
    }
    assert nodes[..|nodes|] == nodes;
  }

  /** The style declarations of one node, collected one colour at a time. */
  method CollectStyleParts(data: NodeData) returns (parts: seq<string>)
    ensures parts == StyleParts(data)
  {
    parts := [];
    if IsSet(data.fillColor) {
      parts := parts + ["fill:" + data.fillColor.value];
    }
    if IsSet(data.strokeColor) {
      parts := parts + ["stroke:" + data.strokeColor.value];
    }
    if IsSet(data.textColor) {
      parts := parts + ["color:" + data.textColor.value];
    }
  }

  /** One pass of that loop: the style line of one node, if it has one. */
  method PushStyleLine(lines0: seq<string>, ghost kinds0: seq<Line>, node: Node) returns (lines: seq<string>)
    requires lines0 == MapSeq(Render, kinds0)
    ensures lines == MapSeq(Render, kinds0 + (if HasCustomColour(node) then [StyleOf(node)] else []))
  {
    lines := lines0;
    var parts := CollectStyleParts(node.data);
    if |parts| > 0 {
      StyleRendered(node, parts);
      lines := lines + ["  style " + SanitizeId(node.id) + " " + Join(parts, ",")];
      MapSeqSnoc(Render, kinds0, StyleOf(node));
    } else {
      assert kinds0 + [] == kinds0;
    }
  }

  /** The loop of serialize over the nodes that writes their style lines. */
  method PushStyleLines(lines0: seq<string>, ghost kinds0: seq<Line>, nodes: seq<Node>) returns (lines: seq<string>)
    requires lines0 == MapSeq(Render, kinds0)
    ensures lines == MapSeq(Render, kinds0 + StyleLines(nodes))
  {
    lines := lines0;
    ghost var kinds := kinds0;
    for i := 0 to |nodes|
      invariant kinds == kinds0 + StyleLines(nodes[..i])
      invariant lines == MapSeq(Render, kinds)
    {
      var node := nodes[i];
      lines := PushStyleLine(lines, kinds, node);
      kinds := kinds + (if HasCustomColour(node) then [StyleOf(node)] else []);
      StyleLinesStep(nodes, i);
      AppendAssoc(kinds0, StyleLines(nodes[..i]), if HasCustomColour(node) then [StyleOf(node)] else []);
    }
    assert nodes[..|nodes|] == nodes;
  }

  /** The loop of serialize over the edges. */
  method PushEdgeLines(lines0: seq<string>, ghost kinds0: seq<Line>, edges: seq<Edge>) returns (lines: seq<string>)
    requires lines0 == MapSeq(Render, kinds0)
    ensures lines == MapSeq(Render, kinds0 + EdgeLines(edges))
  {
    lines := lines0;
    ghost var kinds := kinds0;
    for i := 0 to |edges|
      invariant kinds == kinds0 + EdgeLines(edges[..i])
      invariant lines == MapSeq(Render, kinds)
    {
      var edge := edges[i];
      var src := SanitizeId(edge.source);
      var tgt := SanitizeId(edge.target);
      var caption := edge.text;
      var edgeStyle := edge.data.edgeStyle.GetOr(Solid);
      var arrowType := edge.data.arrowType.GetOr(Arrow);
      var connector := EdgeConnector(edgeStyle, arrowType);
      ConnectRendered(edge, src, connector, tgt);
      if caption.Some? && Trim(caption.value) != "" {
        lines := lines + ["  " + src + " " + connector + "|\"" + EscapeLabel(caption.value) + "\"| " + tgt];
      } else {
        lines := lines + ["  " + src + " " + connector + " " + tgt];
      }
      MapSeqSnoc(Render, kinds, Connect(edge));
      EdgeLinesStep(edges, i);
      AppendAssoc(kinds0, EdgeLines(edges[..i]), [Connect(edge)]);
      kinds := kinds + [Connect(edge)];
    }
    assert edges[..|edges|] == edges;
  }

  /** The loop of serialize that writes a linkStyle line per stroked edge. */
  method PushLinkStyleLines(lines0: seq<string>, ghost kinds0: seq<Line>, edges: seq<Edge>) returns (lines: seq<string>)
    requires lines0 == MapSeq(Render, kinds0)
    ensures lines == MapSeq(Render, kinds0 + LinkStyleLines(edges))
  {
    lines := lines0;
    ghost var kinds := kinds0;
    for i := 0 to |edges|
      invariant kinds == kinds0 + LinkStyleLines(edges[..i])
      invariant lines == MapSeq(Render, kinds)
    {
      var strokeColor := edges[i].data.strokeColor;
      if IsSet(strokeColor) {
        LinkStyleRendered(i, strokeColor.value);
        lines := lines + ["  linkStyle " + NatToString(i) + " stroke:" + strokeColor.value];
        MapSeqSnoc(Render, kinds, LinkStyle(i, strokeColor.value));
        kinds := kinds + [LinkStyle(i, strokeColor.value)];
      }
      LinkStyleLinesStep(edges, i);
      AppendAssoc(kinds0, LinkStyleLines(edges[..i]),
                  if IsSet(strokeColor) then [LinkStyle(i, strokeColor.value)] else []);
    }
    assert edges[..|edges|] == edges;
  }

  /** serialize: the header lines, then the four loops, joined with newlines. */
  method Serialize(nodes: seq<Node>, edges: seq<Edge>, options: Options) returns (text: string)
    ensures text == Serialization(nodes, edges, options)
    ensures |nodes| == 0 ==> text == EmptyDiagram
  {
    var direction := options.direction.GetOr(TD);
    var theme := options.theme.GetOr(DefaultTheme);
    var look := options.look.GetOr(Classic);
    var curveStyle := options.curveStyle.GetOr(Basis);

    if |nodes| == 0 {
      return "flowchart TD\n  %% Add nodes to get started";
    }

    var lines: seq<string> := [];
    ghost var kinds: seq<Line> := [];
    var directive := InitDirective(theme, look, curveStyle);
    if directive.Some? {
      lines := lines + [directive.value];
      MapSeqSnoc(Render, kinds, InitLine(directive.value));
      kinds := kinds + [InitLine(directive.value)];
    }
    lines := lines + ["flowchart " + direction.Name()];
    MapSeqSnoc(Render, kinds, HeaderOf(direction));
    kinds := kinds + [HeaderOf(direction)];
    assert kinds == DirectiveLines(options) + [HeaderOf(direction)];

    lines := PushNodeLines(lines, kinds, nodes);
    kinds := kinds + NodeLines(nodes);
    lines := PushStyleLines(lines, kinds, nodes);
    kinds := kinds + StyleLines(nodes);
    lines := PushEdgeLines(lines, kinds, edges);
    kinds := kinds + EdgeLines(edges);
    lines := PushLinkStyleLines(lines, kinds, edges);
    kinds := kinds + LinkStyleLines(edges);
    assert kinds == DiagramLines(nodes, edges, options);

    text := Join(lines, "\n");
  }

  /** Two rows of the bracket table: a node with id "A" and label "X". */
  lemma ShapeWrapExamples()
    ensures ShapeWrap("A", "X", Circle) == "A((\"X\"))"
    ensures ShapeWrap("A", "X", Diamond) == "A{\"X\"}"
  {
  }

  /** An id is sanitised character by character. */
  lemma SanitizeIdExample()
    ensures SanitizeId("a b/c") == "a_b_c"
  {
  }

  /** Two rows of the connector table. */
  lemma EdgeConnectorExamples()
    ensures EdgeConnector(Dashed, Bidirectional) == "<-.->"
    ensures EdgeConnector(Thick, NoArrow) == "==="
  {
  }
}
