/** The entities of the editor: nodes, edges and the diagram-level settings,
    with the string spellings the source uses for each enumerated value. */
module Graph {

  datatype Option<T> = None | Some(value: T) {
    function GetOr(default: T): T {
      match this
      case Some(v) => v
      case None => default
    }
  }

  /** The 14 node shapes. */
  datatype Shape =
    | Rectangle | Rounded | Stadium | Subroutine | Cylinder | Circle | DoubleCircle
    | Diamond | Hexagon | Parallelogram | ParallelogramAlt | Trapezoid | TrapezoidAlt
    | Asymmetric

  datatype EdgeStyle = Solid | Dashed | Thick

  /** Arrow types; `NoArrow` is the source's 'none', `CircleArrow` and
      `CrossArrow` its 'circle' and 'cross'. */
  datatype ArrowType = Arrow | NoArrow | Bidirectional | CircleArrow | CrossArrow

  datatype Direction = TD | LR | BT | RL {
    function Name(): string {
      match this
      case TD => "TD"
      case LR => "LR"
      case BT => "BT"
      case RL => "RL"
    }
  }

  datatype Theme = DefaultTheme | Dark | Forest | Neutral | Base {
    function Name(): string {
      match this
      case DefaultTheme => "default"
      case Dark => "dark"
      case Forest => "forest"
      case Neutral => "neutral"
      case Base => "base"
    }
  }

  datatype Look = Classic | HandDrawn {
    function Name(): string {
      match this
      case Classic => "classic"
      case HandDrawn => "handDrawn"
    }
  }

  datatype CurveStyle =
    | Basis | BumpX | BumpY | Cardinal | CatmullRom | Linear | MonotoneX | MonotoneY
    | Natural | Step | StepAfter | StepBefore
  {
    function Name(): string {
      match this
      case Basis => "basis"
      case BumpX => "bumpX"
      case BumpY => "bumpY"
      case Cardinal => "cardinal"
      case CatmullRom => "catmullRom"
      case Linear => "linear"
      case MonotoneX => "monotoneX"
      case MonotoneY => "monotoneY"
      case Natural => "natural"
      case Step => "step"
      case StepAfter => "stepAfter"
      case StepBefore => "stepBefore"
    }
  }

  datatype Position = Position(x: int, y: int)

  /** A node's data record (`text` is the label); an absent colour is `None`, an absent shape
      (possible in a loaded file) is `None` too. */
  datatype NodeData = NodeData(
    text: string,
    shape: Option<Shape>,
    fillColor: Option<string>,
    strokeColor: Option<string>,
    textColor: Option<string>)

  /** `kind` is the renderer tag the canvas library calls the node's type. */
  datatype Node = Node(id: string, kind: string, position: Position, data: NodeData, selected: bool)

  /** An edge's data record. An edge without any data is modelled with every
      field absent; the serializer and the history copy treat the two alike. */
  datatype EdgeData = EdgeData(
    edgeStyle: Option<EdgeStyle>,
    arrowType: Option<ArrowType>,
    strokeColor: Option<string>)

  /** `markerEnd`/`markerStart` record whether the edge carries the closed
      arrowhead marker at that end; `text` (the source's label) is `None` when the edge has no
      string label. */
  datatype Edge = Edge(
    id: string,
    kind: string,
    source: string,
    target: string,
    text: Option<string>,
    markerEnd: bool,
    markerStart: bool,
    data: EdgeData)
}
