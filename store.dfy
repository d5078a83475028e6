/** The editor store: the live graph, the four diagram settings, the undo and
    redo stacks and the node counter, with the actions that change them. The
    graph edits are specified by pure functions on node and edge sequences,
    and the history moves by the timeline functions of module History. */
module Store {
  import opened Graph
  import opened Decimal
  import History
  import Serializer

  // ─── Arrow markers ───────────────────────────────────────────────────────

  /** Which of the two closed-arrowhead markers an arrow type writes. */
  datatype Markers = Markers(markerEnd: bool, markerStart: bool)

  /** computeMarkers: nothing for no arrow, both ends for bidirectional, the
      end alone for every other arrow type. */
  function ComputeMarkers(arrow: ArrowType): (m: Markers)
    ensures m.markerStart <==> arrow == Bidirectional
    ensures m.markerEnd <==> arrow != NoArrow
  {
    if arrow == NoArrow then Markers(false, false)
    else if arrow == Bidirectional then Markers(true, true)
    else Markers(true, false)
  }

  /** The canvas markers agree with the diagram text: an edge gets a start
      marker exactly when its connector opens with a head, and an end marker
      exactly when its connector does not end in a bare line. */
  lemma MarkersAgreeWithConnector(style: EdgeStyle, arrow: ArrowType)
    ensures var conn := Serializer.EdgeConnector(style, arrow);
            && (ComputeMarkers(arrow).markerStart <==> conn[0] == '<')
            && (ComputeMarkers(arrow).markerEnd <==> conn[|conn| - 1] != '-' && conn[|conn| - 1] != '=')
  {
    Serializer.EdgeConnectorHeadAtStart(style, arrow);
  }

  /** Spreading a marker update over an edge: the markers it writes are set,
      the others keep their old value. */
  function ApplyMarkers(e: Edge, m: Markers): (r: Edge)
    ensures r.markerEnd == (e.markerEnd || m.markerEnd) && r.markerStart == (e.markerStart || m.markerStart)
    ensures r.(markerEnd := e.markerEnd, markerStart := e.markerStart) == e
  {
    e.(markerEnd := e.markerEnd || m.markerEnd, markerStart := e.markerStart || m.markerStart)
  }

  // ─── Node ids and new nodes ──────────────────────────────────────────────

  /** The id minted from counter value `k`. */
  function NodeId(k: nat): string {
    "node_" + NatToString(k)
  }

  /** A minted id is `node_`, then digits that read back as the counter. */
  lemma NodeIdDigits(k: nat)
    ensures var r := NodeId(k); |r| > 5 && r[..5] == "node_"
    ensures var digits := NodeId(k)[5..];
            (forall i :: 0 <= i < |digits| ==> IsDigit(digits[i])) && DigitsValue(digits) == k
  {
    DigitsValueOfNatToString(k);
    assert NodeId(k)[5..] == NatToString(k);
  }

  /** Distinct counter values mint distinct ids. */
  lemma NodeIdInjective(j: nat, k: nat)
    requires j != k
    ensures NodeId(j) != NodeId(k)
  {
    NatToStringInjective(j, k);
    assert NodeId(j)[5..] == NatToString(j);
    assert NodeId(k)[5..] == NatToString(k);
  }

  /** The diagonal offset of addNode, from the already incremented counter. */
  function AddNodeOffset(counter: nat): (off: int)
    ensures 0 <= off < 200 && off % 10 == 0
  {
    (counter * 30) % 200
  }

  /** Where addNode places its node: on the diagonal, from the already
      incremented counter. */
  function AddNodePosition(counter: nat): (p: Position)
    ensures 150 <= p.x < 350 && p.y == p.x - 50
  {
    Position(150 + AddNodeOffset(counter), 100 + AddNodeOffset(counter))
  }

  /** A freshly created node, labelled "Node", rectangle unless a shape is given. */
  function NewNode(counter: nat, position: Position, shape: Option<Shape>): (n: Node)
    ensures n.id == NodeId(counter) && n.kind == "flowNode" && n.position == position
    ensures n.data.text == "Node" && n.data.shape == Some(shape.GetOr(Rectangle))
    ensures n.data.fillColor.None? && n.data.strokeColor.None? && n.data.textColor.None? && !n.selected
  {
    Node(NodeId(counter), "flowNode", position, NodeData("Node", Some(shape.GetOr(Rectangle)), None, None, None), false)
  }

  // ─── Targeted updates ────────────────────────────────────────────────────

  /** A key of a partial update: absent (`None`), or present with a value
      that may itself be undefined (`Some(None)`). Spreading it keeps the old
      value only when the key is absent. */
  function Merge<T>(old_: Option<T>, patch: Option<Option<T>>): (r: Option<T>)
    ensures patch.None? ==> r == old_
    ensures patch.Some? ==> r == patch.value
  {
    if patch.Some? then patch.value else old_
  }

  /** updateNodeLabel on the node sequence. */
  function RelabelNodes(ns: seq<Node>, id: string, text: string): (r: seq<Node>)
    ensures |r| == |ns|
    ensures forall i :: 0 <= i < |ns| ==>
              && r[i].data.text == (if ns[i].id == id then text else ns[i].data.text)
              && r[i].(data := r[i].data.(text := ns[i].data.text)) == ns[i]
  {
    seq(|ns|, i requires 0 <= i < |ns| => if ns[i].id == id then ns[i].(data := ns[i].data.(text := text)) else ns[i])
  }

  /** updateNodeShape on the node sequence. */
  function ReshapeNodes(ns: seq<Node>, id: string, shape: Shape): (r: seq<Node>)
    ensures |r| == |ns|
    ensures forall i :: 0 <= i < |ns| ==>
              && r[i].data.shape == (if ns[i].id == id then Some(shape) else ns[i].data.shape)
              && r[i].(data := r[i].data.(shape := ns[i].data.shape)) == ns[i]
  {
    seq(|ns|, i requires 0 <= i < |ns| => if ns[i].id == id then ns[i].(data := ns[i].data.(shape := Some(shape))) else ns[i])
  }

  /** The colour keys of an updateNodeStyle call. */
  datatype StylePatch = StylePatch(
    fillColor: Option<Option<string>>,
    strokeColor: Option<Option<string>>,
    textColor: Option<Option<string>>)

  /** The data of a restyled node: each supplied colour key replaces the old
      value, each absent one keeps it, and nothing else changes. */
  function Restyle(d: NodeData, p: StylePatch): (r: NodeData)
    ensures p.fillColor.None? ==> r.fillColor == d.fillColor
    ensures p.strokeColor.None? ==> r.strokeColor == d.strokeColor
    ensures p.textColor.None? ==> r.textColor == d.textColor
    ensures p.fillColor.Some? ==> r.fillColor == p.fillColor.value
    ensures p.strokeColor.Some? ==> r.strokeColor == p.strokeColor.value
    ensures p.textColor.Some? ==> r.textColor == p.textColor.value
    ensures r.(fillColor := d.fillColor, strokeColor := d.strokeColor, textColor := d.textColor) == d
  {
    d.(fillColor := Merge(d.fillColor, p.fillColor),
       strokeColor := Merge(d.strokeColor, p.strokeColor),
       textColor := Merge(d.textColor, p.textColor))
  }

  /** updateNodeStyle on the node sequence: the matching nodes take the
      supplied colour keys and keep the others. */
  function RestyleNodes(ns: seq<Node>, id: string, p: StylePatch): (r: seq<Node>)
    ensures |r| == |ns|
    ensures forall i :: 0 <= i < |ns| && ns[i].id != id ==> r[i] == ns[i]
    ensures forall i :: 0 <= i < |ns| && ns[i].id == id ==>
              && (p.fillColor.None? ==> r[i].data.fillColor == ns[i].data.fillColor)
              && (p.strokeColor.None? ==> r[i].data.strokeColor == ns[i].data.strokeColor)
              && (p.textColor.None? ==> r[i].data.textColor == ns[i].data.textColor)
              && (p.fillColor.Some? ==> r[i].data.fillColor == p.fillColor.value)
              && (p.strokeColor.Some? ==> r[i].data.strokeColor == p.strokeColor.value)
              && (p.textColor.Some? ==> r[i].data.textColor == p.textColor.value)
              && r[i].(data := ns[i].data) == ns[i]
              && r[i].data.(fillColor := ns[i].data.fillColor, strokeColor := ns[i].data.strokeColor,
                            textColor := ns[i].data.textColor) == ns[i].data
  {
    seq(|ns|, i requires 0 <= i < |ns| => if ns[i].id == id then ns[i].(data := Restyle(ns[i].data, p)) else ns[i])
  }

  /** An empty style update changes no node. */
  lemma RestyleNothing(ns: seq<Node>, id: string)
    ensures RestyleNodes(ns, id, StylePatch(None, None, None)) == ns
  {
  }

  /** updateEdgeLabel on the edge sequence. */
  function RelabelEdges(es: seq<Edge>, id: string, text: string): (r: seq<Edge>)
    ensures |r| == |es|
    ensures forall i :: 0 <= i < |es| ==>
              && r[i].text == (if es[i].id == id then Some(text) else es[i].text)
              && r[i].(text := es[i].text) == es[i]
  {
    seq(|es|, i requires 0 <= i < |es| => if es[i].id == id then es[i].(text := Some(text)) else es[i])
  }

  /** The data keys of an updateEdgeType call. */
  datatype EdgePatch = EdgePatch(
    edgeStyle: Option<Option<EdgeStyle>>,
    arrowType: Option<Option<ArrowType>>,
    strokeColor: Option<Option<string>>)

  /** The marker update of an updateEdgeType call: computed only when an
      arrow type is supplied. */
  function PatchMarkers(p: EdgePatch): (m: Markers)
    ensures m.markerStart <==> p.arrowType == Some(Some(Bidirectional))
    ensures m.markerEnd <==> p.arrowType.Some? && p.arrowType.value.Some? && p.arrowType.value.value != NoArrow
  {
    if p.arrowType.Some? && p.arrowType.value.Some? then ComputeMarkers(p.arrowType.value.value)
    else Markers(false, false)
  }

  /** A retyped edge: the supplied data keys replace the old ones, the
      markers of the arrow type are added, and nothing else changes. */
  function Retype(e: Edge, p: EdgePatch): (r: Edge)
    ensures p.edgeStyle.None? ==> r.data.edgeStyle == e.data.edgeStyle
    ensures p.arrowType.None? ==> r.data.arrowType == e.data.arrowType
    ensures p.strokeColor.None? ==> r.data.strokeColor == e.data.strokeColor
    ensures p.edgeStyle.Some? ==> r.data.edgeStyle == p.edgeStyle.value
    ensures p.arrowType.Some? ==> r.data.arrowType == p.arrowType.value
    ensures p.strokeColor.Some? ==> r.data.strokeColor == p.strokeColor.value
    ensures r.markerStart == (e.markerStart || p.arrowType == Some(Some(Bidirectional)))
    ensures r.markerEnd == (e.markerEnd || (p.arrowType.Some? && p.arrowType.value.Some? && p.arrowType.value.value != NoArrow))
    ensures r.(data := e.data, markerEnd := e.markerEnd, markerStart := e.markerStart) == e
  {
    ApplyMarkers(e, PatchMarkers(p)).(data := EdgeData(
      Merge(e.data.edgeStyle, p.edgeStyle),
      Merge(e.data.arrowType, p.arrowType),
      Merge(e.data.strokeColor, p.strokeColor)))
  }

  /** updateEdgeType on the edge sequence: the matching edges take the
      supplied data keys; their markers are recomputed from the arrow type
      only when one is supplied, and are never taken away. */
  function RetypeEdges(es: seq<Edge>, id: string, p: EdgePatch): (r: seq<Edge>)
    ensures |r| == |es|
    ensures forall i :: 0 <= i < |es| && es[i].id != id ==> r[i] == es[i]
    ensures forall i :: 0 <= i < |es| && es[i].id == id ==>
              && r[i].data.edgeStyle == Merge(es[i].data.edgeStyle, p.edgeStyle)
              && r[i].data.arrowType == Merge(es[i].data.arrowType, p.arrowType)
              && r[i].data.strokeColor == Merge(es[i].data.strokeColor, p.strokeColor)
              && r[i].(data := es[i].data, markerEnd := es[i].markerEnd, markerStart := es[i].markerStart) == es[i]
              && (p.arrowType.None? || p.arrowType.value.None? ==>
                    r[i].markerEnd == es[i].markerEnd && r[i].markerStart == es[i].markerStart)
              && (p.arrowType.Some? && p.arrowType.value.Some? ==>
                    var m := ComputeMarkers(p.arrowType.value.value);
                    r[i].markerEnd == (es[i].markerEnd || m.markerEnd)
                    && r[i].markerStart == (es[i].markerStart || m.markerStart))
  {
    seq(|es|, i requires 0 <= i < |es| => if es[i].id == id then Retype(es[i], p) else es[i])
  }

  /** Retyping an edge to an arrow type keeps a marker the edge already has:
      a bidirectional edge made one-headed still has its start marker, and
      an edge set to no arrow keeps both. */
  lemma RetypeKeepsMarkers(e: Edge, a: ArrowType)
    requires e.markerEnd && e.markerStart
    ensures var r := RetypeEdges([e], e.id, EdgePatch(None, Some(Some(a)), None))[0];
            r.markerEnd && r.markerStart && r.data.arrowType == Some(a)
  {
  }

  /** The edge onConnect appends: solid, one arrowhead, with its end marker. */
  function ConnectedEdge(id: string, source: string, target: string): (e: Edge)
    ensures e.id == id && e.source == source && e.target == target && e.kind == "flowEdge" && e.text.None?
    ensures e.data == EdgeData(Some(Solid), Some(Arrow), None)
    ensures var m := ComputeMarkers(e.data.arrowType.value);
            e.markerEnd == m.markerEnd && e.markerStart == m.markerStart
  {
    var m := ComputeMarkers(Arrow);
    Edge(id, "flowEdge", source, target, None, m.markerEnd, m.markerStart, EdgeData(Some(Solid), Some(Arrow), None))
  }

  /** loadDiagram stamps every node and edge with the renderer tag. */
  function StampNodes(ns: seq<Node>): (r: seq<Node>)
    ensures |r| == |ns|
    ensures forall i :: 0 <= i < |ns| ==> r[i].kind == "flowNode" && r[i].(kind := ns[i].kind) == ns[i]
  {
    seq(|ns|, i requires 0 <= i < |ns| => ns[i].(kind := "flowNode"))
  }

  function StampEdges(es: seq<Edge>): (r: seq<Edge>)
    ensures |r| == |es|
    ensures forall i :: 0 <= i < |es| ==> r[i].kind == "flowEdge" && r[i].(kind := es[i].kind) == es[i]
  {
    seq(|es|, i requires 0 <= i < |es| => es[i].(kind := "flowEdge"))
  }

  // ─── Duplicating the selection ───────────────────────────────────────────

  /** The selected nodes, in order. */
  function Selected(ns: seq<Node>): (r: seq<Node>)
    ensures |r| <= |ns|
    ensures forall k :: 0 <= k < |r| ==> r[k].selected
  {
    if ns == [] then []
    else Selected(ns[..|ns| - 1]) + (if ns[|ns| - 1].selected then [ns[|ns| - 1]] else [])
  }

  /** Nothing is selected exactly when no node is. */
  lemma {:induction false} SelectedEmpty(ns: seq<Node>)
    ensures Selected(ns) == [] <==> forall i :: 0 <= i < |ns| ==> !ns[i].selected
  {
    if ns != [] {
      var init := ns[..|ns| - 1];
      SelectedEmpty(init);
      assert forall i :: 0 <= i < |init| ==> init[i] == ns[i];
    }
  }

  /** `Selected` keeps exactly the selected nodes of `ns`. */
  lemma {:induction false} SelectedExactly(ns: seq<Node>)
    ensures forall n :: n in Selected(ns) <==> n in ns && n.selected
  {
    if ns != [] {
      var init := ns[..|ns| - 1];
      SelectedExactly(init);
      assert ns == init + [ns[|ns| - 1]];
    }
  }

  /** Filtering a concatenation filters each part, so `Selected` keeps the
      selected nodes in their input order, each as often as it occurs. */
  lemma {:induction false} SelectedAppend(a: seq<Node>, b: seq<Node>)
    ensures Selected(a + b) == Selected(a) + Selected(b)
  {
    if b != [] {
      var b0 := b[..|b| - 1];
      SelectedAppend(a, b0);
      assert (a + b)[..|a + b| - 1] == a + b0;
    } else {
      assert a + b == a;
    }
  }

  function Deselected(ns: seq<Node>): (r: seq<Node>)
    ensures |r| == |ns|
    ensures forall i :: 0 <= i < |ns| ==> !r[i].selected && r[i].(selected := ns[i].selected) == ns[i]
  {
    seq(|ns|, i requires 0 <= i < |ns| => ns[i].(selected := false))
  }

  /** The copy of a selected node under its new id: moved by (+30, +30),
      selected, and otherwise the same. */
  function Clone(n: Node, newId: string): (r: Node)
    ensures r.id == newId && r.position == Position(n.position.x + 30, n.position.y + 30) && r.selected
    ensures r.(id := n.id, position := n.position, selected := n.selected) == n
  {
    n.(id := newId, position := Position(n.position.x + 30, n.position.y + 30), selected := true)
  }

  /** The copies of the selected nodes, the `k`th with the id minted from
      `start + k`. */
  function Clones(sel: seq<Node>, start: nat): (r: seq<Node>)
    ensures |r| == |sel|
    ensures forall k :: 0 <= k < |sel| ==>
              && r[k].id == NodeId(start + k)
              && r[k].position == Position(sel[k].position.x + 30, sel[k].position.y + 30)
              && r[k].selected
              && r[k].(id := sel[k].id, position := sel[k].position, selected := sel[k].selected) == sel[k]
  {
    seq(|sel|, k requires 0 <= k < |sel| => Clone(sel[k], NodeId(start + k)))
  }

  lemma ClonesSnoc(sel: seq<Node>, start: nat)
    requires sel != []
    ensures Clones(sel, start) == Clones(sel[..|sel| - 1], start) + [Clone(sel[|sel| - 1], NodeId(start + |sel| - 1))]
  {
    var n := |sel|;
    assert forall k :: 0 <= k < n - 1 ==> sel[..n - 1][k] == sel[k];
  }

  /** The copies carry pairwise distinct ids. */
  lemma ClonesDistinct(sel: seq<Node>, start: nat)
    ensures forall j, k :: 0 <= j < k < |sel| ==> Clones(sel, start)[j].id != Clones(sel, start)[k].id
  {
    forall j, k | 0 <= j < k < |sel| ensures Clones(sel, start)[j].id != Clones(sel, start)[k].id {
      NodeIdInjective(start + j, start + k);
    }
  }

  /** The old-to-new id map, filled in selection order; a later node with a
      repeated id overwrites the entry. */
  function IdMapOf(sel: seq<Node>, start: nat): (r: map<string, string>)
    ensures |r| <= |sel|
  {
    if sel == [] then map[]
    else IdMapOf(sel[..|sel| - 1], start)[sel[|sel| - 1].id := NodeId(start + |sel| - 1)]
  }

  function SelectedIds(sel: seq<Node>): set<string> {
    set k | 0 <= k < |sel| :: sel[k].id
  }

  lemma IdMapStep(sel: seq<Node>, start: nat)
    requires sel != []
    ensures IdMapOf(sel, start) == IdMapOf(sel[..|sel| - 1], start)[sel[|sel| - 1].id := NodeId(start + |sel| - 1)]
  {
  }

  /** The id map has exactly the selected ids as keys. */
  lemma {:induction false} IdMapKeys(sel: seq<Node>, start: nat)
    ensures IdMapOf(sel, start).Keys == SelectedIds(sel)
  {
    if sel != [] {
      var n := |sel| - 1;
      var init := sel[..n];
      IdMapKeys(init, start);
      IdMapStep(sel, start);
      assert forall k :: 0 <= k < n ==> init[k] == sel[k];
      forall id | id in SelectedIds(sel) ensures id in SelectedIds(init) + {sel[n].id} {
        var k :| 0 <= k < |sel| && sel[k].id == id;
        if k < n {
          assert init[k].id == id;
        }
      }
    }
  }

  /** Every value of the id map is the id minted for one of the copies. */
  lemma {:induction false} IdMapValues(sel: seq<Node>, start: nat)
    ensures forall id :: id in IdMapOf(sel, start) ==>
              exists j :: start <= j < start + |sel| && IdMapOf(sel, start)[id] == NodeId(j)
  {
    if sel != [] {
      var n := |sel| - 1;
      IdMapValues(sel[..n], start);
      IdMapStep(sel, start);
    }
  }

  /** A selected id that no later selected node repeats maps to the id of its
      own copy. */
  lemma {:induction false} IdMapLast(sel: seq<Node>, start: nat, k: nat)
    requires k < |sel|
    requires forall l :: k < l < |sel| ==> sel[l].id != sel[k].id
    ensures sel[k].id in IdMapOf(sel, start) && IdMapOf(sel, start)[sel[k].id] == NodeId(start + k)
  {
    var n := |sel| - 1;
    IdMapStep(sel, start);
    if k < n {
      var init := sel[..n];
      assert init[k] == sel[k];
      assert forall l :: k < l < |init| ==> init[l] == sel[l];
      IdMapLast(init, start, k);
    }
  }

  /** The edges with both ends among the selected ids, in order. */
  function InternalEdges(es: seq<Edge>, ids: set<string>): (r: seq<Edge>)
    ensures |r| <= |es|
    ensures forall k :: 0 <= k < |r| ==> r[k].source in ids && r[k].target in ids
  {
    if es == [] then []
    else
      var e := es[|es| - 1];
      InternalEdges(es[..|es| - 1], ids) + (if e.source in ids && e.target in ids then [e] else [])
  }

  /** An edge with both ends selected is copied. */
  lemma {:induction false} InternalEdgesComplete(es: seq<Edge>, ids: set<string>)
    ensures forall i :: 0 <= i < |es| && es[i].source in ids && es[i].target in ids ==> es[i] in InternalEdges(es, ids)
  {
    if es != [] {
      var init := es[..|es| - 1];
      InternalEdgesComplete(init, ids);
      assert forall i :: 0 <= i < |init| ==> init[i] == es[i];
    }
  }

  /** Filtering a concatenation filters each part, so the internal edges
      keep their input order and multiplicity. */
  lemma {:induction false} InternalEdgesAppend(a: seq<Edge>, b: seq<Edge>, ids: set<string>)
    ensures InternalEdges(a + b, ids) == InternalEdges(a, ids) + InternalEdges(b, ids)
  {
    if b != [] {
      var b0 := b[..|b| - 1];
      InternalEdgesAppend(a, b0, ids);
      assert (a + b)[..|a + b| - 1] == a + b0;
    } else {
      assert a + b == a;
    }
  }

  /** `InternalEdges` keeps exactly the edges of `es` with both ends
      selected. */
  lemma {:induction false} InternalEdgesExactly(es: seq<Edge>, ids: set<string>)
    ensures forall e :: e in InternalEdges(es, ids) <==> e in es && e.source in ids && e.target in ids
  {
    if es != [] {
      var init := es[..|es| - 1];
      InternalEdgesExactly(init, ids);
      assert es == init + [es[|es| - 1]];
    }
  }

  /** The copies of the internal edges: the `k`th takes the `k`th fresh id
      and has its ends remapped through the id map. */
  function CopiedEdges(es: seq<Edge>, ids: set<string>, idMap: map<string, string>, freshEdgeId: nat -> string): (r: seq<Edge>)
    requires ids <= idMap.Keys
    ensures |r| == |InternalEdges(es, ids)|
    ensures forall k :: 0 <= k < |r| ==>
              var e := InternalEdges(es, ids)[k];
              && r[k].id == freshEdgeId(k)
              && r[k].source == idMap[e.source] && r[k].target == idMap[e.target]
              && r[k].(id := e.id, source := e.source, target := e.target) == e
  {
    var inner := InternalEdges(es, ids);
    seq(|inner|, k requires 0 <= k < |inner| =>
      inner[k].(id := freshEdgeId(k), source := idMap[inner[k].source], target := idMap[inner[k].target]))
  }

  /** duplicateSelected on a graph with a selection, with the counter at `start`. */
  function Duplicated(ns: seq<Node>, es: seq<Edge>, start: nat, freshEdgeId: nat -> string): (r: History.Snapshot)
    ensures |r.nodes| == |ns| + |Selected(ns)|
    ensures |r.edges| == |es| + |InternalEdges(es, SelectedIds(Selected(ns)))|
  {
    var sel := Selected(ns);
    IdMapKeys(sel, start);
    History.Snapshot(
      Deselected(ns) + Clones(sel, start),
      es + CopiedEdges(es, SelectedIds(sel), IdMapOf(sel, start), freshEdgeId))
  }

  /** The duplicated nodes: the old nodes deselected, then one copy per
      selected node, in order. */
  lemma DuplicatedNodes(ns: seq<Node>, es: seq<Edge>, start: nat, freshEdgeId: nat -> string)
    ensures var d := Duplicated(ns, es, start, freshEdgeId);
            var sel := Selected(ns);
            && |d.nodes| == |ns| + |sel|
            && (forall i :: 0 <= i < |ns| ==> d.nodes[i] == ns[i].(selected := false))
            && (forall k :: 0 <= k < |sel| ==> d.nodes[|ns| + k] == Clones(sel, start)[k])
  {
    var sel := Selected(ns);
    NodesLayout(Duplicated(ns, es, start, freshEdgeId).nodes, ns, Deselected(ns), Clones(sel, start));
  }

  /** DuplicatedNodes over abstract blocks, so that `Duplicated` stays
      folded while the indices are worked out. */
  lemma NodesLayout(nodes: seq<Node>, ns: seq<Node>, originals: seq<Node>, clones: seq<Node>)
    requires nodes == originals + clones
    requires |originals| == |ns|
    requires forall i :: 0 <= i < |ns| ==> originals[i] == ns[i].(selected := false)
    ensures |nodes| == |ns| + |clones|
    ensures forall i :: 0 <= i < |ns| ==> nodes[i] == ns[i].(selected := false)
    ensures forall k :: 0 <= k < |clones| ==> nodes[|ns| + k] == clones[k]
  {
  }

  /** `x` is the id of one of the copies. */
  predicate IsCloneId(x: string, clones: seq<Node>) {
    exists j :: 0 <= j < |clones| && x == clones[j].id
  }

  /** Each end of a copied edge is the id of one of the copies. */
  lemma CopiedEdgeEnds(es: seq<Edge>, sel: seq<Node>, start: nat, freshEdgeId: nat -> string)
    ensures IdMapOf(sel, start).Keys == SelectedIds(sel)
    ensures var copies := CopiedEdges(es, SelectedIds(sel), IdMapOf(sel, start), freshEdgeId);
            forall k :: 0 <= k < |copies| ==>
              IsCloneId(copies[k].source, Clones(sel, start)) && IsCloneId(copies[k].target, Clones(sel, start))
  {
    IdMapKeys(sel, start);
    var copies := CopiedEdges(es, SelectedIds(sel), IdMapOf(sel, start), freshEdgeId);
    forall k | 0 <= k < |copies|
      ensures IsCloneId(copies[k].source, Clones(sel, start)) && IsCloneId(copies[k].target, Clones(sel, start))
    {
      var e := InternalEdges(es, SelectedIds(sel))[k];
      assert copies[k].source == IdMapOf(sel, start)[e.source] && copies[k].target == IdMapOf(sel, start)[e.target];
      MappedToClone(sel, start, e.source);
      MappedToClone(sel, start, e.target);
    }
  }

  /** The id map sends every selected id to the id of one of the copies. */
  lemma MappedToClone(sel: seq<Node>, start: nat, x: string)
    requires x in IdMapOf(sel, start)
    ensures IsCloneId(IdMapOf(sel, start)[x], Clones(sel, start))
  {
    IdMapValues(sel, start);
    var js :| start <= js < start + |sel| && IdMapOf(sel, start)[x] == NodeId(js);
    assert Clones(sel, start)[js - start].id == NodeId(js);
  }

  /** The duplicated edges: the old edges, then one copy per edge with both
      ends selected, each of whose ends is the id of one of the new copies. */
  lemma DuplicatedEdges(ns: seq<Node>, es: seq<Edge>, start: nat, freshEdgeId: nat -> string)
    ensures var d := Duplicated(ns, es, start, freshEdgeId);
            var sel := Selected(ns);
            && |d.edges| == |es| + |InternalEdges(es, SelectedIds(sel))|
            && d.edges[..|es|] == es
            && IdMapOf(sel, start).Keys == SelectedIds(sel)
            && d.edges[|es|..] == CopiedEdges(es, SelectedIds(sel), IdMapOf(sel, start), freshEdgeId)
            && (forall k :: |es| <= k < |d.edges| ==>
                  IsCloneId(d.edges[k].source, Clones(sel, start)) && IsCloneId(d.edges[k].target, Clones(sel, start)))
  {
    var d := Duplicated(ns, es, start, freshEdgeId);
    var sel := Selected(ns);
    CopiedEdgeEnds(es, sel, start, freshEdgeId);
    var copies := CopiedEdges(es, SelectedIds(sel), IdMapOf(sel, start), freshEdgeId);
    assert d.edges == es + copies;
    forall k | |es| <= k < |d.edges|
      ensures IsCloneId(d.edges[k].source, Clones(sel, start)) && IsCloneId(d.edges[k].target, Clones(sel, start))
    {
      assert d.edges[k] == copies[k - |es|];
    }
  }

  // ─── The store ───────────────────────────────────────────────────────────

  class FlowStore {
    var nodes: seq<Node>
    var edges: seq<Edge>
    var direction: Direction
    var theme: Theme
    var look: Look
    var curveStyle: CurveStyle
    var past: seq<History.Snapshot>
    var future: seq<History.Snapshot>
    /** The module-level counter the node ids are minted from. */
    var nodeCounter: nat

    /** The history stacks around the live graph. */
    function Timeline(): History.Timeline
      reads this`nodes, this`edges, this`past, this`future
    {
      History.Timeline(past, History.Snapshot(nodes, edges), future)
    }

    /** Both stacks are bounded, and together they hold at most 50 entries. */
    predicate Valid()
      reads this`nodes, this`edges, this`past, this`future
    {
      History.Bounded(Timeline()) && History.Linear(Timeline())
    }

    /** The initial store: an empty graph, the default settings, empty
        stacks and the counter at 1. */
    constructor()
      ensures Valid()
      ensures nodes == [] && edges == [] && past == [] && future == []
      ensures direction == TD && theme == DefaultTheme && look == Classic && curveStyle == Basis
      ensures nodeCounter == 1
    {
      nodes, edges := [], [];
      direction, theme, look, curveStyle := TD, DefaultTheme, Classic, Basis;
      past, future := [], [];
      nodeCounter := 1;
    }

    /** pushHistory: save the live graph as the newest entry of `past`,
        keeping the newest 49 older entries, and clear `future`. */
    method PushHistory()
      modifies this`past, this`future
      ensures Valid()
      ensures Timeline() == History.Checkpoint(old(Timeline()))
    {
      var snapshot := History.Snapshot(nodes, edges);
      past := History.Newest(past, History.MaxHistory - 1) + [snapshot];
      future := [];
    }

    /** undo: nothing when `past` is empty; otherwise step back one entry. */
    method Undo()
      requires Valid()
      modifies this`nodes, this`edges, this`past, this`future
      ensures Valid()
      ensures Timeline() == History.Undo(old(Timeline()))
    {
      if |past| == 0 {
        return;
      }
      var prev := past[|past| - 1];
      var current := History.Snapshot(nodes, edges);
      nodes, edges := prev.nodes, prev.edges;
      past := past[..|past| - 1];
      future := [current] + History.Oldest(future, History.MaxHistory - 1);
    }

    /** redo: nothing when `future` is empty; otherwise step forward one entry. */
    method Redo()
      requires Valid()
      modifies this`nodes, this`edges, this`past, this`future
      ensures Valid()
      ensures Timeline() == History.Redo(old(Timeline()))
    {
      if |future| == 0 {
        return;
      }
      var next := future[0];
      var current := History.Snapshot(nodes, edges);
      nodes, edges := next.nodes, next.edges;
      past := History.Newest(past, History.MaxHistory - 1) + [current];
      future := future[1..];
    }

    /** onConnect: save, then append the new edge. */
    method OnConnect(source: string, target: string, edgeId: string)
      modifies this`edges, this`past, this`future
      ensures Valid()
      ensures Timeline() == History.Commit(old(Timeline()),
                History.Snapshot(old(nodes), old(edges) + [ConnectedEdge(edgeId, source, target)]))
    {
      PushHistory();
      var markers := ComputeMarkers(Arrow);
      var edge := Edge(edgeId, "flowEdge", source, target, None, markers.markerEnd, markers.markerStart,
                       EdgeData(Some(Solid), Some(Arrow), None));
      edges := edges + [edge];
    }

    /** addNode: save, mint an id, and append a node placed on the diagonal. */
    method AddNode(shape: Option<Shape>)
      modifies this`nodes, this`past, this`future, this`nodeCounter
      ensures Valid()
      ensures nodeCounter == old(nodeCounter) + 1
      ensures Timeline() == History.Commit(old(Timeline()), History.Snapshot(
                old(nodes) + [NewNode(old(nodeCounter), AddNodePosition(old(nodeCounter) + 1), shape)],
                old(edges)))
    {
      PushHistory();
      var id := NodeId(nodeCounter);
      nodeCounter := nodeCounter + 1;
      var position := AddNodePosition(nodeCounter);
      var newNode := Node(id, "flowNode", position, NodeData("Node", Some(shape.GetOr(Rectangle)), None, None, None), false);
      nodes := nodes + [newNode];
    }

    /** addNodeAtPosition: as addNode, at the given position. */
    method AddNodeAtPosition(position: Position, shape: Option<Shape>)
      modifies this`nodes, this`past, this`future, this`nodeCounter
      ensures Valid()
      ensures nodeCounter == old(nodeCounter) + 1
      ensures Timeline() == History.Commit(old(Timeline()),
                History.Snapshot(old(nodes) + [NewNode(old(nodeCounter), position, shape)], old(edges)))
    {
      PushHistory();
      var id := NodeId(nodeCounter);
      nodeCounter := nodeCounter + 1;
      var newNode := Node(id, "flowNode", position, NodeData("Node", Some(shape.GetOr(Rectangle)), None, None, None), false);
      nodes := nodes + [newNode];
    }

    method UpdateNodeLabel(id: string, text: string)
      modifies this`nodes, this`past, this`future
      ensures Valid()
      ensures Timeline() == History.Commit(old(Timeline()), History.Snapshot(RelabelNodes(old(nodes), id, text), old(edges)))
    {
      PushHistory();
      nodes := RelabelNodes(nodes, id, text);
    }

    method UpdateNodeShape(id: string, shape: Shape)
      modifies this`nodes, this`past, this`future
      ensures Valid()
      ensures Timeline() == History.Commit(old(Timeline()), History.Snapshot(ReshapeNodes(old(nodes), id, shape), old(edges)))
    {
      PushHistory();
      nodes := ReshapeNodes(nodes, id, shape);
    }

    method UpdateNodeStyle(id: string, style: StylePatch)
      modifies this`nodes, this`past, this`future
      ensures Valid()
      ensures Timeline() == History.Commit(old(Timeline()), History.Snapshot(RestyleNodes(old(nodes), id, style), old(edges)))
    {
      PushHistory();
      nodes := RestyleNodes(nodes, id, style);
    }

    method UpdateEdgeLabel(id: string, text: string)
      modifies this`edges, this`past, this`future
      ensures Valid()
      ensures Timeline() == History.Commit(old(Timeline()), History.Snapshot(old(nodes), RelabelEdges(old(edges), id, text)))
    {
      PushHistory();
      edges := RelabelEdges(edges, id, text);
    }

    method UpdateEdgeType(id: string, updates: EdgePatch)
      modifies this`edges, this`past, this`future
      ensures Valid()
      ensures Timeline() == History.Commit(old(Timeline()), History.Snapshot(old(nodes), RetypeEdges(old(edges), id, updates)))
    {
      PushHistory();
      edges := RetypeEdges(edges, id, updates);
    }

    method SetNodes(ns: seq<Node>)
      modifies this`nodes, this`past, this`future
      ensures Valid()
      ensures Timeline() == History.Commit(old(Timeline()), History.Snapshot(ns, old(edges)))
    {
      PushHistory();
      nodes := ns;
    }

    method LoadDiagram(ns: seq<Node>, es: seq<Edge>)
      modifies this`nodes, this`edges, this`past, this`future
      ensures Valid()
      ensures Timeline() == History.Commit(old(Timeline()), History.Snapshot(StampNodes(ns), StampEdges(es)))
    {
      PushHistory();
      nodes, edges := StampNodes(ns), StampEdges(es);
    }

    method SetDirection(d: Direction)
      modifies this`direction
      ensures direction == d
    {
      direction := d;
    }

    method SetTheme(t: Theme)
      modifies this`theme
      ensures theme == t
    {
      theme := t;
    }

    method SetLook(l: Look)
      modifies this`look
      ensures look == l
    {
      look := l;
    }

    method SetCurveStyle(c: CurveStyle)
      modifies this`curveStyle
      ensures curveStyle == c
    {
      curveStyle := c;
    }

    /** The minting loop of duplicateSelected: one fresh id per selected
        node, the id map from old to new ids, and the copies. */
    method MintClones(selectedNodes: seq<Node>) returns (newNodes: seq<Node>, idMap: map<string, string>)
      modifies this`nodeCounter
      ensures nodeCounter == old(nodeCounter) + |selectedNodes|
      ensures newNodes == Clones(selectedNodes, old(nodeCounter))
      ensures idMap == IdMapOf(selectedNodes, old(nodeCounter))
    {
      ghost var start := nodeCounter;
      idMap := map[];
      newNodes := [];
      var i := 0;
      while i < |selectedNodes|
        invariant 0 <= i <= |selectedNodes|
        invariant nodeCounter == start + i
        invariant idMap == IdMapOf(selectedNodes[..i], start)
        invariant newNodes == Clones(selectedNodes[..i], start)
      {
        var n := selectedNodes[i];
        var newId := NodeId(nodeCounter);
        nodeCounter := nodeCounter + 1;
        idMap := idMap[n.id := newId];
        newNodes := newNodes + [Clone(n, newId)];
        IdMapStep(selectedNodes[..i + 1], start);
        ClonesSnoc(selectedNodes[..i + 1], start);
        assert selectedNodes[..i + 1][..i] == selectedNodes[..i];
        i := i + 1;
      }
      assert selectedNodes[..i] == selectedNodes;
    }

    /** duplicateSelected: nothing when no node is selected; otherwise save,
        mint one id per selected node while filling the id map, and append
        the copies of the selected nodes and of the edges between them. */
    method DuplicateSelected(freshEdgeId: nat -> string)
      requires Valid()
      modifies this`nodes, this`edges, this`past, this`future, this`nodeCounter
      ensures Valid()
      ensures Selected(old(nodes)) == [] ==>
                Timeline() == old(Timeline()) && nodeCounter == old(nodeCounter)
      ensures Selected(old(nodes)) != [] ==>
                && nodeCounter == old(nodeCounter) + |Selected(old(nodes))|
                && Timeline() == History.Commit(old(Timeline()),
                     Duplicated(old(nodes), old(edges), old(nodeCounter), freshEdgeId))
    {
      var selectedNodes := Selected(nodes);
      if |selectedNodes| == 0 {
        return;
      }
      PushHistory();
      ghost var start := nodeCounter;
      var newNodes, idMap := MintClones(selectedNodes);
      var selectedIds := SelectedIds(selectedNodes);
      IdMapKeys(selectedNodes, start);
      var newEdges := CopiedEdges(edges, selectedIds, idMap, freshEdgeId);
      ghost var next := Duplicated(nodes, edges, start, freshEdgeId);
      assert next == History.Snapshot(Deselected(nodes) + newNodes, edges + newEdges);
      nodes := Deselected(nodes) + newNodes;
      edges := edges + newEdges;
    }
  }
}
