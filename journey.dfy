/**
 * The journey canvas: page nodes placed freely on a canvas, directed
 * connections between pages or components, the two-click connect gesture
 * driven by `connectingFrom`, deletion of a connection by id, colour by list
 * position, and node dragging through a stored cursor offset.
 */
module Journey {
  import opened Wrappers
  import opened Grid

  datatype Point = Point(x: int, y: int)
  datatype PageNode = PageNode(pageId: string, position: Point)

  /** A directed edge; an absent component id means the page itself. */
  datatype Connection = Connection(
    id: string,
    fromPageId: string,
    fromComponentId: Option<string>,
    toPageId: string,
    toComponentId: Option<string>)

  /** The pending source of the connect gesture. */
  datatype Endpoint = Endpoint(pageId: string, componentId: Option<string>)

  datatype Page = Page(id: string, name: string, contents: seq<Content>)

  const ConnectionColors: seq<string> :=
    ["#3b82f6", "#10b981", "#f59e0b", "#ef4444", "#8b5cf6", "#ec4899", "#14b8a6", "#f97316"]

  // ------------------------------------------------------------ connections

  /** `connections.findIndex(c => c.id === id)`: the first index with that id, or -1. */
  function ConnectionIndex(conns: seq<Connection>, id: string): (r: int)
    ensures -1 <= r < |conns|
    ensures r == -1 <==> forall i :: 0 <= i < |conns| ==> conns[i].id != id
    ensures r >= 0 ==> conns[r].id == id && forall j :: 0 <= j < r ==> conns[j].id != id
  {
    if |conns| == 0 then -1
    else if conns[0].id == id then 0
    else
      var r := ConnectionIndex(conns[1..], id);
      assert forall i :: 1 <= i < |conns| ==> conns[i] == conns[1..][i - 1];
      if r == -1 then -1 else r + 1
  }

  /**
   * `getConnectionColor`: the palette entry at the connection's index mod 8.
   * A connection not in the list has index -1, and `-1 % 8` is -1 in
   * JavaScript, which indexes no entry (`undefined`): `None`.
   */
  function ConnectionColor(conns: seq<Connection>, c: Connection): (r: Option<string>)
    ensures r.None? <==> forall i :: 0 <= i < |conns| ==> conns[i].id != c.id
    ensures r.Some? ==> r.value in ConnectionColors
  {
    var index := ConnectionIndex(conns, c.id);
    if index < 0 then None else Some(ConnectionColors[index % |ConnectionColors|])
  }

  predicate UniqueConnectionIds(conns: seq<Connection>)
  {
    forall i, j :: 0 <= i < j < |conns| ==> conns[i].id != conns[j].id
  }

  /** With distinct ids, the colour of entry `i` is palette entry `i mod 8`. */
  lemma ColorByPosition(conns: seq<Connection>, i: int)
    requires UniqueConnectionIds(conns) && 0 <= i < |conns|
    ensures ConnectionColor(conns, conns[i]) == Some(ConnectionColors[i % 8])
  {
    var index := ConnectionIndex(conns, conns[i].id);
    assert index >= 0 && conns[index].id == conns[i].id;
  }

  /** Connections whose positions differ by a multiple of 8 share a colour. */
  lemma ColorsCycleEvery8(conns: seq<Connection>, i: int, j: int)
    requires UniqueConnectionIds(conns) && 0 <= i < |conns| && 0 <= j < |conns|
    requires i % 8 == j % 8
    ensures ConnectionColor(conns, conns[i]) == ConnectionColor(conns, conns[j])
  {
    ColorByPosition(conns, i);
    ColorByPosition(conns, j);
  }

  /** How an edge is drawn: dashed and labelled "UI" when it stays on one page. */
  datatype EdgeStyle = EdgeStyle(color: Option<string>, dashed: bool, uiLabel: bool)

  function StyleOf(conns: seq<Connection>, c: Connection): (r: EdgeStyle)
    ensures r.dashed <==> c.fromPageId == c.toPageId
    ensures r.uiLabel == r.dashed
    ensures r.color == ConnectionColor(conns, c)
  {
    var samePage := c.fromPageId == c.toPageId;
    EdgeStyle(ConnectionColor(conns, c), samePage, samePage)
  }

  /** `connections.filter(c => c.id !== id)`. */
  function WithoutConnection(conns: seq<Connection>, id: string): (r: seq<Connection>)
    ensures |r| <= |conns|
    ensures forall c :: c in r ==> c in conns && c.id != id
    ensures forall c :: c in conns && c.id != id ==> c in r
  {
    if |conns| == 0 then []
    else if conns[0].id == id then WithoutConnection(conns[1..], id)
    else [conns[0]] + WithoutConnection(conns[1..], id)
  }

  /** Deleting an id no connection has leaves the list unchanged. */
  lemma {:induction false} WithoutAbsent(conns: seq<Connection>, id: string)
    requires forall i :: 0 <= i < |conns| ==> conns[i].id != id
    ensures WithoutConnection(conns, id) == conns
  {
    if |conns| > 0 {
      WithoutAbsent(conns[1..], id);
    }
  }

  /** Deletion works piecewise, so the remaining connections keep their order. */
  lemma {:induction false} WithoutDistributes(a: seq<Connection>, b: seq<Connection>, id: string)
    ensures WithoutConnection(a + b, id) == WithoutConnection(a, id) + WithoutConnection(b, id)
  {
    if |a| > 0 {
      assert (a + b)[1..] == a[1..] + b;
      WithoutDistributes(a[1..], b, id);
    } else {
      assert a + b == b;
    }
  }

  /** Deletion keeps every other connection as often as it occurred. */
  lemma {:induction false} WithoutCounts(conns: seq<Connection>, id: string, c: Connection)
    ensures multiset(WithoutConnection(conns, id))[c] == if c.id == id then 0 else multiset(conns)[c]
  {
    if |conns| > 0 {
      WithoutCounts(conns[1..], id, c);
      assert conns == [conns[0]] + conns[1..];
      var rest := WithoutConnection(conns[1..], id);
      if conns[0].id == id {
        assert WithoutConnection(conns, id) == rest;
      } else {
        assert WithoutConnection(conns, id) == [conns[0]] + rest;
        assert multiset(WithoutConnection(conns, id)) == multiset([conns[0]]) + multiset(rest);
      }
      assert multiset(conns) == multiset([conns[0]]) + multiset(conns[1..]);
    }
  }

  // ------------------------------------------------------------ page nodes

  /** `pageNodes.find(n => n.pageId === pageId)`. */
  /** `nodes[i]` is the first node of the page. */
  predicate FirstNodeOf(nodes: seq<PageNode>, pageId: string, i: int)
  {
    0 <= i < |nodes| && nodes[i].pageId == pageId && forall j :: 0 <= j < i ==> nodes[j].pageId != pageId
  }

  function FindNode(nodes: seq<PageNode>, pageId: string): (r: Option<PageNode>)
    ensures r.None? <==> forall i :: 0 <= i < |nodes| ==> nodes[i].pageId != pageId
    ensures r.Some? ==> r.value in nodes && r.value.pageId == pageId
    ensures r.Some? ==> exists i :: FirstNodeOf(nodes, pageId, i) && nodes[i] == r.value
  {
    if |nodes| == 0 then None
    else if nodes[0].pageId == pageId then
      assert FirstNodeOf(nodes, pageId, 0);
      Some(nodes[0])
    else
      var r := FindNode(nodes[1..], pageId);
      assert forall i :: 1 <= i < |nodes| ==> nodes[i] == nodes[1..][i - 1];
      assert r.Some? ==> exists i :: FirstNodeOf(nodes, pageId, i) && nodes[i] == r.value by {
        if r.Some? {
          var i :| FirstNodeOf(nodes[1..], pageId, i) && nodes[1..][i] == r.value;
          assert FirstNodeOf(nodes, pageId, i + 1);
        }
      }
      r
  }

  /** `getNodePosition`: the node's position, or the origin when the page has no node. */
  function NodePosition(nodes: seq<PageNode>, pageId: string): (p: Point)
    ensures (forall i :: 0 <= i < |nodes| ==> nodes[i].pageId != pageId) ==> p == Point(0, 0)
    ensures FindNode(nodes, pageId).Some? ==> p == FindNode(nodes, pageId).value.position
  {
    match FindNode(nodes, pageId)
    case Some(n) => n.position
    case None => Point(0, 0)
  }

  /** The mouse-move map: every node of the dragged page gets the new position. */
  function DraggedTo(nodes: seq<PageNode>, pageId: string, pos: Point): (r: seq<PageNode>)
    ensures |r| == |nodes|
    ensures forall i :: 0 <= i < |nodes| ==>
      r[i] == if nodes[i].pageId == pageId then nodes[i].(position := pos) else nodes[i]
  {
    if |nodes| == 0 then []
    else [if nodes[0].pageId == pageId then nodes[0].(position := pos) else nodes[0]]
         + DraggedTo(nodes[1..], pageId, pos)
  }

  predicate UniquePageIds(nodes: seq<PageNode>)
  {
    forall i, j :: 0 <= i < j < |nodes| ==> nodes[i].pageId != nodes[j].pageId
  }

  function Offset(client: Point, pos: Point): Point
  {
    Point(client.x - pos.x, client.y - pos.y)
  }

  /**
   * Moving the cursor back to where the drag started puts the node back
   * where it was: `client - (start - position) == position`.
   */
  lemma DragBackRestores(nodes: seq<PageNode>, pageId: string, start: Point)
    requires UniquePageIds(nodes)
    requires FindNode(nodes, pageId).Some?
    ensures var offset := Offset(start, FindNode(nodes, pageId).value.position);
      DraggedTo(nodes, pageId, Offset(start, offset)) == nodes
  {
    var n := FindNode(nodes, pageId).value;
    var back := Offset(start, Offset(start, n.position));
    assert back == n.position;
    var r := DraggedTo(nodes, pageId, back);
    var k :| 0 <= k < |nodes| && nodes[k] == n;
    assert nodes[k].pageId == pageId;
    forall i | 0 <= i < |nodes| ensures r[i] == nodes[i] {
      if nodes[i].pageId == pageId {
        assert i == k;
      }
    }
    assert r == nodes;
  }

  /** A later move of the same page overrides an earlier one. */
  lemma DraggedTwice(nodes: seq<PageNode>, pageId: string, a: Point, b: Point)
    ensures DraggedTo(DraggedTo(nodes, pageId, a), pageId, b) == DraggedTo(nodes, pageId, b)
  {
  }

  /**
   * A drag gesture: every mouse move in `moves` (cursor positions) maps the
   * current nodes, putting the dragged page's node at cursor minus offset.
   */
  function Gesture(nodes: seq<PageNode>, pageId: string, offset: Point, moves: seq<Point>): seq<PageNode>
    decreases |moves|
  {
    if |moves| == 0 then nodes
    else Gesture(DraggedTo(nodes, pageId, Offset(moves[0], offset)), pageId, offset, moves[1..])
  }

  /** After a gesture the node sits where the last cursor position alone puts it. */
  lemma {:induction false} GestureFollowsLast(nodes: seq<PageNode>, pageId: string, offset: Point, moves: seq<Point>)
    requires |moves| > 0
    ensures Gesture(nodes, pageId, offset, moves) == DraggedTo(nodes, pageId, Offset(moves[|moves| - 1], offset))
    decreases |moves|
  {
    var next := DraggedTo(nodes, pageId, Offset(moves[0], offset));
    if |moves| == 1 {
      assert Gesture(next, pageId, offset, moves[1..]) == next;
    } else {
      GestureFollowsLast(next, pageId, offset, moves[1..]);
      assert moves[1..][|moves[1..]| - 1] == moves[|moves| - 1];
      DraggedTwice(nodes, pageId, Offset(moves[0], offset), Offset(moves[|moves| - 1], offset));
    }
  }

  /**
   * A drag that wanders anywhere and ends with the cursor back at the
   * mouse-down point leaves every node where it was.
   */
  lemma GestureBackRestores(nodes: seq<PageNode>, pageId: string, start: Point, moves: seq<Point>)
    requires UniquePageIds(nodes)
    requires FindNode(nodes, pageId).Some?
    requires |moves| > 0 && moves[|moves| - 1] == start
    ensures Gesture(nodes, pageId, Offset(start, FindNode(nodes, pageId).value.position), moves) == nodes
  {
    GestureFollowsLast(nodes, pageId, Offset(start, FindNode(nodes, pageId).value.position), moves);
    DragBackRestores(nodes, pageId, start);
  }

  /** The components of a page card, listed by row and then column. */
  function CardComponents(p: Page): (r: seq<Content>)
    ensures SortedByPosition(r) && multiset(r) == multiset(p.contents)
  {
    SortByPosition(p.contents)
  }

  // ---------------------------------------------------------- the component

  /** The state of the `JourneyCanvas` component and its event handlers. */
  class JourneyCanvas {
    var pageNodes: seq<PageNode>
    var connections: seq<Connection>
    var draggingNode: Option<string>
    var dragOffset: Point
    var connectingFrom: Option<Endpoint>

    constructor (initialPageNodes: seq<PageNode>, initialConnections: seq<Connection>)
      ensures pageNodes == initialPageNodes && connections == initialConnections
      ensures draggingNode == None && dragOffset == Point(0, 0) && connectingFrom == None
    {
      pageNodes, connections := initialPageNodes, initialConnections;
      draggingNode, dragOffset, connectingFrom := None, Point(0, 0), None;
    }

    /** `handleNodeMouseDown`: start dragging a page that has a node, remembering the offset. */
    method HandleNodeMouseDown(pageId: string, client: Point)
      modifies this`draggingNode, this`dragOffset
      ensures FindNode(pageNodes, pageId).None? ==>
        draggingNode == old(draggingNode) && dragOffset == old(dragOffset)
      ensures FindNode(pageNodes, pageId).Some? ==>
        draggingNode == Some(pageId) && dragOffset == Offset(client, FindNode(pageNodes, pageId).value.position)
    {
      var node := FindNode(pageNodes, pageId);
      if node.None? {
        return;
      }
      draggingNode := Some(pageId);
      dragOffset := Offset(client, node.value.position);
    }

    /** `handleMouseMove`: the dragged page's node follows the cursor; `""` is falsy. */
    method HandleMouseMove(client: Point)
      modifies this`pageNodes
      ensures if draggingNode.Some? && draggingNode.value != ""
        then pageNodes == DraggedTo(old(pageNodes), draggingNode.value, Offset(client, dragOffset))
        else pageNodes == old(pageNodes)
    {
      if draggingNode.Some? && draggingNode.value != "" {
        pageNodes := DraggedTo(pageNodes, draggingNode.value, Offset(client, dragOffset));
      }
    }

    method HandleMouseUp()
      modifies this`draggingNode
      ensures draggingNode == None
    {
      draggingNode := None;
    }

    /**
     * `handleComponentClick`: with nothing pending, the clicked component
     * becomes the pending source; otherwise a connection to it is appended
     * unless it is the pending endpoint itself, and pending is cleared.
     */
    method HandleComponentClick(pageId: string, componentId: string, freshId: string)
      modifies this`connections, this`connectingFrom
      ensures old(connectingFrom).None? ==>
        connectingFrom == Some(Endpoint(pageId, Some(componentId))) && connections == old(connections)
      ensures old(connectingFrom).Some? ==> connectingFrom == None
      ensures old(connectingFrom).Some? ==>
        var from := old(connectingFrom).value;
        connections ==
          if from != Endpoint(pageId, Some(componentId))
          then old(connections) + [Connection(freshId, from.pageId, from.componentId, pageId, Some(componentId))]
          else old(connections)
    {
      if connectingFrom.Some? {
        var from := connectingFrom.value;
        if from.pageId != pageId || from.componentId != Some(componentId) {
          connections := connections + [Connection(freshId, from.pageId, from.componentId, pageId, Some(componentId))];
        }
        connectingFrom := None;
      } else {
        connectingFrom := Some(Endpoint(pageId, Some(componentId)));
      }
    }

    /**
     * `handlePageClick`: a pending component source is connected to the
     * clicked page (any page, its own included) and pending is cleared;
     * otherwise nothing happens.
     */
    method HandlePageClick(pageId: string, freshId: string)
      modifies this`connections, this`connectingFrom
      ensures var from := old(connectingFrom);
        if from.Some? && from.value.componentId.Some? && from.value.componentId.value != "" then
          connections == old(connections) + [Connection(freshId, from.value.pageId, from.value.componentId, pageId, None)] &&
          connectingFrom == None
        else
          connections == old(connections) && connectingFrom == old(connectingFrom)
    {
      if connectingFrom.Some? && connectingFrom.value.componentId.Some? && connectingFrom.value.componentId.value != "" {
        var from := connectingFrom.value;
        connections := connections + [Connection(freshId, from.pageId, from.componentId, pageId, None)];
        connectingFrom := None;
      }
    }

    /** `handleCanvasClick`: cancel the gesture. */
    method HandleCanvasClick()
      modifies this`connectingFrom
      ensures connectingFrom == None
    {
      connectingFrom := None;
    }

    method HandleDeleteConnection(connectionId: string)
      modifies this`connections
      ensures connections == WithoutConnection(old(connections), connectionId)
    {
      connections := WithoutConnection(connections, connectionId);
    }
  }
}
