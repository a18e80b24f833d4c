/** The mind-map board: the list updates that move, add and create nodes
    and projects, the lookups by id, the connection lines drawn between
    resolved endpoints, and the board's own state (the selected project and
    the drag in progress). Pointer positions, entered names and fresh ids
    are parameters; a name is `None` when the prompt was cancelled. */
module Board {
  import opened Types

  // ---------------------------------------------------------------------
  // Lookups by id (`Array.prototype.find`)
  // ---------------------------------------------------------------------

  /** The index of the first element satisfying `p`, or the length when
      there is none. */
  function FirstMatch<T>(s: seq<T>, p: T -> bool): (k: nat)
    ensures k <= |s|
    ensures k < |s| ==> p(s[k])
    ensures forall j :: 0 <= j < k ==> !p(s[j])
    decreases |s|
  {
    if s == [] || p(s[0]) then 0 else 1 + FirstMatch(s[1..], p)
  }

  /** `projects.find(p => p.id === id) || null`: the first project with
      the id, or none when no project has it. */
  function FindProject(projects: seq<Project>, id: string): (r: Option<Project>)
    ensures r.None? <==> forall i :: 0 <= i < |projects| ==> projects[i].id != id
    ensures r.Some? ==> (exists k :: 0 <= k < |projects| && projects[k] == r.value
                                 && projects[k].id == id && forall j :: 0 <= j < k ==> projects[j].id != id)
  {
    var k := FirstMatch(projects, (p: Project) => p.id == id);
    if k < |projects| then Some(projects[k]) else None
  }

  /** `nodes.find(n => n.id === id)`. */
  function FindNode(nodes: seq<Node>, id: string): (r: Option<Node>)
    ensures r.None? <==> forall i :: 0 <= i < |nodes| ==> nodes[i].id != id
    ensures r.Some? ==> (exists k :: 0 <= k < |nodes| && nodes[k] == r.value
                                 && nodes[k].id == id && forall j :: 0 <= j < k ==> nodes[j].id != id)
  {
    var k := FirstMatch(nodes, (n: Node) => n.id == id);
    if k < |nodes| then Some(nodes[k]) else None
  }

  // ---------------------------------------------------------------------
  // Dragging a node (ProjectView.tsx:19-36)
  // ---------------------------------------------------------------------

  /** Every node with the dragged id is translated by `(dx, dy)`; the others
      and the order are kept. */
  function MoveNodes(nodes: seq<Node>, nodeId: string, dx: int, dy: int): (r: seq<Node>)
    ensures |r| == |nodes|
    ensures forall i :: 0 <= i < |r| ==>
      if nodes[i].id == nodeId
      then r[i] == nodes[i].(x := nodes[i].x + dx, y := nodes[i].y + dy)
      else r[i] == nodes[i]
  {
    seq(|nodes|, i requires 0 <= i < |nodes| =>
      if nodes[i].id == nodeId then nodes[i].(x := nodes[i].x + dx, y := nodes[i].y + dy) else nodes[i])
  }

  /** The projects after one drag move: in every project with the active id
      the dragged node moves; every other project is untouched, and no
      project gains or loses a node or changes its id, name or connections. */
  function MoveInProjects(projects: seq<Project>, projectId: string, nodeId: string, dx: int, dy: int)
    : (r: seq<Project>)
    ensures |r| == |projects|
    ensures forall i :: 0 <= i < |r| ==>
      && r[i].id == projects[i].id && r[i].name == projects[i].name
      && r[i].connections == projects[i].connections
      && |r[i].nodes| == |projects[i].nodes|
      && (projects[i].id != projectId ==> r[i] == projects[i])
      && (projects[i].id == projectId ==> r[i].nodes == MoveNodes(projects[i].nodes, nodeId, dx, dy))
  {
    seq(|projects|, i requires 0 <= i < |projects| =>
      if projects[i].id == projectId
      then projects[i].(nodes := MoveNodes(projects[i].nodes, nodeId, dx, dy))
      else projects[i])
  }

  lemma {:induction false} MoveNodesCompose(nodes: seq<Node>, nodeId: string, dx1: int, dy1: int, dx2: int, dy2: int)
    ensures MoveNodes(MoveNodes(nodes, nodeId, dx1, dy1), nodeId, dx2, dy2)
      == MoveNodes(nodes, nodeId, dx1 + dx2, dy1 + dy2)
  {
    var a := MoveNodes(MoveNodes(nodes, nodeId, dx1, dy1), nodeId, dx2, dy2);
    var b := MoveNodes(nodes, nodeId, dx1 + dx2, dy1 + dy2);
    assert |a| == |b|;
    forall i | 0 <= i < |a| ensures a[i] == b[i] {
    }
  }

  /** Two moves of the same drag add up to one move by the sum. */
  lemma {:induction false} MoveCompose(projects: seq<Project>, projectId: string, nodeId: string,
                                       dx1: int, dy1: int, dx2: int, dy2: int)
    ensures MoveInProjects(MoveInProjects(projects, projectId, nodeId, dx1, dy1), projectId, nodeId, dx2, dy2)
      == MoveInProjects(projects, projectId, nodeId, dx1 + dx2, dy1 + dy2)
  {
    var once := MoveInProjects(projects, projectId, nodeId, dx1, dy1);
    var a := MoveInProjects(once, projectId, nodeId, dx2, dy2);
    var b := MoveInProjects(projects, projectId, nodeId, dx1 + dx2, dy1 + dy2);
    assert |a| == |b|;
    forall i | 0 <= i < |a| ensures a[i] == b[i] {
      if projects[i].id == projectId {
        MoveNodesCompose(projects[i].nodes, nodeId, dx1, dy1, dx2, dy2);
      }
    }
  }

  /** A move by zero changes nothing; so a move is undone by its opposite. */
  lemma {:induction false} MoveUndo(projects: seq<Project>, projectId: string, nodeId: string, dx: int, dy: int)
    ensures MoveInProjects(projects, projectId, nodeId, 0, 0) == projects
    ensures MoveInProjects(MoveInProjects(projects, projectId, nodeId, dx, dy), projectId, nodeId, -dx, -dy)
      == projects
  {
    var z := MoveInProjects(projects, projectId, nodeId, 0, 0);
    forall i | 0 <= i < |z| ensures z[i] == projects[i] {
      if projects[i].id == projectId {
        assert MoveNodes(projects[i].nodes, nodeId, 0, 0) == projects[i].nodes;
      }
    }
    MoveCompose(projects, projectId, nodeId, dx, dy, -dx, -dy);
  }

  /** The anchor of a drag: the node held and the pointer position the last
      move (or the press) left. */
  datatype Drag = Drag(nodeId: string, startX: int, startY: int)

  datatype Pointer = Pointer(x: int, y: int)

  /** The projects after a run of pointer moves, each translating by its
      offset from the anchor and then re-anchoring at the pointer
      (ProjectView.tsx:22-35). */
  function DragMoves(projects: seq<Project>, projectId: string, drag: Drag, moves: seq<Pointer>)
    : (r: seq<Project>)
    ensures |r| == |projects|
    ensures forall i :: 0 <= i < |r| ==>
      && r[i].id == projects[i].id && r[i].name == projects[i].name
      && r[i].connections == projects[i].connections
      && |r[i].nodes| == |projects[i].nodes|
      && (projects[i].id != projectId ==> r[i] == projects[i])
    decreases |moves|
  {
    if moves == [] then projects
    else
      var m := moves[0];
      DragMoves(MoveInProjects(projects, projectId, drag.nodeId, m.x - drag.startX, m.y - drag.startY),
                projectId, Drag(drag.nodeId, m.x, m.y), moves[1..])
  }

  /** Because every move re-anchors, the offsets telescope: a run of moves
      displaces the node by the last pointer position minus the press
      position. */
  lemma {:induction false} DragTelescopes(projects: seq<Project>, projectId: string, drag: Drag,
                                          moves: seq<Pointer>)
    requires moves != []
    ensures var last := moves[|moves| - 1];
      DragMoves(projects, projectId, drag, moves)
        == MoveInProjects(projects, projectId, drag.nodeId, last.x - drag.startX, last.y - drag.startY)
    decreases |moves|
  {
    var m := moves[0];
    var moved := MoveInProjects(projects, projectId, drag.nodeId, m.x - drag.startX, m.y - drag.startY);
    if |moves| == 1 {
      assert moves[1..] == [];
    } else {
      var rest := moves[1..];
      var last := moves[|moves| - 1];
      assert rest[|rest| - 1] == last;
      DragTelescopes(moved, projectId, Drag(drag.nodeId, m.x, m.y), rest);
      MoveCompose(projects, projectId, drag.nodeId, m.x - drag.startX, m.y - drag.startY,
                  last.x - m.x, last.y - m.y);
    }
  }

  // ---------------------------------------------------------------------
  // Adding nodes and projects (ProjectView.tsx:40-74)
  // ---------------------------------------------------------------------

  /** The node `addNode` creates: a text node at (400, 200). */
  function NewNode(id: string, caption: string): (n: Node)
    ensures n.id == id && n.caption == caption
    ensures n.x == 400 && n.y == 200 && n.kind == TextNode && n.content.None?
  {
    Node(id, caption, 400, 200, TextNode, None)
  }

  /** The project `createProject` creates: one `root` text node at
      (400, 300) carrying the project's name, and no connections. */
  function NewProject(id: string, name: string): (p: Project)
    ensures p.id == id && p.name == name && |p.nodes| == 1
    ensures FindNode(p.nodes, "root") == Some(p.nodes[0])
    ensures p.nodes[0].caption == name && p.nodes[0].x == 400 && p.nodes[0].y == 300
    ensures p.nodes[0].kind == TextNode
    ensures Lines(p.nodes, p.connections) == []
  {
    Project(id, name, [Node("root", name, 400, 300, TextNode, None)], [])
  }

  /** Appends `node` to every project with the id; every other project, and
      the order and number of projects, stay as they were. */
  function AddNodeTo(projects: seq<Project>, projectId: string, node: Node): (r: seq<Project>)
    ensures |r| == |projects|
    ensures forall i :: 0 <= i < |r| ==>
      if projects[i].id == projectId
      then r[i] == projects[i].(nodes := projects[i].nodes + [node])
      else r[i] == projects[i]
  {
    seq(|projects|, i requires 0 <= i < |projects| =>
      if projects[i].id == projectId then projects[i].(nodes := projects[i].nodes + [node]) else projects[i])
  }

  /** The last project with the id: `setActiveProject` runs once per match
      inside the update, so the last match is the one that stays selected. */
  function LastWithId(projects: seq<Project>, id: string): (r: Option<Project>)
    ensures r.None? <==> forall i :: 0 <= i < |projects| ==> projects[i].id != id
    ensures r.Some? ==> (exists k :: 0 <= k < |projects| && projects[k] == r.value
                                 && projects[k].id == id && forall j :: k < j < |projects| ==> projects[j].id != id)
    decreases |projects|
  {
    if projects == [] then None
    else if projects[|projects| - 1].id == id then Some(projects[|projects| - 1])
    else LastWithId(projects[..|projects| - 1], id)
  }

  /** After a node is added to the selected project, looking that project
      up again finds it with the node at the end of its list. */
  lemma {:induction false} AddNodeThenFind(projects: seq<Project>, projectId: string, node: Node)
    ensures var before := FindProject(projects, projectId);
      var after := FindProject(AddNodeTo(projects, projectId, node), projectId);
      && (before.None? ==> after.None?)
      && (before.Some? ==> after == Some(before.value.(nodes := before.value.nodes + [node])))
  {
    var r := AddNodeTo(projects, projectId, node);
    var p := (q: Project) => q.id == projectId;
    var k := FirstMatch(projects, p);
    var k' := FirstMatch(r, p);
    assert forall j :: 0 <= j < |r| ==> (p(r[j]) <==> p(projects[j]));
  }

  // ---------------------------------------------------------------------
  // Connection lines (ProjectView.tsx:112-124)
  // ---------------------------------------------------------------------

  /** A line on the canvas, from `(x1, y1)` to `(x2, y2)`. */
  datatype Line = Line(x1: int, y1: int, x2: int, y2: int)

  predicate HasNode(nodes: seq<Node>, id: string)
  {
    exists i :: 0 <= i < |nodes| && nodes[i].id == id
  }

  /** The line for one connection: drawn exactly when both endpoints name a
      node, from the first such node's anchor point (60, 20) to the other's. */
  function Resolve(nodes: seq<Node>, c: Connection): (r: Option<Line>)
    ensures r.Some? <==> HasNode(nodes, c.from) && HasNode(nodes, c.to)
    ensures r.Some? ==>
      var from, to := FindNode(nodes, c.from).value, FindNode(nodes, c.to).value;
      r.value == Line(from.x + 60, from.y + 20, to.x + 60, to.y + 20)
  {
    var from, to := FindNode(nodes, c.from), FindNode(nodes, c.to);
    if from.Some? && to.Some?
    then Some(Line(from.value.x + 60, from.value.y + 20, to.value.x + 60, to.value.y + 20))
    else None
  }

  /** What one resolution contributes to the drawing: its line, or
      nothing. */
  function Drawn(r: Option<Line>): seq<Line>
  {
    match r
    case Some(l) => [l]
    case None => []
  }

  /** The lines drawn for a list of connections, in order, skipping those
      with an endpoint that does not resolve. */
  function Lines(nodes: seq<Node>, connections: seq<Connection>): (r: seq<Line>)
    ensures |r| <= |connections|
    decreases |connections|
  {
    if connections == [] then []
    else
      Drawn(Resolve(nodes, connections[0])) + Lines(nodes, connections[1..])
  }

  /** Every line drawn is the line of some connection whose endpoints both
      resolve: a dangling connection draws nothing. */
  lemma {:induction false} LinesFromConnections(nodes: seq<Node>, connections: seq<Connection>)
    ensures forall l :: l in Lines(nodes, connections) ==>
      exists i :: 0 <= i < |connections| && Resolve(nodes, connections[i]) == Some(l)
    decreases |connections|
  {
    if connections != [] {
      var rest := connections[1..];
      LinesFromConnections(nodes, rest);
      var restLines := Lines(nodes, rest);
      forall l | l in Lines(nodes, connections)
        ensures exists i :: 0 <= i < |connections| && Resolve(nodes, connections[i]) == Some(l)
      {
        if l in restLines {
          var i :| 0 <= i < |rest| && Resolve(nodes, rest[i]) == Some(l);
          assert rest[i] == connections[i + 1];
        } else {
          assert Resolve(nodes, connections[0]) == Some(l);
        }
      }
    }
  }

  /** When every connection resolves, each gets its line, in order. */
  lemma {:induction false} LinesAllResolved(nodes: seq<Node>, connections: seq<Connection>)
    requires forall i :: 0 <= i < |connections| ==> Resolve(nodes, connections[i]).Some?
    ensures |Lines(nodes, connections)| == |connections|
    ensures forall i :: 0 <= i < |connections| ==>
      Some(Lines(nodes, connections)[i]) == Resolve(nodes, connections[i])
    decreases |connections|
  {
    if connections != [] {
      var rest := connections[1..];
      forall j | 0 <= j < |rest| ensures Resolve(nodes, rest[j]).Some? {
        assert rest[j] == connections[j + 1];
      }
      LinesAllResolved(nodes, rest);
      var restLines := Lines(nodes, rest);
      var first := Resolve(nodes, connections[0]);
      var v := first.value;
      assert Drawn(first) == [v];
      var lines := Lines(nodes, connections);
      assert lines == [v] + restLines;
      forall i | 0 <= i < |connections| ensures Some(lines[i]) == Resolve(nodes, connections[i]) {
        if i > 0 {
          assert rest[i - 1] == connections[i];
          assert lines[i] == restLines[i - 1];
        }
      }
    }
  }

  /** The lines of consecutive runs of connections are drawn one after
      the other. */
  lemma {:induction false} LinesAppend(nodes: seq<Node>, a: seq<Connection>, b: seq<Connection>)
    ensures Lines(nodes, a + b) == Lines(nodes, a) + Lines(nodes, b)
    decreases |a|
  {
    if a == [] {
      assert a + b == b;
    } else {
      assert (a + b)[0] == a[0];
      assert (a + b)[1..] == a[1..] + b;
      LinesAppend(nodes, a[1..], b);
    }
  }

  /** A connection only decides its own line: a dangling one is skipped
      while the lines before and after it are still drawn, in order, and a
      resolved one draws its line in its place. */
  lemma {:induction false} LinesSkipOnlyDangling(nodes: seq<Node>, a: seq<Connection>, c: Connection,
                                                 b: seq<Connection>)
    ensures Lines(nodes, a + [c] + b) == Lines(nodes, a) + Drawn(Resolve(nodes, c)) + Lines(nodes, b)
  {
    LinesSplit(nodes, a, c, b);
    LinesOne(nodes, c);
  }

  lemma {:induction false} LinesSplit(nodes: seq<Node>, a: seq<Connection>, c: Connection, b: seq<Connection>)
    ensures Lines(nodes, a + [c] + b) == Lines(nodes, a) + Lines(nodes, [c]) + Lines(nodes, b)
  {
    LinesAppend(nodes, a + [c], b);
    LinesAppend(nodes, a, [c]);
  }

  lemma {:induction false} LinesOne(nodes: seq<Node>, c: Connection)
    ensures Lines(nodes, [c]) == Drawn(Resolve(nodes, c))
  {
    assert [c][1..] == [];
    assert Lines(nodes, [c][1..]) == [];
  }

  // ---------------------------------------------------------------------
  // The board's state
  // ---------------------------------------------------------------------

  /** The projects list the board edits, the selected project (a snapshot
      value, as in the component's state) and the drag in progress. */
  class Canvas {
    var projects: seq<Project>
    var active: Option<Project>
    var dragging: Option<Drag>

    /** On mount the first project, if any, is selected and nothing is
        being dragged (ProjectView.tsx:12-13). */
    constructor (projects: seq<Project>)
      ensures this.projects == projects
      ensures active == if projects == [] then None else Some(projects[0])
      ensures dragging.None?
    {
      this.projects := projects;
      active := if projects == [] then None else Some(projects[0]);
      dragging := None;
    }

    /** Pressing on a node anchors a drag at the pointer. */
    method MouseDown(nodeId: string, x: int, y: int)
      modifies this
      ensures dragging == Some(Drag(nodeId, x, y))
      ensures projects == old(projects) && active == old(active)
    {
      dragging := Some(Drag(nodeId, x, y));
    }

    /** A pointer move: without a drag or a selected project nothing
        changes; otherwise the dragged node of the selected project moves by
        the offset from the anchor, the anchor moves to the pointer, and the
        selected snapshot is left as it was. */
    method MouseMove(x: int, y: int)
      modifies this
      ensures old(dragging).None? || old(active).None? ==>
        projects == old(projects) && dragging == old(dragging)
      ensures old(dragging).Some? && old(active).Some? ==>
        var d := old(dragging).value;
        && projects == MoveInProjects(old(projects), old(active).value.id, d.nodeId,
                                      x - d.startX, y - d.startY)
        && dragging == Some(Drag(d.nodeId, x, y))
      ensures active == old(active)
    {
      if dragging.None? || active.None? {
        return;
      }
      var d := dragging.value;
      projects := MoveInProjects(projects, active.value.id, d.nodeId, x - d.startX, y - d.startY);
      dragging := Some(Drag(d.nodeId, x, y));
    }

    /** Releasing the button, or leaving the canvas, ends the drag. */
    method MouseUp()
      modifies this
      ensures dragging.None?
      ensures projects == old(projects) && active == old(active)
    {
      dragging := None;
    }

    /** `addNode`: nothing without a selected project or an entered label;
        otherwise a text node at (400, 200) is appended to the selected
        project only, and the selection is refreshed from the updated list
        (when the selected id is still in it). */
    method AddNode(caption: Option<string>, nodeId: string)
      modifies this
      ensures old(active).None? || !Entered(caption) ==>
        projects == old(projects) && active == old(active)
      ensures old(active).Some? && Entered(caption) ==>
        && projects == AddNodeTo(old(projects), old(active).value.id, NewNode(nodeId, caption.value))
        && active == match LastWithId(projects, old(active).value.id)
                     case Some(p) => Some(p)
                     case None => old(active)
      ensures dragging == old(dragging)
    {
      if active.None? || !Entered(caption) {
        return;
      }
      var id := active.value.id;
      projects := AddNodeTo(projects, id, NewNode(nodeId, caption.value));
      var updated := LastWithId(projects, id);
      if updated.Some? {
        active := updated;
      }
    }

    /** `createProject`: an entered name appends the new project at the end
        and selects it; otherwise nothing changes. */
    method CreateProject(name: Option<string>, id: string)
      modifies this
      ensures !Entered(name) ==> projects == old(projects) && active == old(active)
      ensures Entered(name) ==>
        projects == old(projects) + [NewProject(id, name.value)]
        && active == Some(NewProject(id, name.value))
      ensures dragging == old(dragging)
    {
      if !Entered(name) {
        return;
      }
      var p := NewProject(id, name.value);
      projects := projects + [p];
      active := Some(p);
    }

    /** Choosing a project in the selector picks the first with the id, or
        none. */
    method SelectProject(id: string)
      modifies this
      ensures active == FindProject(projects, id)
      ensures projects == old(projects) && dragging == old(dragging)
    {
      active := FindProject(projects, id);
    }
  }

  /** A created project is found by its id when the id is fresh. */
  lemma CreatedProjectIsFound(projects: seq<Project>, id: string, name: string)
    requires forall i :: 0 <= i < |projects| ==> projects[i].id != id
    ensures FindProject(projects + [NewProject(id, name)], id) == Some(NewProject(id, name))
  {
    var s := projects + [NewProject(id, name)];
    var k := FirstMatch(s, (p: Project) => p.id == id);
    assert s[|projects|].id == id;
  }
}
