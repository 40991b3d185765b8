/** The three-colour depth-first search `detectCycles` of packages/tool-graphify/src/index.ts.
    An edge `(from, to)` is an arc; a missing colour is white. */
module CycleDetection {
  import opened Wrappers
  import opened Digraph
  import opened KahnOrder
  import TopologicalSort
  import StrictSort

  datatype Color = Gray | Black

  /** The adjacency list of `v`, if `v` is an endpoint. */
  ghost predicate Entry(arcs: seq<Arc>, keys: seq<Id>, graph: map<Id, seq<Id>>, v: Id) {
    && (v in keys <==> v in graph)
    && (v in graph ==> graph[v] == Successors(arcs, v))
  }

  /** `graph` holds the adjacency list of every endpoint. */
  ghost predicate Adjacency(arcs: seq<Arc>, keys: seq<Id>, graph: map<Id, seq<Id>>) {
    && TargetsIn(arcs, keys) && SourcesIn(arcs, keys)
    && forall v :: Entry(arcs, keys, graph, v)
  }

  /** The arc closes a cycle. */
  ghost predicate ClosesCycle(arcs: seq<Arc>, a: Arc) {
    exists p :: IsCycle(arcs, p) && (p[|p| - 2], p[|p| - 1]) == a
  }

  /** Every successor of `v` that is not among `done` closes a cycle. */
  ghost predicate Closing(arcs: seq<Arc>, v: Id, done: seq<Id>) {
    forall w :: (v, w) in arcs && w !in done ==> ClosesCycle(arcs, (v, w))
  }

  /** Vertices finished by the search, latest first: a successor that did not finish earlier closes a cycle. */
  ghost predicate Finished(arcs: seq<Arc>, finished: seq<Id>) {
    finished == [] ||
    (finished[0] !in finished[1..] && Closing(arcs, finished[0], finished[1..]) && Finished(arcs, finished[1..]))
  }

  /** How many entries of `s` are not in `finished`. */
  ghost function Unfinished(s: seq<Id>, finished: seq<Id>): nat {
    if s == [] then 0 else
    Unfinished(s[..|s| - 1], finished) + if s[|s| - 1] in finished then 0 else 1
  }

  /** The adjacency entries that lead from a finished vertex to one that did not finish earlier. */
  ghost function BackEntries(arcs: seq<Arc>, finished: seq<Id>): nat {
    if finished == [] then 0 else
    Unfinished(Successors(arcs, finished[0]), finished[1..]) + BackEntries(arcs, finished[1..])
  }

  /** A gray vertex is on the current call stack, a black one is finished. */
  ghost predicate Placed(keys: seq<Id>, color: map<Id, Color>, stack: seq<Id>, finished: seq<Id>, v: Id) {
    && (v in color ==> v in keys)
    && (v in stack <==> v in color && color[v] == Gray)
    && (v in finished <==> v in color && color[v] == Black)
  }

  /** The call stack is a walk through the gray vertices. */
  ghost predicate Searching(arcs: seq<Arc>, keys: seq<Id>, color: map<Id, Color>, stack: seq<Id>, finished: seq<Id>) {
    IsWalk(arcs, stack) && forall v :: Placed(keys, color, stack, finished, v)
  }

  function ListOf(graph: map<Id, seq<Id>>, v: Id): seq<Id> {
    if v in graph then graph[v] else []
  }

  function AddNew(keys: seq<Id>, v: Id): seq<Id> {
    if v in keys then keys else keys + [v]
  }

  /** The endpoints in the order in which the edges first mention them, sources before targets. */
  function Endpoints(edges: seq<Arc>): seq<Id> {
    if edges == [] then [] else
    AddNew(AddNew(Endpoints(edges[..|edges| - 1]), edges[|edges| - 1].0), edges[|edges| - 1].1)
  }

  /** The lists after one more edge: its target joins the list of its source, and has a list of its own. */
  function WithEdge(graph: map<Id, seq<Id>>, from: Id, to: Id): map<Id, seq<Id>> {
    var graph1 := graph[from := ListOf(graph, from) + [to]];
    graph1[to := ListOf(graph1, to)]
  }

  /** One turn of the loop. */
  method InsertEdge(keys0: seq<Id>, graph0: map<Id, seq<Id>>, from: Id, to: Id)
    returns (keys: seq<Id>, graph: map<Id, seq<Id>>)
    requires (from in keys0 <==> from in graph0) && (to in keys0 <==> to in graph0)
    ensures keys == AddNew(AddNew(keys0, from), to) && graph == WithEdge(graph0, from, to)
  {
    keys, graph := keys0, graph0;
    var list := if from in graph then graph[from] else [];
    if from !in graph { keys := keys + [from]; }
    graph := graph[from := list + [to]];
    if to !in graph {
      keys := keys + [to];
      graph := graph[to := []];
    }
  }

  /** The loop that builds the adjacency map. */
  method BuildGraph(edges: seq<Arc>) returns (keys: seq<Id>, graph: map<Id, seq<Id>>)
    ensures Adjacency(edges, keys, graph) && keys == Endpoints(edges)
  {
    keys, graph := [], map[];
    for i := 0 to |edges|
      invariant Built(edges, i, keys, graph)
    {
      BuiltNext(edges, i, keys, graph);
      keys, graph := InsertEdge(keys, graph, edges[i].0, edges[i].1);
    }
    assert edges[..|edges|] == edges;
  }

  /** The map of the first `i` edges. */
  ghost predicate Built(edges: seq<Arc>, i: nat, keys: seq<Id>, graph: map<Id, seq<Id>>)
    requires i <= |edges|
  {
    Adjacency(edges[..i], keys, graph) && keys == Endpoints(edges[..i])
  }

  lemma {:induction false} KeyIsKnown(arcs: seq<Arc>, keys: seq<Id>, graph: map<Id, seq<Id>>, v: Id)
    requires Adjacency(arcs, keys, graph)
    ensures v in keys <==> v in graph
  {
    assert Entry(arcs, keys, graph, v);
  }

  lemma {:induction false} AdjacencyNext(edges: seq<Arc>, i: nat, keys: seq<Id>, graph: map<Id, seq<Id>>)
    requires i < |edges| && Adjacency(edges[..i], keys, graph)
    ensures Adjacency(edges[..i + 1], AddNew(AddNew(keys, edges[i].0), edges[i].1),
                      WithEdge(graph, edges[i].0, edges[i].1))
  {
    AddEdge(edges[..i], keys, graph, edges[i].0, edges[i].1);
    assert edges[..i + 1] == edges[..i] + [(edges[i].0, edges[i].1)];
  }

  lemma {:induction false} BuiltNext(edges: seq<Arc>, i: nat, keys: seq<Id>, graph: map<Id, seq<Id>>)
    requires i < |edges| && Built(edges, i, keys, graph)
    ensures (edges[i].0 in keys <==> edges[i].0 in graph) && (edges[i].1 in keys <==> edges[i].1 in graph)
    ensures Built(edges, i + 1, AddNew(AddNew(keys, edges[i].0), edges[i].1),
                  WithEdge(graph, edges[i].0, edges[i].1))
  {
    KeyIsKnown(edges[..i], keys, graph, edges[i].0);
    KeyIsKnown(edges[..i], keys, graph, edges[i].1);
    AdjacencyNext(edges, i, keys, graph);
    EndpointsNext(edges, i);
  }

  lemma {:induction false} EndpointsNext(edges: seq<Arc>, i: nat)
    requires i < |edges|
    ensures Endpoints(edges[..i + 1]) == AddNew(AddNew(Endpoints(edges[..i]), edges[i].0), edges[i].1)
  {
    assert edges[..i + 1][..i] == edges[..i];
  }

  lemma {:induction false} EntryAfter(arcs: seq<Arc>, keys: seq<Id>, graph: map<Id, seq<Id>>, from: Id, to: Id, v: Id)
    requires SourcesIn(arcs, keys) && Entry(arcs, keys, graph, from) && Entry(arcs, keys, graph, to)
    requires Entry(arcs, keys, graph, v)
    ensures Entry(arcs + [(from, to)], AddNew(AddNew(keys, from), to), WithEdge(graph, from, to), v)
  {
    assert (arcs + [(from, to)])[..|arcs|] == arcs;
    if v !in keys { NoSuccessors(arcs, keys, v); }
  }

  lemma {:induction false} KeysAfter(arcs: seq<Arc>, keys: seq<Id>, from: Id, to: Id)
    requires TargetsIn(arcs, keys) && SourcesIn(arcs, keys)
    ensures var keys' := AddNew(AddNew(keys, from), to);
      TargetsIn(arcs + [(from, to)], keys') && SourcesIn(arcs + [(from, to)], keys')
  {
    var keys' := AddNew(AddNew(keys, from), to);
    assert from in keys' && to in keys' && forall v :: v in keys ==> v in keys';
  }

  lemma {:induction false} AddEdge(arcs: seq<Arc>, keys: seq<Id>, graph: map<Id, seq<Id>>, from: Id, to: Id)
    requires Adjacency(arcs, keys, graph)
    ensures Adjacency(arcs + [(from, to)], AddNew(AddNew(keys, from), to), WithEdge(graph, from, to))
  {
    var arcs', keys', graph' := arcs + [(from, to)], AddNew(AddNew(keys, from), to), WithEdge(graph, from, to);
    assert Entry(arcs, keys, graph, from) && Entry(arcs, keys, graph, to);
    KeysAfter(arcs, keys, from, to);
    forall v ensures Entry(arcs', keys', graph', v) {
      assert Entry(arcs, keys, graph, v);
      EntryAfter(arcs, keys, graph, from, to, v);
    }
  }

  lemma {:induction false} NoSuccessors(arcs: seq<Arc>, keys: seq<Id>, v: Id)
    requires SourcesIn(arcs, keys) && v !in keys
    ensures Successors(arcs, v) == []
  {
    if arcs != [] {
      assert arcs[|arcs| - 1] in arcs;
      NoSuccessors(arcs[..|arcs| - 1], keys, v);
    }
  }

  /** A gray successor of the top of the stack closes a cycle. */
  lemma {:induction false} BackEdge(arcs: seq<Arc>, stack: seq<Id>, w: Id)
    requires IsWalk(arcs, stack) && stack != [] && (stack[|stack| - 1], w) in arcs && w in stack
    ensures ClosesCycle(arcs, (stack[|stack| - 1], w))
  {
    var i :| 0 <= i < |stack| && stack[i] == w;
    WalkSuffix(arcs, stack, i);
    var p := stack[i..] + [w];
    assert p[..|p| - 1] == stack[i..];
    assert IsCycle(arcs, p) && (p[|p| - 2], p[|p| - 1]) == (stack[|stack| - 1], w);
  }

  /** Finishing `v` once each of its successors is finished or closes a cycle. */
  lemma {:induction false} Finish(arcs: seq<Arc>, finished: seq<Id>, v: Id)
    requires Finished(arcs, finished) && v !in finished && Closing(arcs, v, finished)
    ensures Finished(arcs, [v] + finished)
    ensures BackEntries(arcs, [v] + finished) == Unfinished(Successors(arcs, v), finished) + BackEntries(arcs, finished)
  {
    assert ([v] + finished)[1..] == finished;
  }

  /** A white vertex turns gray on top of the stack. */
  lemma {:induction false} Enter(arcs: seq<Arc>, keys: seq<Id>, color: map<Id, Color>, stack: seq<Id>,
                                 finished: seq<Id>, v: Id)
    requires Searching(arcs, keys, color, stack, finished) && v in keys && v !in color
    requires stack == [] || (stack[|stack| - 1], v) in arcs
    ensures Searching(arcs, keys, color[v := Gray], stack + [v], finished) && v !in stack
  {
    WalkSnoc(arcs, stack, v);
    assert Placed(keys, color, stack, finished, v);
    var color', stack' := color[v := Gray], stack + [v];
    forall u ensures Placed(keys, color', stack', finished, u) {
      assert Placed(keys, color, stack, finished, u);
    }
  }

  /** The top of the stack turns black. */
  lemma {:induction false} Leave(arcs: seq<Arc>, keys: seq<Id>, color: map<Id, Color>, stack: seq<Id>,
                                 finished: seq<Id>, v: Id)
    requires Searching(arcs, keys, color, stack + [v], finished) && IsWalk(arcs, stack) && v !in stack
    ensures v in color && v !in finished
    ensures Searching(arcs, keys, color[v := Black], stack, [v] + finished)
  {
    var stack', color', finished' := stack + [v], color[v := Black], [v] + finished;
    assert v in stack' && Placed(keys, color, stack', finished, v);
    forall u ensures Placed(keys, color', stack, finished', u) {
      assert Placed(keys, color, stack', finished, u);
    }
  }

  /** The search has only gone on: nothing coloured or finished is taken back. */
  ghost predicate GoesOn(color0: map<Id, Color>, finished0: seq<Id>, color: map<Id, Color>, finished: seq<Id>) {
    (forall v :: v in color0 ==> v in color) && (forall v :: v in finished0 ==> v in finished)
  }

  /** The vertices looked at are finished, or on the path and not. */
  ghost predicate Handled(seen: seq<Id>, path: seq<Id>, finished: seq<Id>) {
    forall v :: v in seen ==> v in finished || v in path
  }

  ghost predicate Disjoint(path: seq<Id>, finished: seq<Id>) {
    forall v :: v in path ==> v !in finished
  }

  /** While the path stays, what was finished or on it stays so. */
  lemma {:induction false} UnfinishedStays(seen: seq<Id>, path: seq<Id>, finished: seq<Id>, finished': seq<Id>)
    requires Handled(seen, path, finished) && Disjoint(path, finished')
    requires forall v :: v in finished ==> v in finished'
    ensures Handled(seen, path, finished') && Unfinished(seen, finished') == Unfinished(seen, finished)
  {
    if seen != [] { UnfinishedStays(seen[..|seen| - 1], path, finished, finished'); }
  }

  lemma {:induction false} LookAt(seen: seq<Id>, w: Id, path: seq<Id>, finished: seq<Id>)
    requires Handled(seen, path, finished) && (w in finished || w in path)
    ensures Handled(seen + [w], path, finished)
    ensures Unfinished(seen + [w], finished) == Unfinished(seen, finished) + if w in finished then 0 else 1
  {
    assert (seen + [w])[..|seen|] == seen;
  }

  /** The vertices not yet coloured. */
  ghost function White(keys: seq<Id>, color: map<Id, Color>): set<Id> {
    (set v | v in keys) - color.Keys
  }

  /** The depth-first search as a function: the vertices of `todo` in turn, each white one after all that can be reached
      from it through white vertices.  Yields what stays white and the finished vertices, latest first. */
  function Search(arcs: seq<Arc>, white: set<Id>, finished: seq<Id>, todo: seq<Id>): (r: (set<Id>, seq<Id>))
    ensures r.0 <= white
    decreases white, |todo|
  {
    if todo == [] then (white, finished)
    else if todo[0] !in white then Search(arcs, white, finished, todo[1..])
    else
      var inner := Search(arcs, white - {todo[0]}, finished, Successors(arcs, todo[0]));
      Search(arcs, inner.0, [todo[0]] + inner.1, todo[1..])
  }

  /** The vertices in the order in which the search of all endpoints finishes them, latest first. */
  function FinishOrder(edges: seq<Arc>): seq<Id> {
    var keys := Endpoints(edges);
    Search(edges, set v | v in keys, [], keys).1
  }

  lemma {:induction false} SearchHead(arcs: seq<Arc>, white: set<Id>, finished: seq<Id>, todo: seq<Id>)
    requires todo != []
    ensures var r := Search(arcs, white, finished, [todo[0]]);
      Search(arcs, white, finished, todo) == Search(arcs, r.0, r.1, todo[1..])
  {
    assert [todo[0]][1..] == [];
  }

  lemma {:induction false} SearchOne(arcs: seq<Arc>, white: set<Id>, finished: seq<Id>, v: Id)
    ensures var inner := Search(arcs, white - {v}, finished, Successors(arcs, v));
      Search(arcs, white, finished, [v]) == if v in white then (inner.0, [v] + inner.1) else (white, finished)
  {
    assert [v][1..] == [];
  }

  /** Searching one list and then another is searching them in a row. */
  lemma {:induction false} SearchAppend(arcs: seq<Arc>, white: set<Id>, finished: seq<Id>, todo: seq<Id>, more: seq<Id>)
    ensures var r := Search(arcs, white, finished, todo);
      Search(arcs, white, finished, todo + more) == Search(arcs, r.0, r.1, more)
    decreases |todo|
  {
    if todo == [] {
      assert todo + more == more;
    } else {
      var r := Search(arcs, white, finished, [todo[0]]);
      SearchHead(arcs, white, finished, todo);
      SearchHead(arcs, white, finished, todo + more);
      SearchAppend(arcs, r.0, r.1, todo[1..], more);
      assert (todo + more)[1..] == todo[1..] + more;
    }
  }

  /** The search of `todo` leads from one colouring and list of finished vertices to another. */
  ghost predicate Leads(arcs: seq<Arc>, keys: seq<Id>, color0: map<Id, Color>, finished0: seq<Id>, todo: seq<Id>,
                        color: map<Id, Color>, finished: seq<Id>) {
    Search(arcs, White(keys, color0), finished0, todo) == (White(keys, color), finished)
  }

  lemma {:induction false} LeadsOn(arcs: seq<Arc>, keys: seq<Id>, color0: map<Id, Color>, finished0: seq<Id>,
                                   todo: seq<Id>, j: nat, color1: map<Id, Color>, finished1: seq<Id>,
                                   color: map<Id, Color>, finished: seq<Id>)
    requires j < |todo| && Leads(arcs, keys, color0, finished0, todo[..j], color1, finished1)
    requires Leads(arcs, keys, color1, finished1, [todo[j]], color, finished)
    ensures Leads(arcs, keys, color0, finished0, todo[..j + 1], color, finished)
  {
    SearchAppend(arcs, White(keys, color0), finished0, todo[..j], [todo[j]]);
    assert todo[..j + 1] == todo[..j] + [todo[j]];
  }

  lemma {:induction false} LeadsNowhere(arcs: seq<Arc>, keys: seq<Id>, color: map<Id, Color>, finished: seq<Id>)
    ensures Leads(arcs, keys, color, finished, [], color, finished)
    ensures forall v :: v !in White(keys, color) ==> Leads(arcs, keys, color, finished, [v], color, finished)
  {
    forall v | v !in White(keys, color) ensures Leads(arcs, keys, color, finished, [v], color, finished) {
      SearchOne(arcs, White(keys, color), finished, v);
    }
  }

  /** From the search of its successors to the search of a white vertex. */
  lemma {:induction false} LeadsThrough(arcs: seq<Arc>, keys: seq<Id>, color0: map<Id, Color>, finished0: seq<Id>,
                                        v: Id, color: map<Id, Color>, finished: seq<Id>)
    requires v in keys && v !in color0 && v in color
    requires Leads(arcs, keys, color0[v := Gray], finished0, Successors(arcs, v), color, finished)
    ensures Leads(arcs, keys, color0, finished0, [v], color[v := Black], [v] + finished)
  {
    SearchOne(arcs, White(keys, color0), finished0, v);
    assert White(keys, color0[v := Gray]) == White(keys, color0) - {v};
    assert White(keys, color[v := Black]) == White(keys, color);
  }

  /** The state of the search between two steps. */
  ghost predicate Sound(arcs: seq<Arc>, keys: seq<Id>, color: map<Id, Color>, stack: seq<Id>, finished: seq<Id>) {
    Searching(arcs, keys, color, stack, finished) && Finished(arcs, finished)
  }

  lemma {:induction false} SoundIsDisjoint(arcs: seq<Arc>, keys: seq<Id>, color: map<Id, Color>, stack: seq<Id>,
                                           finished: seq<Id>)
    requires Sound(arcs, keys, color, stack, finished)
    ensures Disjoint(stack, finished)
  {
    forall v | v in stack ensures v !in finished {
      assert Placed(keys, color, stack, finished, v);
    }
  }

  lemma {:induction false} FewerWhite(keys: seq<Id>, color0: map<Id, Color>, color: map<Id, Color>, v: Id)
    requires (forall u :: u in color0 ==> u in color) && v in keys && v !in color0 && v in color
    ensures White(keys, color) < White(keys, color0)
  {
    assert v in White(keys, color0) && v !in White(keys, color);
  }

  lemma {:induction false} NeighborIsListed(arcs: seq<Arc>, keys: seq<Id>, graph: map<Id, seq<Id>>, v: Id, j: nat)
    requires Adjacency(arcs, keys, graph) && v in graph && j < |graph[v]|
    ensures (v, graph[v][j]) in arcs && graph[v][j] in keys
  {
    assert Entry(arcs, keys, graph, v) && graph[v][j] in Successors(arcs, v);
    assert (v, graph[v][j]) in arcs && (v, graph[v][j]).1 in keys;
  }

  /** The top of the stack is finished once all its successors have been handled. */
  lemma {:induction false} Blacken(arcs: seq<Arc>, keys: seq<Id>, color: map<Id, Color>, stack: seq<Id>,
                                   finished: seq<Id>, v: Id)
    requires v !in stack && IsWalk(arcs, stack) && Sound(arcs, keys, color, stack + [v], finished)
    requires Handled(Successors(arcs, v), stack + [v], finished)
    ensures Sound(arcs, keys, color[v := Black], stack, [v] + finished)
    ensures BackEntries(arcs, [v] + finished) == Unfinished(Successors(arcs, v), finished) + BackEntries(arcs, finished)
  {
    Leave(arcs, keys, color, stack, finished, v);
    forall w | (v, w) in arcs && w !in finished ensures ClosesCycle(arcs, (v, w)) {
      assert w in Successors(arcs, v);
      BackEdge(arcs, stack + [v], w);
    }
    Finish(arcs, finished, v);
  }

  /** One more neighbour looked at: the earlier ones stay finished, or on the path and not. */
  lemma {:induction false} ScanStep(arcs: seq<Arc>, keys: seq<Id>, color: map<Id, Color>, path: seq<Id>,
                                    finished0: seq<Id>, finished: seq<Id>, neighbors: seq<Id>, j: nat)
    requires Sound(arcs, keys, color, path, finished) && (forall v :: v in finished0 ==> v in finished)
    requires j < |neighbors| && Handled(neighbors[..j], path, finished0)
    requires neighbors[j] in finished || neighbors[j] in path
    ensures Handled(neighbors[..j + 1], path, finished)
    ensures Unfinished(neighbors[..j + 1], finished) ==
            Unfinished(neighbors[..j], finished0) + if neighbors[j] in finished then 0 else 1
  {
    SoundIsDisjoint(arcs, keys, color, path, finished);
    UnfinishedStays(neighbors[..j], path, finished0, finished);
    LookAt(neighbors[..j], neighbors[j], path, finished);
    assert neighbors[..j + 1] == neighbors[..j] + [neighbors[j]];
  }

  /** One turn of the neighbour loop: a gray neighbour closes a cycle and is counted, a white one is searched. */
  method Visit(ghost arcs: seq<Arc>, ghost keys: seq<Id>, graph: map<Id, seq<Id>>, w: Id,
               color0: map<Id, Color>, cycles0: nat, ghost path: seq<Id>, ghost finished0: seq<Id>)
    returns (color: map<Id, Color>, cycles: nat, ghost finished: seq<Id>)
    requires Adjacency(arcs, keys, graph) && Sound(arcs, keys, color0, path, finished0)
    requires path != [] && (path[|path| - 1], w) in arcs && w in keys
    ensures Sound(arcs, keys, color, path, finished) && GoesOn(color0, finished0, color, finished)
    ensures w in finished || w in path
    ensures Leads(arcs, keys, color0, finished0, [w], color, finished)
    ensures cycles - BackEntries(arcs, finished) ==
            cycles0 - BackEntries(arcs, finished0) + if w in finished then 0 else 1
    decreases White(keys, color0), 1
  {
    color, cycles, finished := color0, cycles0, finished0;
    assert Placed(keys, color, path, finished, w);
    LeadsNowhere(arcs, keys, color, finished);
    if w in color && color[w] == Gray {
      cycles := cycles + 1;
    } else if w !in color {
      color, cycles, finished := Dfs(arcs, keys, graph, w, color, cycles, path, finished);
    }
  }

  method Dfs(ghost arcs: seq<Arc>, ghost keys: seq<Id>, graph: map<Id, seq<Id>>, node: Id,
             color0: map<Id, Color>, cycles0: nat, ghost stack: seq<Id>, ghost finished0: seq<Id>)
    returns (color: map<Id, Color>, cycles: nat, ghost finished: seq<Id>)
    requires Adjacency(arcs, keys, graph) && node in keys && node !in color0
    requires Sound(arcs, keys, color0, stack, finished0)
    requires stack == [] || (stack[|stack| - 1], node) in arcs
    ensures Sound(arcs, keys, color, stack, finished) && GoesOn(color0, finished0, color, finished)
    ensures node in finished && cycles - BackEntries(arcs, finished) == cycles0 - BackEntries(arcs, finished0)
    ensures Leads(arcs, keys, color0, finished0, [node], color, finished)
    decreases White(keys, color0), 0
  {
    Enter(arcs, keys, color0, stack, finished0, node);
    assert Entry(arcs, keys, graph, node);
    color, cycles, finished := color0[node := Gray], cycles0, finished0;
    ghost var path := stack + [node];
    var neighbors := graph[node];
    LeadsNowhere(arcs, keys, color, finished);
    for j := 0 to |neighbors|
      invariant Sound(arcs, keys, color, path, finished)
      invariant GoesOn(color0, finished0, color, finished) && node in color
      invariant Handled(neighbors[..j], path, finished)
      invariant Leads(arcs, keys, color0[node := Gray], finished0, neighbors[..j], color, finished)
      invariant cycles - BackEntries(arcs, finished) - Unfinished(neighbors[..j], finished) ==
                cycles0 - BackEntries(arcs, finished0)
    {
      NeighborIsListed(arcs, keys, graph, node, j);
      FewerWhite(keys, color0, color, node);
      ghost var color1, finished1 := color, finished;
      color, cycles, finished := Visit(arcs, keys, graph, neighbors[j], color, cycles, path, finished);
      ScanStep(arcs, keys, color, path, finished1, finished, neighbors, j);
      LeadsOn(arcs, keys, color0[node := Gray], finished0, neighbors, j, color1, finished1, color, finished);
    }
    assert neighbors[..|neighbors|] == Successors(arcs, node);
    Blacken(arcs, keys, color, stack, finished, node);
    LeadsThrough(arcs, keys, color0, finished0, node, color, finished);
    color, finished := color[node := Black], [node] + finished;
  }

  // ---------------------------------------------------------------- what the count means

  /** The source of the arc is finished and its target did not finish earlier. */
  ghost predicate IsBack(finished: seq<Id>, a: Arc) {
    finished != [] && if finished[0] == a.0 then a.1 !in finished[1..] else IsBack(finished[1..], a)
  }

  /** How many arcs of the list, repeated ones included, are in the set. */
  ghost function Listed(arcs: seq<Arc>, chosen: set<Arc>): nat {
    if arcs == [] then 0 else
    Listed(arcs[..|arcs| - 1], chosen) + if arcs[|arcs| - 1] in chosen then 1 else 0
  }

  ghost function BackArcs(arcs: seq<Arc>, finished: seq<Id>): set<Arc> {
    set a | a in arcs && IsBack(finished, a)
  }

  lemma {:induction false} SuccessorsOfMore(arcs: seq<Arc>, a: Arc, v: Id, finished: seq<Id>)
    ensures Unfinished(Successors(arcs + [a], v), finished) ==
            Unfinished(Successors(arcs, v), finished) + if a.0 == v && a.1 !in finished then 1 else 0
  {
    assert (arcs + [a])[..|arcs|] == arcs;
    if a.0 == v {
      var s := Successors(arcs, v);
      assert (s + [a.1])[..|s|] == s;
    }
  }

  lemma {:induction false} SourceNotFinished(finished: seq<Id>, a: Arc)
    requires a.0 !in finished
    ensures !IsBack(finished, a)
  {
    if finished != [] { SourceNotFinished(finished[1..], a); }
  }

  lemma {:induction false} ForwardIsBefore(finished: seq<Id>, a: Arc)
    requires a.0 in finished && !IsBack(finished, a)
    ensures Before(finished, a.0, a.1)
  {
    if finished[0] == a.0 {
      var k :| 0 <= k < |finished| - 1 && finished[1..][k] == a.1;
      assert finished[0] == a.0 && finished[k + 1] == a.1;
    } else {
      assert finished == [finished[0]] + finished[1..];
      ForwardIsBefore(finished[1..], a);
      var i, j :| 0 <= i < j < |finished| - 1 && finished[1..][i] == a.0 && finished[1..][j] == a.1;
      assert finished[i + 1] == a.0 && finished[j + 1] == a.1;
    }
  }

  /** One more arc adds one entry if it leads back. */
  lemma {:induction false} BackEntriesOfMore(arcs: seq<Arc>, a: Arc, finished: seq<Id>)
    requires NoDup(finished)
    ensures BackEntries(arcs + [a], finished) == BackEntries(arcs, finished) + if IsBack(finished, a) then 1 else 0
  {
    if finished != [] {
      BackEntriesOfMore(arcs, a, finished[1..]);
      SuccessorsOfMore(arcs, a, finished[0], finished[1..]);
      if a.0 == finished[0] {
        assert a.0 !in finished[1..];
        SourceNotFinished(finished[1..], a);
      }
    }
  }

  lemma {:induction false} NoArcs(finished: seq<Id>)
    ensures BackEntries([], finished) == 0
  {
    if finished != [] { NoArcs(finished[1..]); }
  }

  lemma {:induction false} ListedIn(arcs: seq<Arc>, chosen: set<Arc>, chosen': set<Arc>)
    requires forall a :: a in arcs ==> (a in chosen <==> a in chosen')
    ensures Listed(arcs, chosen) == Listed(arcs, chosen')
  {
    if arcs != [] {
      assert arcs[|arcs| - 1] in arcs;
      ListedIn(arcs[..|arcs| - 1], chosen, chosen');
    }
  }

  /** Counting entry by entry counts the listed arcs that lead back. */
  lemma {:induction false} EntriesAreListed(arcs: seq<Arc>, finished: seq<Id>)
    requires NoDup(finished)
    ensures BackEntries(arcs, finished) == Listed(arcs, BackArcs(arcs, finished))
  {
    if arcs == [] {
      NoArcs(finished);
    } else {
      var front, a := arcs[..|arcs| - 1], arcs[|arcs| - 1];
      assert front + [a] == arcs && a in arcs;
      EntriesAreListed(front, finished);
      BackEntriesOfMore(front, a, finished);
      ListedIn(front, BackArcs(front, finished), BackArcs(arcs, finished));
    }
  }

  /** The arcs that are left without `gone`. */
  ghost function Except(arcs: seq<Arc>, gone: set<Arc>): (rest: seq<Arc>)
    ensures forall a :: a in rest <==> a in arcs && a !in gone
  {
    if arcs == [] then [] else
    var front, a := Except(arcs[..|arcs| - 1], gone), arcs[|arcs| - 1];
    assert arcs == arcs[..|arcs| - 1] + [a];
    if a in gone then front else front + [a]
  }

  lemma {:induction false} FinishedOnce(arcs: seq<Arc>, finished: seq<Id>)
    requires Finished(arcs, finished)
    ensures NoDup(finished)
  {
    if finished != [] {
      FinishedOnce(arcs, finished[1..]);
      assert forall i :: 1 <= i < |finished| ==> finished[i] == finished[1..][i - 1];
    }
  }

  lemma {:induction false} BackCloses(arcs: seq<Arc>, finished: seq<Id>, a: Arc)
    requires Finished(arcs, finished) && a in arcs && IsBack(finished, a)
    ensures ClosesCycle(arcs, a)
  {
    if finished != [] {
      if a.0 == finished[0] {
        assert (finished[0], a.1) == a;
      } else {
        BackCloses(arcs, finished[1..], a);
      }
    }
  }

  /** Without its back edges a fully searched graph has no cycle. */
  lemma {:induction false} BackEdgesBreakCycles(arcs: seq<Arc>, finished: seq<Id>)
    requires NoDup(finished) && forall a :: a in arcs ==> a.0 in finished
    ensures !HasCycle(Except(arcs, BackArcs(arcs, finished)))
  {
    var rest := Except(arcs, BackArcs(arcs, finished));
    forall a | a in rest ensures Before(finished, a.0, a.1) {
      ForwardIsBefore(finished, a);
    }
    OrderedHasNoCycle(rest, finished);
  }

  lemma {:induction false} ExceptNone(arcs: seq<Arc>, gone: set<Arc>)
    ensures Listed(arcs, gone) == 0 <==> forall a :: a in arcs ==> a !in gone
    ensures Listed(arcs, gone) == 0 ==> Except(arcs, gone) == arcs
  {
    if arcs != [] {
      var front, a := arcs[..|arcs| - 1], arcs[|arcs| - 1];
      ExceptNone(front, gone);
      assert front + [a] == arcs;
      assert forall b :: b in arcs <==> b in front || b == a;
    }
  }

  /** The search is over and `cycles` has counted its back entries. */
  lemma {:induction false} CountSettled(arcs: seq<Arc>, cycles: nat, finished: seq<Id>)
    requires Finished(arcs, finished) && (forall a :: a in arcs ==> a.0 in finished)
    requires cycles == BackEntries(arcs, finished)
    ensures var back := BackArcs(arcs, finished);
      && cycles == Listed(arcs, back) && (forall a :: a in back ==> a in arcs && ClosesCycle(arcs, a))
      && !HasCycle(Except(arcs, back)) && (cycles == 0 <==> !HasCycle(arcs))
  {
    var back := BackArcs(arcs, finished);
    FinishedOnce(arcs, finished);
    EntriesAreListed(arcs, finished);
    BackEdgesBreakCycles(arcs, finished);
    ExceptNone(arcs, back);
    forall a | a in back ensures ClosesCycle(arcs, a) {
      BackCloses(arcs, finished, a);
    }
    if cycles > 0 {
      var a :| a in arcs && a in back;
      assert ClosesCycle(arcs, a);
    }
  }

  /** Between two searches nothing is gray. */
  lemma {:induction false} ColouredIsFinished(arcs: seq<Arc>, keys: seq<Id>, color: map<Id, Color>, finished: seq<Id>,
                                              v: Id)
    requires Sound(arcs, keys, color, [], finished) && v in color
    ensures v in finished
  {
    assert Placed(keys, color, [], finished, v);
  }

  lemma {:induction false} SourcesFinished(arcs: seq<Arc>, keys: seq<Id>, finished: seq<Id>)
    requires SourcesIn(arcs, keys) && forall k :: 0 <= k < |keys| ==> keys[k] in finished
    ensures forall a :: a in arcs ==> a.0 in finished
  {
  }

  lemma {:induction false} LeadsToFinishOrder(edges: seq<Arc>, color: map<Id, Color>, finished: seq<Id>)
    requires var keys := Endpoints(edges); Leads(edges, keys, map[], [], keys[..|keys|], color, finished)
    ensures finished == FinishOrder(edges)
  {
    var keys := Endpoints(edges);
    assert keys[..|keys|] == keys && White(keys, map[]) == set v | v in keys;
  }

  /** The first `i` endpoints have been searched. */
  ghost predicate Searched(edges: seq<Arc>, keys: seq<Id>, i: nat, color: map<Id, Color>, cycles: nat,
                           finished: seq<Id>)
    requires i <= |keys|
  {
    && Sound(edges, keys, color, [], finished) && cycles == BackEntries(edges, finished)
    && (forall k :: 0 <= k < i ==> keys[k] in finished)
    && Leads(edges, keys, map[], [], keys[..i], color, finished)
  }

  lemma {:induction false} NothingSearched(edges: seq<Arc>, keys: seq<Id>)
    ensures Searched(edges, keys, 0, map[], 0, [])
  {
    LeadsNowhere(edges, keys, map[], []);
    assert keys[..0] == [];
  }

  /** One turn of the outer loop: a white vertex is searched. */
  method SearchNext(ghost edges: seq<Arc>, keys: seq<Id>, graph: map<Id, seq<Id>>, i: nat,
                    color0: map<Id, Color>, cycles0: nat, ghost finished0: seq<Id>)
    returns (color: map<Id, Color>, cycles: nat, ghost finished: seq<Id>)
    requires Adjacency(edges, keys, graph) && i < |keys| && Searched(edges, keys, i, color0, cycles0, finished0)
    ensures Searched(edges, keys, i + 1, color, cycles, finished)
  {
    color, cycles, finished := color0, cycles0, finished0;
    if keys[i] !in color {
      color, cycles, finished := Dfs(edges, keys, graph, keys[i], color, cycles, [], finished);
    } else {
      ColouredIsFinished(edges, keys, color, finished, keys[i]);
      LeadsNowhere(edges, keys, color, finished);
    }
    LeadsOn(edges, keys, map[], [], keys, i, color0, finished0, color, finished);
  }

  lemma {:induction false} SearchSettled(edges: seq<Arc>, color: map<Id, Color>, cycles: nat, finished: seq<Id>)
    requires var keys := Endpoints(edges);
      SourcesIn(edges, keys) && Searched(edges, keys, |keys|, color, cycles, finished)
    ensures var back := BackArcs(edges, finished);
      && finished == FinishOrder(edges)
      && cycles == Listed(edges, back) && (forall a :: a in back ==> a in edges && ClosesCycle(edges, a))
      && !HasCycle(Except(edges, back)) && (cycles == 0 <==> !HasCycle(edges))
  {
    SourcesFinished(edges, Endpoints(edges), finished);
    LeadsToFinishOrder(edges, color, finished);
    CountSettled(edges, cycles, finished);
  }

  /** The number of listed edges, repeated ones included, that are among the back edges of the search from the endpoints
      in order: each of these closes a cycle, and without them the graph has none.  So it is zero exactly on acyclic
      graphs, self-loops included. */
  method DetectCycles(edges: seq<Arc>) returns (cycles: nat, ghost back: set<Arc>)
    ensures cycles == 0 <==> !HasCycle(edges)
    ensures cycles == Listed(edges, back) && forall a :: a in back ==> a in edges && ClosesCycle(edges, a)
    ensures !HasCycle(Except(edges, back))
    ensures back == BackArcs(edges, FinishOrder(edges))
  {
    var keys, graph := BuildGraph(edges);
    var color: map<Id, Color> := map[];
    ghost var finished: seq<Id> := [];
    cycles := 0;
    NothingSearched(edges, keys);
    for i := 0 to |keys|
      invariant Searched(edges, keys, i, color, cycles, finished)
    {
      color, cycles, finished := SearchNext(edges, keys, graph, i, color, cycles, finished);
    }
    SearchSettled(edges, color, cycles, finished);
    back := BackArcs(edges, finished);
  }

  /** On a plan with distinct ids and listed dependencies the two detectors give one verdict. */
  method DetectorsAgree(nodes: seq<TopologicalSort.TaskNode>)
    returns (cycles: nat, sorted: Result<seq<TopologicalSort.TaskNode>, string>)
    requires NoDup(TopologicalSort.Ids(nodes)) && StrictSort.DependenciesListed(nodes)
    ensures cycles == 0 <==> sorted.Ok?
    ensures sorted.Ok? <==> !HasCycle(TopologicalSort.Arcs(nodes))
  {
    ghost var back;
    cycles, back := DetectCycles(TopologicalSort.Arcs(nodes));
    sorted := StrictSort.Sort(nodes);
  }
}
