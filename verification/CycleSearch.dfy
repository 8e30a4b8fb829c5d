/** `DependencyGraph.cycles`: Tarjan's search with an explicit stack of iterators. */
module CycleSearch {
  import opened Reachability
  import opened StepGraph
  import opened Components
  import opened Cycles

  /** A step being explored, with what its iterator of edges still holds. */
  datatype Frame = Frame(node: Id, edges: seq<Id>)

  type Work = seq<Frame>

  // --- how the collections of the loop stand for a search ------------------------------------------

  ghost predicate StackOf(s: Search, stack: seq<Id>) {
    && (forall v :: v in s.onStack <==> v in stack)
    && (forall i :: 0 <= i < |stack| ==> stack[i] in s.index)
    && (forall i, j :: 0 <= i < j < |stack| ==> s.index[stack[i]] < s.index[stack[j]])
  }

  ghost predicate OnWork(work: Work, v: Id) {
    exists i :: 0 <= i < |work| && work[i].node == v
  }

  ghost predicate WorkOf(a: Graph, s: Search, work: Work) {
    && (forall i :: 0 <= i < |work| ==>
          && work[i].node in s.gray && work[i].node in s.index && work[i].node in s.pending && work[i].node in a
          && s.pending[work[i].node] == Members(work[i].edges) && Members(work[i].edges) <= a[work[i].node])
    && (forall i, j :: 0 <= i < j < |work| ==> s.index[work[i].node] < s.index[work[j].node])
    && (forall v {:trigger OnWork(work, v)} :: v in s.gray ==> OnWork(work, v))
  }

  /** What is left of an iterator once it has passed the edges to vertices visited and off the stack. */
  function Open(edges: seq<Id>, index: map<Id, nat>, onStack: set<Id>): (rest: seq<Id>)
    ensures |rest| <= |edges|
    ensures forall x :: x in rest ==> x in edges
    ensures forall x :: x in edges && x !in rest ==> x in index && x !in onStack
    ensures rest != [] ==> rest[0] !in index || rest[0] in onStack
  {
    if edges != [] && edges[0] in index && edges[0] !in onStack then
      assert edges == [edges[0]] + edges[1..];
      Open(edges[1..], index, onStack)
    else edges
  }

  lemma TopOfWork(a: Graph, s: Search, work: Work)
    requires Inv(a, s) && WorkOf(a, s, work) && work != []
    ensures IsTop(s, work[|work| - 1].node)
  {
    forall u {:trigger u in s.gray} | u in s.gray
      ensures s.index[u] <= s.index[work[|work| - 1].node]
    {
      assert OnWork(work, u);
      var i :| 0 <= i < |work| && work[i].node == u;
      assert i < |work| - 1 ==> s.index[work[i].node] < s.index[work[|work| - 1].node];
    }
  }

  lemma BelowTop(a: Graph, s: Search, work: Work)
    requires Inv(a, s) && WorkOf(a, s, work) && work != []
    ensures WorkOf(a, s.(gray := s.gray - {work[|work| - 1].node}), work[..|work| - 1])
  {
    var k := |work| - 1;
    var v := work[k].node;
    var t := s.(gray := s.gray - {v});
    forall i | 0 <= i < k
      ensures work[i].node in t.gray
    {
      assert s.index[work[i].node] < s.index[v];
    }
    forall u {:trigger OnWork(work[..k], u)} | u in t.gray
      ensures OnWork(work[..k], u)
    {
      assert OnWork(work, u);
      var i :| 0 <= i < |work| && work[i].node == u;
      assert work[..k][i].node == u;
    }
  }

  // --- one turn of the loop ------------------------------------------------------------------------

  ghost predicate Turn(a: Graph, s: Search, work: Work, rest: seq<Id>) {
    && Inv(a, s) && WorkOf(a, s, work) && work != []
    && Members(rest) <= Members(work[|work| - 1].edges)
    && (forall x :: x in Members(work[|work| - 1].edges) - Members(rest) ==> x in s.index && x !in s.onStack)
  }

  lemma TakeEdges(a: Graph, s: Search, work: Work, rest: seq<Id>) returns (t: Search)
    requires Inv(a, s) && WorkOf(a, s, work) && work != []
    requires Members(rest) <= Members(work[|work| - 1].edges)
    requires forall x :: x in Members(work[|work| - 1].edges) - Members(rest) ==>
               x in s.index && (x in s.onStack ==> s.low[work[|work| - 1].node] <= s.index[x])
    ensures Inv(a, t) && WorkOf(a, t, work[|work| - 1 := Frame(work[|work| - 1].node, rest)])
    ensures t == s.(pending := t.pending)
  {
    hide Explored, Spine, Anchored, LowSound, LowComplete;
    var k := |work| - 1;
    var v := work[k].node;
    t := s.(pending := s.pending[v := Members(rest)]);
    var after := work[k := Frame(v, rest)];
    Advance(a, s, v, Members(rest));
    assert forall i :: 0 <= i < k ==> s.index[work[i].node] < s.index[work[k].node];
    forall u {:trigger OnWork(after, u)} | u in t.gray
      ensures OnWork(after, u)
    {
      assert OnWork(work, u);
      var i :| 0 <= i < |work| && work[i].node == u;
      assert after[i].node == u;
    }
  }

  lemma BackEdge(a: Graph, s: Search, work: Work, rest: seq<Id>) returns (t: Search)
    requires Turn(a, s, work, rest) && rest != [] && rest[0] in s.onStack
    ensures Inv(a, t) && WorkOf(a, t, work[|work| - 1 := Frame(work[|work| - 1].node, rest[1..])])
    ensures t == Lowered(s, work[|work| - 1].node, s.index[rest[0]]).(pending := t.pending)
  {
    hide Explored, Spine, Anchored, LowSound, LowComplete;
    var v, x := work[|work| - 1].node, rest[0];
    assert x in Members(rest) && Edge(a, v, x);
    ReachesEdge(a, v, x);
    Lower(a, s, v, x, s.index[x]);
    t := Lowered(s, v, s.index[x]);
    assert WorkOf(a, t, work);
    assert forall y :: y in Members(rest) ==> y == x || y in Members(rest[1..]);
    t := TakeEdges(a, t, work, rest[1..]);
  }

  /** The step is entered with its own iterator, then taken from the one that led to it. */
  lemma TreeEdge(a: Graph, s: Search, work: Work, rest: seq<Id>, edges: seq<Id>) returns (t: Search)
    requires Turn(a, s, work, rest) && rest != [] && rest[0] !in s.index && rest[0] in a && Members(edges) == a[rest[0]]
    ensures Inv(a, t)
    ensures WorkOf(a, t, work[|work| - 1 := Frame(work[|work| - 1].node, rest[1..])] + [Frame(rest[0], edges)])
    ensures t == Entered(a, s, rest[0]).(pending := t.pending)
  {
    hide Explored, Spine, Anchored, LowSound, LowComplete;
    var k := |work| - 1;
    var v, x := work[k].node, rest[0];
    assert x in Members(rest) && Edge(a, v, x);
    var s1 := TakeEdges(a, s, work, rest);
    var work1 := work[k := Frame(v, rest)];
    TopOfWork(a, s1, work1);
    assert work1[k].node == v;
    Enter(a, s1, x);
    var s2 := Entered(a, s1, x);
    var work2 := work1 + [Frame(x, edges)];
    EnteredWork(a, s1, work1, x, edges);
    var z := LowAtMostIndex(a, s1, v);
    t := TakeBelow(a, s2, work2, k, rest);
    assert work2[k := Frame(v, rest[1..])] == work[k := Frame(v, rest[1..])] + [Frame(x, edges)];
  }

  lemma EnteredWork(a: Graph, s: Search, work: Work, x: Id, edges: seq<Id>)
    requires Inv(a, s) && WorkOf(a, s, work) && x in a && x !in s.index && Members(edges) == a[x]
    ensures WorkOf(a, Entered(a, s, x), work + [Frame(x, edges)])
  {
    var t := Entered(a, s, x);
    var after := work + [Frame(x, edges)];
    forall i, j | 0 <= i < j < |after|
      ensures t.index[after[i].node] < t.index[after[j].node]
    {
      assert after[i] == work[i] && work[i].node in s.index;
      assert s.index[work[i].node] < s.next;
      assert if j < |work| then after[j] == work[j] else after[j].node == x;
    }
    forall u {:trigger OnWork(after, u)} | u in t.gray
      ensures OnWork(after, u)
    {
      if u == x {
        assert after[|work|].node == x;
      } else {
        assert OnWork(work, u);
        var i :| 0 <= i < |work| && work[i].node == u;
        assert after[i].node == u;
      }
    }
  }

  /** The first edge of an iterator further down is taken once it leads to a later vertex. */
  lemma TakeBelow(a: Graph, s: Search, work: Work, k: nat, rest: seq<Id>) returns (t: Search)
    requires Inv(a, s) && WorkOf(a, s, work) && k < |work| && rest != [] && work[k].edges == rest
    requires rest[0] in s.index && s.low[work[k].node] <= s.index[rest[0]]
    ensures Inv(a, t) && WorkOf(a, t, work[k := Frame(work[k].node, rest[1..])])
    ensures t == s.(pending := t.pending)
  {
    hide Explored, Spine, Anchored, LowSound, LowComplete;
    var v := work[k].node;
    var left := Members(rest[1..]);
    t := s.(pending := s.pending[v := left]);
    assert forall y :: y in Members(rest) - left ==> y == rest[0];
    Advance(a, s, v, left);
    var after := work[k := Frame(v, rest[1..])];
    assert forall i :: 0 <= i < |work| && i != k ==> s.index[work[i].node] != s.index[v];
    forall u {:trigger OnWork(after, u)} | u in t.gray
      ensures OnWork(after, u)
    {
      assert OnWork(work, u);
      var i :| 0 <= i < |work| && work[i].node == u;
      assert after[i].node == u;
    }
  }

  // --- the end of an iterator ----------------------------------------------------------------------

  /** The low number as the parent takes it over. */
  function Handed(low: map<Id, nat>, work: Work, v: Id): (r: map<Id, nat>)
    requires v in low && (work != [] ==> work[|work| - 1].node in low)
    ensures r.Keys == low.Keys
  {
    if work == [] then low
    else
      var parent := work[|work| - 1].node;
      low[parent := if low[v] < low[parent] then low[v] else low[parent]]
  }

  lemma HandOver(a: Graph, s: Search, work: Work) returns (t: Search)
    requires Turn(a, s, work, [])
    ensures Exhausted(a, t, work[|work| - 1].node) && WorkOf(a, t, work[|work| - 1 := Frame(work[|work| - 1].node, [])])
    ensures work[|work| - 1].node in s.low && (|work| > 1 ==> work[|work| - 2].node in s.low)
    ensures t == s.(pending := t.pending, low := Handed(s.low, work[..|work| - 1], work[|work| - 1].node))
  {
    hide Explored, Spine, Anchored, LowSound, LowComplete;
    var k := |work| - 1;
    t := TakeEdges(a, s, work, []);
    var after := work[k := Frame(work[k].node, [])];
    TopOfWork(a, t, after);
    if k > 0 {
      assert after[k - 1] == work[k - 1];
      t := LowerParent(a, t, after);
    }
  }

  lemma LowerParent(a: Graph, s: Search, work: Work) returns (t: Search)
    requires Inv(a, s) && WorkOf(a, s, work) && |work| > 1
    ensures work[|work| - 1].node in s.low && work[|work| - 2].node in s.low
    ensures t == Lowered(s, work[|work| - 2].node, s.low[work[|work| - 1].node])
    ensures Inv(a, t) && WorkOf(a, t, work)
  {
    var k := |work| - 1;
    var v, parent := work[k].node, work[k - 1].node;
    assert s.index[parent] < s.index[v];
    var z := LowAtMostIndex(a, s, v);
    ReachesTransitive(a, parent, v, z);
    Lower(a, s, parent, z, s.low[v]);
    t := Lowered(s, parent, s.low[v]);
  }

  lemma OneMore(m: map<Id, nat>, k: Id, n: nat)
    requires k !in m
    ensures |m[k := n]| == |m| + 1
  {
    assert m[k := n].Keys == m.Keys + {k};
  }

  // --- the stack -----------------------------------------------------------------------------------

  lemma EnterStack(a: Graph, s: Search, stack: seq<Id>, x: Id)
    requires Shape(a, s) && StackOf(s, stack) && x in a && x !in s.index
    ensures StackOf(Entered(a, s, x), stack + [x])
  {
    var after := stack + [x];
    forall i, j | 0 <= i < j < |after|
      ensures Entered(a, s, x).index[after[i]] < Entered(a, s, x).index[after[j]]
    {
      assert after[i] == stack[i] && stack[i] in s.index;
    }
  }

  /** Where a vertex stands on the stack: everything from there up is its segment. */
  lemma StackPosition(a: Graph, s: Search, stack: seq<Id>, v: Id) returns (n: nat)
    requires Shape(a, s) && StackOf(s, stack) && v in s.onStack
    ensures n < |stack| && stack[n] == v && Segment(s, v) == Members(stack[n..])
    ensures StackOf(Retired(s, v), stack[..n])
  {
    n :| 0 <= n < |stack| && stack[n] == v;
    forall x
      ensures x in Segment(s, v) <==> x in stack[n..]
      ensures x in s.onStack - Segment(s, v) <==> x in stack[..n]
    {
      if x in stack {
        var i :| 0 <= i < |stack| && stack[i] == x;
        if i < n {
          assert s.index[stack[i]] < s.index[stack[n]];
          assert stack[..n][i] == x;
        } else {
          assert i > n ==> s.index[stack[i]] > s.index[stack[n]];
          assert stack[n..][i - n] == x;
        }
      }
    }
  }

  /** The group popped off a stack down to a vertex: the members of its segment, last entered first. */
  method PopDownTo(stack: seq<Id>, node: Id, ghost n: nat) returns (group: seq<Id>, left: seq<Id>)
    requires n < |stack| && stack[n] == node && node !in stack[n + 1..]
    ensures left == stack[..n] && Members(group) == Members(stack[n..]) && |group| == |stack| - n
  {
    group, left := [], stack;
    while group == [] || group[|group| - 1] != node
      invariant |left| + |group| == |stack| && |left| >= n
      invariant left == stack[..|left|]
      invariant forall i :: 0 <= i < |group| ==> group[i] == stack[|stack| - 1 - i]
      invariant |left| == n <==> group != [] && group[|group| - 1] == node
      decreases |left|
    {
      group, left := group + [left[|left| - 1]], left[..|left| - 1];
      assert |left| > n ==> stack[|left|] == stack[n + 1..][|left| - n - 1];
    }
    forall x
      ensures x in group <==> x in stack[n..]
    {
      if x in stack[n..] {
        var i :| 0 <= i < |stack| - n && stack[n..][i] == x;
        assert group[|stack| - n - 1 - i] == x;
      }
    }
  }

  // --- the search ----------------------------------------------------------------------------------

  /** The collections of the loop stand for the search `s`. */
  ghost predicate Running(a: Graph, s: Search, index: map<Id, nat>, low: map<Id, nat>, stack: seq<Id>,
                          onStack: set<Id>, work: Work) {
    && s.index == index && s.low == low && s.onStack == onStack && |index| == s.next
    && Inv(a, s) && WorkOf(a, s, work) && StackOf(s, stack)
  }

  ghost predicate Sound(a: Graph, index: map<Id, nat>, low: map<Id, nat>, stack: seq<Id>, onStack: set<Id>,
      work: Work) {
    exists s :: Running(a, s, index, low, stack, onStack, work)
  }

  ghost predicate Passed(work: Work, rest: seq<Id>, index: map<Id, nat>, onStack: set<Id>) {
    && work != [] && |rest| <= |work[|work| - 1].edges| && Members(rest) <= Members(work[|work| - 1].edges)
    && (forall x :: x in Members(work[|work| - 1].edges) - Members(rest) ==> x in index && x !in onStack)
  }

  function TakeFirst(work: Work, rest: seq<Id>): Work
    requires work != [] && rest != []
  {
    work[|work| - 1 := Frame(work[|work| - 1].node, rest[1..])]
  }

  function Smaller(low: map<Id, nat>, v: Id, n: nat): map<Id, nat>
    requires v in low
  {
    low[v := if n < low[v] then n else low[v]]
  }

  lemma BackTurn(a: Graph, index: map<Id, nat>, low: map<Id, nat>, stack: seq<Id>, onStack: set<Id>,
                 work: Work, rest: seq<Id>)
    requires Sound(a, index, low, stack, onStack, work)
    requires Passed(work, rest, index, onStack) && rest != [] && rest[0] in onStack
    ensures rest[0] in index && work[|work| - 1].node in low
    ensures Sound(a, index, Smaller(low, work[|work| - 1].node, index[rest[0]]), stack, onStack, TakeFirst(work, rest))
  {
    hide Explored, Spine, Anchored, LowSound, LowComplete;
    var s :| Running(a, s, index, low, stack, onStack, work);
    var t := BackEdge(a, s, work, rest);
    assert Running(a, t, index, Smaller(low, work[|work| - 1].node, index[rest[0]]), stack, onStack,
        TakeFirst(work, rest));
  }

  lemma TreeTurn(a: Graph, index: map<Id, nat>, low: map<Id, nat>, stack: seq<Id>, onStack: set<Id>,
                 work: Work, rest: seq<Id>, edges: seq<Id>)
    requires Sound(a, index, low, stack, onStack, work)
    requires Passed(work, rest, index, onStack) && rest != []
    requires rest[0] !in index && rest[0] in a && Members(edges) == a[rest[0]]
    ensures Sound(a, index[rest[0] := |index|], low[rest[0] := |index|], stack + [rest[0]], onStack + {rest[0]},
              TakeFirst(work, rest) + [Frame(rest[0], edges)])
  {
    hide Explored, Spine, Anchored, LowSound, LowComplete;
    var s :| Running(a, s, index, low, stack, onStack, work);
    EnterStack(a, s, stack, rest[0]);
    OneMore(index, rest[0], |index|);
    var t := TreeEdge(a, s, work, rest, edges);
    assert Running(a, t, index[rest[0] := |index|], low[rest[0] := |index|], stack + [rest[0]], onStack + {rest[0]},
        TakeFirst(work, rest) + [Frame(rest[0], edges)]);
  }

  lemma RootTurn(a: Graph, index: map<Id, nat>, low: map<Id, nat>, stack: seq<Id>, onStack: set<Id>,
                 root: Id, edges: seq<Id>)
    requires Sound(a, index, low, stack, onStack, [])
    requires root !in index && root in a && Members(edges) == a[root]
    ensures Sound(a, index[root := |index|], low[root := |index|], stack + [root], onStack + {root},
            [Frame(root, edges)])
  {
    hide Explored, Spine, Anchored, LowSound, LowComplete;
    var s :| Running(a, s, index, low, stack, onStack, []);
    EnterStack(a, s, stack, root);
    OneMore(index, root, |index|);
    NothingOnStack(a, s);
    Enter(a, s, root);
    EnteredWork(a, s, [], root, edges);
    var t := Entered(a, s, root);
    assert [] + [Frame(root, edges)] == [Frame(root, edges)];
    assert Running(a, t, index[root := |index|], low[root := |index|], stack + [root], onStack + {root},
        [Frame(root, edges)]);
  }

  lemma NothingOnStack(a: Graph, s: Search)
    requires Inv(a, s) && WorkOf(a, s, [])
    ensures s.gray == {} && s.onStack == {}
  {
    if s.gray != {} {
      var v := AnyOf(s.gray);
      var i := FrameOf(a, s, [], v);
      assert false;
    }
    if s.onStack != {} {
      var v := AnyOf(s.onStack);
      var w := AnchorOf(a, s, v);
      assert false;
    }
  }

  lemma FrameOf(a: Graph, s: Search, work: Work, v: Id) returns (i: nat)
    requires WorkOf(a, s, work) && v in s.gray
    ensures i < |work| && work[i].node == v
  {
    assert OnWork(work, v);
    i :| 0 <= i < |work| && work[i].node == v;
  }

  lemma AnchorOf(a: Graph, s: Search, y: Id) returns (w: Id)
    requires Inv(a, s) && y in s.onStack
    ensures w in s.gray
  {
    assert HasAnchor(a, s, y);
    w :| AnchoredAt(a, s, y, w);
  }

  /** The first vertex entered never stays on the stack. */
  lemma FirstRetires(a: Graph, s: Search, work: Work)
    requires Inv(a, s) && WorkOf(a, s, work) && |work| == 1
    ensures work[0].node in s.gray && s.low[work[0].node] == s.index[work[0].node]
  {
    var v := work[0].node;
    var z := LowAtMostIndex(a, s, v);
    if s.low[v] < s.index[v] {
      var m := LeftHasAnchor(a, s, v);
      var i := FrameOf(a, s, work, m);
      assert false;
    }
  }

  lemma RetreatKeeps(a: Graph, s: Search, work: Work)
    requires |work| > 1 && Exhausted(a, s, work[|work| - 1].node) && WorkOf(a, s, work)
    requires s.low[work[|work| - 1].node] < s.index[work[|work| - 1].node]
    requires s.low[work[|work| - 2].node] <= s.low[work[|work| - 1].node]
    ensures Inv(a, s.(gray := s.gray - {work[|work| - 1].node}))
    ensures WorkOf(a, s.(gray := s.gray - {work[|work| - 1].node}), work[..|work| - 1])
  {
    BelowTop(a, s, work);
    BelowIsTop(a, s, work);
    Retreat(a, s, work[|work| - 1].node, work[|work| - 2].node);
  }

  lemma RetreatTurn(a: Graph, index: map<Id, nat>, low: map<Id, nat>, stack: seq<Id>, onStack: set<Id>,
                    work: Work)
    requires Sound(a, index, low, stack, onStack, work) && Passed(work, [], index, onStack)
    requires work[|work| - 1].node in low && work[|work| - 1].node in index
    requires |work| > 1 ==> work[|work| - 2].node in low
    requires low[work[|work| - 1].node] != index[work[|work| - 1].node]
    ensures Sound(a, index, Handed(low, work[..|work| - 1], work[|work| - 1].node), stack, onStack, work[..|work| - 1])
  {
    var s :| Running(a, s, index, low, stack, onStack, work);
    var z := LowAtMostIndex(a, s, work[|work| - 1].node);
    if |work| == 1 {
      FirstRetires(a, s, work);
      assert false;
    } else {
      var k := |work| - 1;
      var v := work[k].node;
      var u := HandOver(a, s, work);
      var after := work[k := Frame(v, [])];
      assert after[..k] == work[..k] && after[k - 1] == work[k - 1];
      RetreatKeeps(a, u, after);
      var t := u.(gray := u.gray - {v});
      assert Running(a, t, index, Handed(low, work[..k], v), stack, onStack, work[..k]);
    }
  }

  lemma BelowIsTop(a: Graph, s: Search, work: Work)
    requires Inv(a, s) && WorkOf(a, s, work) && |work| > 1
    ensures IsTop(s.(gray := s.gray - {work[|work| - 1].node}), work[|work| - 2].node)
  {
    var k := |work| - 1;
    BelowTop(a, s, work);
    var t := s.(gray := s.gray - {work[k].node});
    forall u {:trigger u in t.gray} | u in t.gray
      ensures t.index[u] <= t.index[work[k - 1].node]
    {
      assert OnWork(work[..k], u);
      var i :| 0 <= i < k && work[..k][i].node == u;
      assert i < k - 1 ==> s.index[work[i].node] < s.index[work[k - 1].node];
    }
  }

  lemma RetireTurn(a: Graph, index: map<Id, nat>, low: map<Id, nat>, stack: seq<Id>, onStack: set<Id>,
                   work: Work) returns (n: nat)
    requires Sound(a, index, low, stack, onStack, work) && Passed(work, [], index, onStack)
    requires work[|work| - 1].node in low && work[|work| - 1].node in index
    requires |work| > 1 ==> work[|work| - 2].node in low
    requires low[work[|work| - 1].node] == index[work[|work| - 1].node]
    ensures n < |stack| && stack[n] == work[|work| - 1].node && stack[n] !in stack[n + 1..]
    ensures Sound(a, index, Handed(low, work[..|work| - 1], work[|work| - 1].node), stack[..n],
              onStack - Members(stack[n..]), work[..|work| - 1])
    ensures IsComponent(a, Members(stack[n..])) && Members(stack[n..]) <= onStack <= index.Keys <= a.Keys
  {
    hide Explored, Spine, Anchored, LowSound, LowComplete;
    var s :| Running(a, s, index, low, stack, onStack, work);
    var k := |work| - 1;
    var v := work[k].node;
    var u := HandOver(a, s, work);
    var after := work[k := Frame(v, [])];
    assert after[..k] == work[..k];
    BelowTop(a, u, after);
    n := StackPosition(a, u, stack, v);
    SegmentIsComponent(a, u, v);
    Retire(a, u, v);
    var t := Retired(u, v);
    RetiredWork(a, u, after);
    assert Running(a, t, index, Handed(low, work[..k], v), stack[..n], onStack - Members(stack[n..]), work[..k]);
  }

  lemma RetiredWork(a: Graph, s: Search, work: Work)
    requires Inv(a, s) && WorkOf(a, s, work) && work != []
    ensures WorkOf(a, Retired(s, work[|work| - 1].node), work[..|work| - 1])
  {
    BelowTop(a, s, work);
  }

  // --- the search ----------------------------------------------------------------------------------

  /** The vertices already assigned to a component: visited and off the stack. */
  ghost function Assigned(index: map<Id, nat>, onStack: set<Id>): set<Id> {
    index.Keys - onStack
  }

  lemma EnterAssigns(index: map<Id, nat>, onStack: set<Id>, x: Id, n: nat)
    requires x !in index
    ensures Assigned(index[x := n], onStack + {x}) == Assigned(index, onStack)
  {
  }

  lemma RetireAssigns(index: map<Id, nat>, onStack: set<Id>, c: set<Id>)
    requires c <= onStack <= index.Keys
    ensures Assigned(index, onStack - c) == Assigned(index, onStack) + c
    ensures c !! Assigned(index, onStack)
  {
  }

  ghost function ToVisit(g: Steps, index: map<Id, nat>): nat {
    |g.Keys - index.Keys|
  }

  ghost function LastEdges(work: Work): nat {
    if work == [] then 0 else |work[|work| - 1].edges|
  }

  lemma VisitOne(g: Steps, index: map<Id, nat>, x: Id, n: nat)
    requires x in g && x !in index
    ensures ToVisit(g, index[x := n]) < ToVisit(g, index)
  {
    assert g.Keys - index[x := n].Keys == g.Keys - index.Keys - {x};
  }

  ghost predicate Adjacent(g: Steps, a: Graph) {
    a.Keys == g.Keys && forall u :: u in g ==> a[u] == Known(g, u)
  }

  lemma FirstIsKnown(g: Steps, a: Graph, index: map<Id, nat>, onStack: set<Id>, work: Work, rest: seq<Id>)
    requires Adjacent(g, a) && Passed(work, rest, index, onStack) && rest != []
    requires work[|work| - 1].node in a && Members(work[|work| - 1].edges) <= a[work[|work| - 1].node]
    ensures rest[0] in g
  {
    assert rest[0] in Members(rest);
    assert rest[0] in Known(g, work[|work| - 1].node);
  }

  lemma OpenPasses(work: Work, index: map<Id, nat>, onStack: set<Id>)
    requires work != []
    ensures Passed(work, Open(work[|work| - 1].edges, index, onStack), index, onStack)
  {
  }

  /** The known steps a step waits for, by key. */
  method EdgesOf(g: Steps, ghost a: Graph, u: Id) returns (edges: seq<Id>)
    requires UniqueKeys(g) && Adjacent(g, a) && u in g
    ensures u in a && Members(edges) == a[u] && Ascending(g, edges)
  {
    edges := InKeyOrder(g, Known(g, u));
  }

  /** An edge to a step on the stack lowers the low number; one to a new step enters it. */
  method Follow(g: Steps, ghost a: Graph, index: map<Id, nat>, low: map<Id, nat>, stack: seq<Id>, onStack: set<Id>,
                work: Work, rest: seq<Id>)
    returns (index': map<Id, nat>, low': map<Id, nat>, stack': seq<Id>, onStack': set<Id>, work': Work)
    requires UniqueKeys(g) && Adjacent(g, a) && Sound(a, index, low, stack, onStack, work)
    requires Passed(work, rest, index, onStack) && rest != [] && (rest[0] !in index || rest[0] in onStack)
    requires rest[0] in g && work[|work| - 1].node in low
    ensures Sound(a, index', low', stack', onStack', work')
    ensures Assigned(index', onStack') == Assigned(index, onStack)
    ensures (index' == index && |work'| == |work| && LastEdges(work') < LastEdges(work))
            || ToVisit(g, index') < ToVisit(g, index)
    ensures forall v :: v in index ==> v in index'
  {
    var next := rest[0];
    if next in index {
      BackTurn(a, index, low, stack, onStack, work, rest);
      index', stack', onStack' := index, stack, onStack;
      low' := Smaller(low, work[|work| - 1].node, index[next]);
      work' := TakeFirst(work, rest);
    } else {
      var edges := EdgesOf(g, a, next);
      TreeTurn(a, index, low, stack, onStack, work, rest, edges);
      EnterAssigns(index, onStack, next, |index|);
      VisitOne(g, index, next, |index|);
      index', low' := index[next := |index|], low[next := |index|];
      stack', onStack' := stack + [next], onStack + {next};
      work' := TakeFirst(work, rest) + [Frame(next, edges)];
    }
  }

  lemma WorkInRange(a: Graph, index: map<Id, nat>, low: map<Id, nat>, stack: seq<Id>, onStack: set<Id>, work: Work)
    requires Sound(a, index, low, stack, onStack, work)
    ensures index.Keys == low.Keys && onStack <= index.Keys <= a.Keys
    ensures forall i :: 0 <= i < |work| ==>
            work[i].node in onStack && work[i].node in a && Members(work[i].edges) <= a[work[i].node]
  {
    var s :| Running(a, s, index, low, stack, onStack, work);
  }

  /**
   * A step with no edge left hands its low number to its parent; one whose low number is its own takes its
   * group off the stack.
   */
  method Leave(g: Steps, ghost a: Graph, index: map<Id, nat>, low: map<Id, nat>, stack: seq<Id>, onStack: set<Id>,
               groups: seq<seq<Id>>, work: Work)
    returns (low': map<Id, nat>, stack': seq<Id>, onStack': set<Id>, groups': seq<seq<Id>>)
    requires UniqueKeys(g) && Adjacent(g, a) && Sound(a, index, low, stack, onStack, work)
    requires Passed(work, [], index, onStack) && Found(g, a, Assigned(index, onStack), groups)
    requires index.Keys == low.Keys && onStack <= index.Keys
    requires work[|work| - 1].node in onStack && (|work| > 1 ==> work[|work| - 2].node in onStack)
    ensures Sound(a, index, low', stack', onStack', work[..|work| - 1])
    ensures Found(g, a, Assigned(index, onStack'), groups')
  {
    var node := work[|work| - 1].node;
    low' := Handed(low, work[..|work| - 1], node);
    if low[node] != index[node] {
      RetreatTurn(a, index, low, stack, onStack, work);
      stack', onStack', groups' := stack, onStack, groups;
    } else {
      ghost var n := RetireTurn(a, index, low, stack, onStack, work);
      var group;
      group, stack' := PopDownTo(stack, node, n);
      assert node in Members(group);
      RetireAssigns(index, onStack, Members(group));
      FindGroup(g, a, Assigned(index, onStack), groups, Members(group));
      onStack' := onStack - Members(group);
      groups' := WithGroup(g, groups, Members(group));
    }
  }

  /** The inner loop: from an empty stack to an empty one, everything `root` waits for explored. */
  method Explore(g: Steps, ghost a: Graph, root: Id, index: map<Id, nat>, low: map<Id, nat>,
                 stack: seq<Id>, onStack: set<Id>, groups: seq<seq<Id>>)
    returns (index': map<Id, nat>, low': map<Id, nat>, stack': seq<Id>, onStack': set<Id>, groups': seq<seq<Id>>)
    requires UniqueKeys(g) && Adjacent(g, a) && Sound(a, index, low, stack, onStack, [])
    requires Found(g, a, Assigned(index, onStack), groups) && root in g && root !in index
    ensures Sound(a, index', low', stack', onStack', [])
    ensures Found(g, a, Assigned(index', onStack'), groups')
    ensures root in index' && forall v :: v in index ==> v in index'
  {
    hide *;
    var edges := EdgesOf(g, a, root);
    RootTurn(a, index, low, stack, onStack, root, edges);
    EnterAssigns(index, onStack, root, |index|);
    index', low', stack', onStack' := index[root := |index|], low[root := |index|], stack + [root], onStack + {root};
    groups' := groups;
    var work: Work := [Frame(root, edges)];
    while work != []
      invariant Sound(a, index', low', stack', onStack', work)
      invariant Found(g, a, Assigned(index', onStack'), groups')
      invariant root in index' && forall v :: v in index ==> v in index'
      decreases ToVisit(g, index'), |work|, LastEdges(work)
    {
      WorkInRange(a, index', low', stack', onStack', work);
      var rest := Open(work[|work| - 1].edges, index', onStack');
      OpenPasses(work, index', onStack');
      if rest != [] {
        FirstIsKnown(g, a, index', onStack', work, rest);
        index', low', stack', onStack', work :=
          Follow(g, a, index', low', stack', onStack', work, rest);
      } else {
        low', stack', onStack', groups' := Leave(g, a, index', low', stack', onStack', groups', work);
        work := work[..|work| - 1];
      }
    }
  }

  lemma Start(g: Steps, a: Graph)
    requires Adjacent(g, a)
    ensures Sound(a, map[], map[], [], {}, []) && Found(g, a, Assigned(map[], {}), [])
  {
    assert Running(a, Search(0, map[], map[], {}, {}, map[]), map[], map[], [], {}, []);
  }

  lemma AdjacentWaits(g: Steps)
    ensures Adjacent(g, Waits(g)) && Waits(g).Keys == g.Keys
  {
  }

  lemma AllAssigned(a: Graph, index: map<Id, nat>, low: map<Id, nat>, stack: seq<Id>, onStack: set<Id>)
    requires Sound(a, index, low, stack, onStack, []) && forall v :: v in a ==> v in index
    ensures Assigned(index, onStack) == a.Keys
  {
    hide StackOf, WorkOf, Explored, Spine, LowSound, LowComplete;
    var s :| Running(a, s, index, low, stack, onStack, []);
    NothingOnStack(a, s);
    SubsetOf(a.Keys, index.Keys);
  }

  /** Every group of steps that wait for each other, each by key, in key order. */
  method FindCycles(g: Steps) returns (cycles: seq<seq<Id>>)
    requires UniqueKeys(g)
    ensures AreCycles(g, Waits(g), cycles)
  {
    hide *;
    var index: map<Id, nat>, low: map<Id, nat> := map[], map[];
    var stack: seq<Id>, onStack: set<Id> := [], {};
    var groups: seq<seq<Id>> := [];
    ghost var a := Waits(g);
    AdjacentWaits(g);
    Start(g, a);
    var roots := InKeyOrder(g, g.Keys);
    for r := 0 to |roots|
      invariant Sound(a, index, low, stack, onStack, [])
      invariant Found(g, a, Assigned(index, onStack), groups)
      invariant forall i :: 0 <= i < r ==> roots[i] in index
    {
      var root := roots[r];
      if root !in index {
        assert root in roots;
        ghost var before := index;
        index, low, stack, onStack, groups := Explore(g, a, root, index, low, stack, onStack, groups);
        forall i | 0 <= i < r
          ensures roots[i] in index
        {
          var v := roots[i];
          assert v in before;
        }
      }
    }
    forall v | v in g
      ensures v in index
    {
      assert v in roots;
    }
    AllAssigned(a, index, low, stack, onStack);
    SortedAreCycles(g, a, groups);
    cycles := SortGroups(g, groups);
  }
}
