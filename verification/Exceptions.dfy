/**
 Classifying an exception by everything it wraps (src/copycast/adapters/engine/errors.py:54-155).
 The exceptions form a graph, cyclic or not: a heap of records that refer to each other.
 */
module Exceptions {
  import opened Basics
  import opened WalkOrder

  // An object in `args` or `exc_info`: an exception, or anything else.
  datatype Object = Exc(id: nat) | Other

  datatype Exception = Exception(
    cause: Option<nat>,
    context: Option<nat>,
    causeAttribute: Object,
    args: seq<Object>,
    excInfo: Option<seq<Object>>,
    names: set<string>,
    engineError: bool,
    osErrno: Option<int>,
    status: Option<int>,
    code: Option<int>,
    expected: bool,
    text: string,
    msg: string,
    className: string)

  type Heap = map<nat, Exception>

  function Refs(objects: seq<Object>): seq<nat> {
    if objects == [] then []
    else (if objects[0].Exc? then [objects[0].id] else []) + Refs(objects[1..])
  }

  function Maybe(id: Option<nat>): seq<nat> {
    if id.Some? then [id.value] else []
  }

  // What an exception wraps, in the order the chain looks: its cause, its context, a `cause`
  // attribute, its arguments, and the exception of a three-part `exc_info`.
  function Wrapped(e: Exception): seq<nat> {
    Maybe(e.cause) + Maybe(e.context) + Refs([e.causeAttribute] + e.args)
    + (if e.excInfo.Some? && |e.excInfo.value| == 3 then Refs([e.excInfo.value[1]]) else [])
  }

  // An exception wraps each of these and nothing else; arguments and other attributes that are no
  // exceptions do not count, nor an `exc_info` of another length.
  lemma WrappedAre(e: Exception, w: nat)
    ensures w in Wrapped(e) <==>
            || e.cause == Some(w) || e.context == Some(w) || e.causeAttribute == Exc(w) || Exc(w) in e.args
            || (e.excInfo.Some? && |e.excInfo.value| == 3 && e.excInfo.value[1] == Exc(w))
  {
    RefsAre([e.causeAttribute] + e.args, w);
    if e.excInfo.Some? && |e.excInfo.value| == 3 {
      RefsAre([e.excInfo.value[1]], w);
    }
  }

  lemma {:induction false} RefsAre(objects: seq<Object>, w: nat)
    ensures w in Refs(objects) <==> Exc(w) in objects
  {
    if objects != [] {
      RefsAre(objects[1..], w);
    }
  }

  // They are looked at in this order.
  lemma WrappedInOrder(e: Exception, cause: nat, context: nat, attribute: nat, ids: seq<nat>, info: nat)
    requires e.cause == Some(cause) && e.context == Some(context) && e.causeAttribute == Exc(attribute)
    requires e.args == seq(|ids|, i requires 0 <= i < |ids| => Exc(ids[i]))
    requires e.excInfo.Some? && |e.excInfo.value| == 3 && e.excInfo.value[1] == Exc(info)
    ensures Wrapped(e) == [cause, context, attribute] + ids + [info]
  {
    RefsInOrder(ids);
    assert ([e.causeAttribute] + e.args)[1..] == e.args;
    var last: seq<Object> := [Exc(info)];
    assert last[1..] == [] && Refs(last) == [info];
  }

  lemma {:induction false} RefsInOrder(ids: seq<nat>)
    ensures Refs(seq(|ids|, i requires 0 <= i < |ids| => Exc(ids[i]))) == ids
  {
    var objects := seq(|ids|, i requires 0 <= i < |ids| => Exc(ids[i]));
    if ids != [] {
      assert objects[1..] == seq(|ids[1..]|, i requires 0 <= i < |ids[1..]| => Exc(ids[1..][i]));
      RefsInOrder(ids[1..]);
    }
  }

  // The graph of what wraps what.
  function GraphOf(h: Heap): Graph {
    map u | u in h :: Wrapped(h[u])
  }

  // Everything at most n wrappings away from the root.
  ghost function Within(g: Graph, root: nat, n: nat): set<nat>
    requires root in g && Closed(g)
    ensures Within(g, root, n) <= g.Keys
  {
    if n == 0 then {root}
    else
      var near := Within(g, root, n - 1);
      near + set w | w in g && exists u :: u in near && w in g[u]
  }

  ghost predicate Reachable(g: Graph, root: nat, v: nat)
    requires root in g && Closed(g)
  {
    exists n :: v in Within(g, root, n)
  }

  // The shortest way from the root to v is n wrappings long.
  ghost predicate AtDistance(g: Graph, root: nat, v: nat, n: nat)
    requires root in g && Closed(g)
  {
    v in Within(g, root, n) && (n > 0 ==> v !in Within(g, root, n - 1))
  }

  lemma {:induction false} WithinGrows(g: Graph, root: nat, m: nat, n: nat)
    requires root in g && Closed(g) && m <= n
    ensures Within(g, root, m) <= Within(g, root, n)
    decreases n
  {
    if m < n {
      WithinGrows(g, root, m, n - 1);
    }
  }

  lemma {:induction false} ClosedSetHoldsAll(g: Graph, root: nat, seen: set<nat>, n: nat)
    requires root in g && Closed(g) && root in seen && seen <= g.Keys
    requires forall u, w :: u in seen && w in g[u] ==> w in seen
    ensures Within(g, root, n) <= seen
  {
    if n > 0 {
      ClosedSetHoldsAll(g, root, seen, n - 1);
    }
  }

  // What the walk knows of its queue: each entry is within its label's distance, labels are d
  // then d + 1, everything nearer than d is seen, and everything within d is seen or queued.
  ghost predicate Frontier(g: Graph, root: nat, queue: seq<nat>, labels: seq<nat>, seen: set<nat>, d: nat)
    requires root in g && Closed(g)
  {
    && |labels| == |queue|
    && (forall i :: 0 <= i < |queue| ==> labels[i] in {d, d + 1} && queue[i] in Within(g, root, labels[i]))
    && (forall i, j :: 0 <= i < j < |queue| ==> labels[i] <= labels[j])
    && seen <= g.Keys
    && (forall u, w :: u in seen && w in g[u] ==> w in seen || w in queue)
    && (d > 0 ==> Within(g, root, d - 1) <= seen)
    && (forall v :: v in Within(g, root, d) ==>
          v in seen || exists i :: 0 <= i < |queue| && queue[i] == v && labels[i] == d)
  }

  lemma FrontierStarts(g: Graph, root: nat)
    requires root in g && Closed(g)
    ensures Frontier(g, root, [root], [0], {}, 0)
  {
    var queue, labels := [root], [0];
    forall v | v in Within(g, root, 0)
      ensures exists i :: 0 <= i < |queue| && queue[i] == v && labels[i] == 0
    {
      assert queue[0] == v && labels[0] == 0;
    }
  }

  // The queue holds only label d + 1: the walk moves one wrapping out.
  lemma FrontierAdvances(g: Graph, root: nat, queue: seq<nat>, labels: seq<nat>, seen: set<nat>, d: nat)
    requires root in g && Closed(g) && Frontier(g, root, queue, labels, seen, d)
    requires queue != [] && labels[0] == d + 1
    ensures Frontier(g, root, queue, labels, seen, d + 1)
  {
    assert forall i :: 0 <= i < |queue| ==> labels[i] == d + 1;
    assert Within(g, root, d) <= seen;
    forall v | v in Within(g, root, d + 1)
      ensures v in seen || exists i :: 0 <= i < |queue| && queue[i] == v && labels[i] == d + 1
    {
      if v !in seen {
        var u :| u in Within(g, root, d) && v in g[u];
        assert v in queue;
        var i :| 0 <= i < |queue| && queue[i] == v;
      }
    }
  }

  lemma FrontierSkips(g: Graph, root: nat, queue: seq<nat>, labels: seq<nat>, seen: set<nat>, d: nat)
    requires root in g && Closed(g) && Frontier(g, root, queue, labels, seen, d)
    requires queue != [] && queue[0] in seen
    ensures Frontier(g, root, queue[1..], labels[1..], seen, d)
  {
    forall v | v in Within(g, root, d) && v !in seen
      ensures exists i :: 0 <= i < |queue[1..]| && queue[1..][i] == v && labels[1..][i] == d
    {
      var i :| 0 <= i < |queue| && queue[i] == v && labels[i] == d;
      assert queue[1..][i - 1] == v && labels[1..][i - 1] == d;
    }
    forall u, w | u in seen && w in g[u] && w !in seen ensures w in queue[1..] {
      assert w in queue && w != queue[0];
    }
  }

  // The queue after visiting v, its labels, and what is seen.
  lemma VisitLabels(labels: seq<nat>, d: nat, n: nat)
    requires labels != [] && forall i :: 0 <= i < |labels| ==> labels[i] in {d, d + 1}
    requires forall i, j :: 0 <= i < j < |labels| ==> labels[i] <= labels[j]
    ensures var labels' := labels[1..] + seq(n, _ => d + 1);
            && |labels'| == |labels| - 1 + n
            && (forall i :: 0 <= i < |labels'| ==> labels'[i] in {d, d + 1})
            && (forall i :: 0 <= i < |labels| - 1 ==> labels'[i] == labels[i + 1])
            && (forall i :: |labels| - 1 <= i < |labels'| ==> labels'[i] == d + 1)
            && (forall i, j :: 0 <= i < j < |labels'| ==> labels'[i] <= labels'[j])
  {
  }

  lemma VisitEdges(g: Graph, queue: seq<nat>, seen: set<nat>, more: seq<nat>)
    requires queue != [] && queue[0] in g && seen <= g.Keys
    requires forall u, w :: u in seen && w in g[u] ==> w in seen || w in queue
    requires forall w :: w in more <==> w in g[queue[0]] && w !in seen + {queue[0]}
    ensures var seen' := seen + {queue[0]};
            forall u, w :: u in seen' && w in g[u] ==> w in seen' || w in queue[1..] + more
  {
    var seen' := seen + {queue[0]};
    forall u, w | u in seen' && w in g[u] && w !in seen' ensures w in queue[1..] + more {
      if u != queue[0] {
        assert w in queue && w != queue[0];
        assert w in queue[1..];
      } else {
        assert w in more;
      }
    }
  }

  // Everything within d is still seen or queued with label d once v, the head, is visited.
  lemma VisitNear(near: set<nat>, queue: seq<nat>, labels: seq<nat>, seen: set<nat>, d: nat, more: seq<nat>)
    requires queue != [] && |labels| == |queue|
    requires forall v :: v in near ==> v in seen || exists i :: 0 <= i < |queue| && queue[i] == v && labels[i] == d
    ensures var queue', labels' := queue[1..] + more, labels[1..] + seq(|more|, _ => d + 1);
            forall v :: v in near ==>
              v in seen + {queue[0]} || exists i :: 0 <= i < |queue'| && queue'[i] == v && labels'[i] == d
  {
    var queue', labels' := queue[1..] + more, labels[1..] + seq(|more|, _ => d + 1);
    forall v | v in near && v !in seen + {queue[0]}
      ensures exists i :: 0 <= i < |queue'| && queue'[i] == v && labels'[i] == d
    {
      var i :| 0 <= i < |queue| && queue[i] == v && labels[i] == d;
      assert queue'[i - 1] == v && labels'[i - 1] == d;
    }
  }

  lemma VisitWithin(
    g: Graph, root: nat, queue: seq<nat>, labels: seq<nat>, d: nat, more: seq<nat>)
    requires root in g && Closed(g) && queue != [] && |labels| == |queue|
    requires forall i :: 0 <= i < |queue| ==> queue[i] in Within(g, root, labels[i])
    requires forall w :: w in more ==> w in Within(g, root, d + 1)
    ensures var queue', labels' := queue[1..] + more, labels[1..] + seq(|more|, _ => d + 1);
            forall i :: 0 <= i < |queue'| ==> queue'[i] in Within(g, root, labels'[i])
  {
    var queue', labels' := queue[1..] + more, labels[1..] + seq(|more|, _ => d + 1);
    forall i | 0 <= i < |queue'| ensures queue'[i] in Within(g, root, labels'[i]) {
      if i < |queue| - 1 {
        assert queue'[i] == queue[i + 1] && labels'[i] == labels[i + 1];
      } else {
        assert queue'[i] in more && labels'[i] == d + 1;
      }
    }
  }

  lemma EdgesWithin(g: Graph, root: nat, u: nat, d: nat)
    requires root in g && Closed(g) && u in g && u in Within(g, root, d)
    ensures forall w :: w in g[u] ==> w in Within(g, root, d + 1)
  {
  }

  lemma HeadAt(g: Graph, root: nat, queue: seq<nat>, labels: seq<nat>, seen: set<nat>, d: nat)
    requires root in g && Closed(g) && Frontier(g, root, queue, labels, seen, d)
    requires queue != [] && labels[0] == d && queue[0] !in seen
    ensures AtDistance(g, root, queue[0], d) && queue[0] in g
  {
  }

  lemma FrontierVisits(g: Graph, root: nat, queue: seq<nat>, labels: seq<nat>, seen: set<nat>, d: nat, more: seq<nat>)
    requires root in g && Closed(g) && Frontier(g, root, queue, labels, seen, d)
    requires queue != [] && labels[0] == d && queue[0] !in seen && queue[0] in g
    requires forall w :: w in more <==> w in g[queue[0]] && w !in seen + {queue[0]}
    ensures AtDistance(g, root, queue[0], d)
    ensures Frontier(g, root, queue[1..] + more, labels[1..] + seq(|more|, _ => d + 1), seen + {queue[0]}, d)
  {
    HeadAt(g, root, queue, labels, seen, d);
    VisitLabels(labels, d, |more|);
    VisitEdges(g, queue, seen, more);
    EdgesWithin(g, root, queue[0], d);
    VisitWithin(g, root, queue, labels, d, more);
    VisitNear(Within(g, root, d), queue, labels, seen, d, more);
  }

  // What the walk yielded so far: the seen exceptions, each once, nearest first, from the root.
  ghost predicate Walked(g: Graph, root: nat, chain: seq<nat>, distances: seq<nat>, seen: set<nat>, d: nat)
    requires root in g && Closed(g)
  {
    && |distances| == |chain|
    && (forall v :: v in chain <==> v in seen)
    && (forall i, j :: 0 <= i < j < |chain| ==> chain[i] != chain[j])
    && (forall i :: 0 <= i < |chain| ==> AtDistance(g, root, chain[i], distances[i]) && distances[i] <= d)
    && (forall i, j :: 0 <= i < j < |chain| ==> distances[i] <= distances[j])
  }

  lemma WalkedFurther(g: Graph, root: nat, chain: seq<nat>, distances: seq<nat>, seen: set<nat>, d: nat, v: nat)
    requires root in g && Closed(g) && Walked(g, root, chain, distances, seen, d)
    requires v !in seen && AtDistance(g, root, v, d)
    ensures Walked(g, root, chain + [v], distances + [d], seen + {v}, d)
  {
    assert forall x :: x in chain + [v] <==> x in chain || x == v;
  }

  lemma WalkedAll(g: Graph, root: nat, chain: seq<nat>, distances: seq<nat>, seen: set<nat>, d: nat, labels: seq<nat>)
    requires root in g && Closed(g) && Walked(g, root, chain, distances, seen, d)
    requires Frontier(g, root, [], labels, seen, d) && root in seen
    ensures forall v :: v in chain <==> Reachable(g, root, v)
  {
    forall v ensures v in chain <==> Reachable(g, root, v) {
      if n :| v in Within(g, root, n) {
        ClosedSetHoldsAll(g, root, seen, n);
      }
      if v in chain {
        var i :| 0 <= i < |chain| && chain[i] == v;
        assert v in Within(g, root, distances[i]);
      }
    }
  }

  lemma HeadLabel(g: Graph, root: nat, queue: seq<nat>, labels: seq<nat>, seen: set<nat>, d: nat)
    requires root in g && Closed(g) && queue != [] && Frontier(g, root, queue, labels, seen, d)
    ensures labels != [] && (labels[0] == d || labels[0] == d + 1) && queue[0] in g
  {
    assert queue[0] in Within(g, root, labels[0]);
  }

  lemma WalkedOut(g: Graph, root: nat, chain: seq<nat>, distances: seq<nat>, seen: set<nat>, d: nat)
    requires root in g && Closed(g) && Walked(g, root, chain, distances, seen, d)
    ensures Walked(g, root, chain, distances, seen, d + 1)
  {
  }

  // The distance of the next exception popped.
  lemma HeadDistance(
    g: Graph, root: nat, queue: seq<nat>, labels: seq<nat>, seen: set<nat>, d: nat,
    chain: seq<nat>, distances: seq<nat>)
    returns (d': nat)
    requires root in g && Closed(g) && queue != []
    requires Frontier(g, root, queue, labels, seen, d) && Walked(g, root, chain, distances, seen, d)
    ensures labels != [] && d' == labels[0] && queue[0] in g
    ensures Frontier(g, root, queue, labels, seen, d') && Walked(g, root, chain, distances, seen, d')
  {
    HeadLabel(g, root, queue, labels, seen, d);
    d' := labels[0];
    if d' == d + 1 {
      FrontierAdvances(g, root, queue, labels, seen, d);
      WalkedOut(g, root, chain, distances, seen, d);
    }
  }

  // Visiting an unseen exception.
  lemma Visit(
    g: Graph, root: nat, queue: seq<nat>, labels: seq<nat>, seen: set<nat>, d: nat,
    chain: seq<nat>, distances: seq<nat>)
    returns (labels': seq<nat>)
    requires root in g && Closed(g) && queue != [] && labels != [] && labels[0] == d
    requires Frontier(g, root, queue, labels, seen, d) && Walked(g, root, chain, distances, seen, d)
    requires queue[0] in g && queue[0] !in seen
    ensures var seen' := seen + {queue[0]};
            && Frontier(g, root, queue[1..] + Unseen(g[queue[0]], seen'), labels', seen', d)
            && Walked(g, root, chain + [queue[0]], distances + [d], seen', d)
  {
    var more := Unseen(g[queue[0]], seen + {queue[0]});
    FrontierVisits(g, root, queue, labels, seen, d, more);
    WalkedFurther(g, root, chain, distances, seen, d, queue[0]);
    labels' := labels[1..] + seq(|more|, _ => d + 1);
  }

  // The walk from any queue on visits the reachable exceptions, each once, nearest first.
  lemma {:induction false} GoesNearestFirst(
    g: Graph, root: nat, queue: seq<nat>, labels: seq<nat>, seen: set<nat>, d: nat,
    chain: seq<nat>, distances: seq<nat>)
    returns (all: seq<nat>)
    requires root in g && Closed(g) && InGraph(g, queue)
    requires Frontier(g, root, queue, labels, seen, d) && Walked(g, root, chain, distances, seen, d)
    requires if chain == [] then queue == [root] && root !in seen else chain[0] == root
    ensures IsChain(g, root, chain + Bfs(g, queue, seen), all)
    decreases |g.Keys - seen|, |queue|
  {
    if queue == [] {
      WalkedAll(g, root, chain, distances, seen, d, labels);
      assert chain + [] == chain;
      all := distances;
    } else {
      var d' := HeadDistance(g, root, queue, labels, seen, d, chain, distances);
      var v, rest := queue[0], queue[1..];
      if v in seen {
        FrontierSkips(g, root, queue, labels, seen, d');
        all := GoesNearestFirst(g, root, rest, labels[1..], seen, d', chain, distances);
      } else {
        var labels' := Visit(g, root, queue, labels, seen, d', chain, distances);
        FewerLeft(g.Keys, seen, v);
        var queue' := rest + Unseen(g[v], seen + {v});
        all := GoesNearestFirst(g, root, queue', labels', seen + {v}, d', chain + [v], distances + [d']);
        Regroup(chain, [v], Bfs(g, queue', seen + {v}));
      }
    }
  }

  // `_chain` over what wraps what: breadth first, with a queue that may name an exception more
  // than once. It ends on every graph, cyclic ones included, and yields exactly the reachable
  // exceptions, each once, nearest first and in the order they are first mentioned.
  method Walk(g: Graph, root: nat) returns (chain: seq<nat>, ghost distances: seq<nat>)
    requires root in g && Closed(g)
    ensures IsChain(g, root, chain, distances)
    ensures (forall v :: v in chain ==> v in g) && chain == FirstTimes([root] + Mentions(g, chain))
  {
    var seen: set<nat> := {};
    var queue := [root];
    chain := [];
    while queue != []
      invariant InGraph(g, queue)
      invariant chain + Bfs(g, queue, seen) == Bfs(g, [root], {})
      decreases |g.Keys - seen|, |queue|
    {
      var current := queue[0];
      if current in seen {
        queue := queue[1..];
      } else {
        FewerLeft(g.Keys, seen, current);
        Regroup(chain, [current], Bfs(g, queue[1..] + Unseen(g[current], seen + {current}), seen + {current}));
        seen := seen + {current};
        chain := chain + [current];
        queue := queue[1..] + Unseen(g[current], seen);
      }
    }
    assert chain + [] == chain;
    FrontierStarts(g, root);
    distances := GoesNearestFirst(g, root, [root], [0], {}, 0, [], []);
    assert [] + Bfs(g, [root], {}) == Bfs(g, [root], {});
    GoesAsMentioned(g, root);
  }

  // The reachable exceptions, each once, nearest to the root first.
  ghost predicate IsChain(g: Graph, root: nat, chain: seq<nat>, distances: seq<nat>)
    requires root in g && Closed(g)
  {
    && (forall v :: v in chain <==> Reachable(g, root, v))
    && (forall i, j :: 0 <= i < j < |chain| ==> chain[i] != chain[j])
    && |distances| == |chain|
    && (forall i :: 0 <= i < |chain| ==> AtDistance(g, root, chain[i], distances[i]))
    && (forall i, j :: 0 <= i < j < |chain| ==> distances[i] <= distances[j])
    && chain != [] && chain[0] == root
  }
}
