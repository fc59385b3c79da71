/** The order in which a breadth-first walk comes to what it visits (src/copycast/adapters/engine/errors.py:58-81). */
module WalkOrder {
  import opened Basics

  // What wraps what, by number.
  type Graph = map<nat, seq<nat>>

  ghost predicate Closed(g: Graph) {
    forall u, w :: u in g && w in g[u] ==> w in g
  }

  // The exceptions among `wrapped` not seen yet, as pushed on the queue.
  function Unseen(wrapped: seq<nat>, seen: set<nat>): (unseen: seq<nat>)
    ensures forall w :: w in unseen <==> w in wrapped && w !in seen
  {
    if wrapped == [] then []
    else (if wrapped[0] in seen then [] else [wrapped[0]]) + Unseen(wrapped[1..], seen)
  }

  // Everything the exceptions of the chain wrap, one list after the other.
  function Mentions(g: Graph, chain: seq<nat>): seq<nat>
    requires forall v :: v in chain ==> v in g
  {
    if chain == [] then []
    else Mentions(g, chain[..|chain| - 1]) + g[chain[|chain| - 1]]
  }

  // An element that stood before may as well be left out.
  lemma FirstTimesSkip(a: seq<nat>, v: nat, rest: seq<nat>)
    requires v in a
    ensures FirstTimes(a + [v] + rest) == FirstTimes(a + rest)
  {
    assert (a + [v])[..|a|] == a;
    FirstTimesGoOn(a + [v], a, rest);
  }

  lemma {:induction false} FirstTimesUnseen(a: seq<nat>, wrapped: seq<nat>, seen: set<nat>)
    requires forall v :: v in seen ==> v in a
    ensures FirstTimes(a + Unseen(wrapped, seen)) == FirstTimes(a + wrapped)
    decreases |wrapped|
  {
    if wrapped != [] {
      var v, rest := wrapped[0], wrapped[1..];
      Regroup(a, [v], rest);
      assert wrapped == [v] + rest;
      if v in seen {
        FirstTimesUnseen(a, rest, seen);
        FirstTimesSkip(a, v, rest);
        assert Unseen(wrapped, seen) == Unseen(rest, seen);
      } else {
        FirstTimesUnseen(a + [v], rest, seen);
        Regroup(a, [v], Unseen(rest, seen));
      }
    }
  }

  // The chain so far and the queue are what has been mentioned so far, each where it first was.
  ghost predicate Mentioned(g: Graph, root: nat, chain: seq<nat>, queue: seq<nat>) {
    && (forall v :: v in chain ==> v in g)
    && FirstTimes(chain) == chain
    && FirstTimes(chain + queue) == FirstTimes([root] + Mentions(g, chain))
  }

  lemma MentionedStarts(g: Graph, root: nat)
    ensures Mentioned(g, root, [], [root])
  {
    assert [] + [root] == [root] + Mentions(g, []);
  }

  lemma MentionedSkips(g: Graph, root: nat, chain: seq<nat>, queue: seq<nat>)
    requires Mentioned(g, root, chain, queue) && queue != [] && queue[0] in chain
    ensures Mentioned(g, root, chain, queue[1..])
  {
    assert chain + queue == chain + [queue[0]] + queue[1..];
    FirstTimesSkip(chain, queue[0], queue[1..]);
  }

  lemma MentionedVisits(g: Graph, root: nat, chain: seq<nat>, queue: seq<nat>, seen: set<nat>)
    requires Mentioned(g, root, chain, queue) && queue != [] && queue[0] !in chain && queue[0] in g
    requires forall v :: v in seen ==> v in chain + [queue[0]]
    ensures Mentioned(g, root, chain + [queue[0]], queue[1..] + Unseen(g[queue[0]], seen))
  {
    var v, rest := queue[0], queue[1..];
    var chain' := chain + [v];
    assert chain'[..|chain|] == chain;
    assert chain + queue == chain' + rest;
    MoreMentioned(chain', rest, [root] + Mentions(g, chain), g[v], seen);
    Regroup([root], Mentions(g, chain), g[v]);
  }

  // What one more exception wraps, queued and mentioned.
  lemma MoreMentioned(chain: seq<nat>, queue: seq<nat>, mentioned: seq<nat>, wrapped: seq<nat>, seen: set<nat>)
    requires FirstTimes(chain + queue) == FirstTimes(mentioned)
    requires forall v :: v in seen ==> v in chain
    ensures FirstTimes(chain + (queue + Unseen(wrapped, seen))) == FirstTimes(mentioned + wrapped)
  {
    assert forall v :: v in seen ==> v in chain + queue;
    FirstTimesUnseen(chain + queue, wrapped, seen);
    Regroup(chain, queue, Unseen(wrapped, seen));
    FirstTimesGoOn(chain + queue, mentioned, wrapped);
  }

  lemma FewerLeft(all: set<nat>, seen: set<nat>, v: nat)
    requires v in all && v !in seen
    ensures |all - (seen + {v})| < |all - seen|
  {
    assert all - (seen + {v}) == (all - seen) - {v};
  }

  predicate InGraph(g: Graph, queue: seq<nat>) {
    forall v :: v in queue ==> v in g
  }

  // What the walk still visits, from this queue on.
  ghost function Bfs(g: Graph, queue: seq<nat>, seen: set<nat>): (visits: seq<nat>)
    requires Closed(g) && InGraph(g, queue)
    ensures InGraph(g, visits)
    decreases |g.Keys - seen|, |queue|
  {
    if queue == [] then []
    else if queue[0] in seen then Bfs(g, queue[1..], seen)
    else
      var seen' := seen + {queue[0]};
      FewerLeft(g.Keys, seen, queue[0]);
      [queue[0]] + Bfs(g, queue[1..] + Unseen(g[queue[0]], seen'), seen')
  }

  lemma {:induction false} GoesOnAsMentioned(g: Graph, root: nat, chain: seq<nat>, queue: seq<nat>, seen: set<nat>)
    requires Closed(g) && InGraph(g, queue) && Mentioned(g, root, chain, queue)
    requires forall v :: v in seen <==> v in chain
    ensures Mentioned(g, root, chain + Bfs(g, queue, seen), [])
    decreases |g.Keys - seen|, |queue|
  {
    if queue == [] {
      assert chain + [] == chain;
    } else if queue[0] in seen {
      MentionedSkips(g, root, chain, queue);
      GoesOnAsMentioned(g, root, chain, queue[1..], seen);
    } else {
      var v, seen' := queue[0], seen + {queue[0]};
      var queue' := queue[1..] + Unseen(g[v], seen');
      MentionedVisits(g, root, chain, queue, seen');
      FewerLeft(g.Keys, seen, v);
      GoesOnAsMentioned(g, root, chain + [v], queue', seen');
      Regroup(chain, [v], Bfs(g, queue', seen'));
    }
  }

  // The walk comes to each exception in the order they are first mentioned.
  lemma GoesAsMentioned(g: Graph, root: nat)
    requires root in g && Closed(g)
    ensures var chain := Bfs(g, [root], {}); chain == FirstTimes([root] + Mentions(g, chain))
  {
    var chain := Bfs(g, [root], {});
    MentionedStarts(g, root);
    GoesOnAsMentioned(g, root, [], [root], {});
    assert [] + chain == chain && chain + [] == chain;
  }
}
