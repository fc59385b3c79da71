/** The Engine error an exception becomes (src/copycast/adapters/engine/errors.py:84-155). */
module Classify {
  import opened Basics
  import opened Exceptions
  import opened WalkOrder

  datatype Kind = Cancelled | StorageFull | PermanentError | TransientError

  // The three patterns, as what they match.
  datatype Patterns = Patterns(storage: string -> bool, permanent: string -> bool, transient: string -> bool)

  // An Engine error found in the chain, or a new one wrapping the exception classified, its
  // message taken from `reason`.
  datatype Verdict = Raised(id: nat) | Wrapping(kind: Kind, reason: nat)

  const ENOSPC := 28
  const EDQUOT := 122

  predicate IsStorageErrno(e: Exception) {
    e.osErrno == Some(ENOSPC) || e.osErrno == Some(EDQUOT)
  }

  predicate IsPermanentStatus(status: int) {
    status == 401 || status == 403 || status == 404 || status == 410
  }

  function StatusOf(e: Exception): Option<int> {
    if e.status.Some? then e.status
    else if "HTTPError" in e.names then e.code
    else None
  }

  predicate IsCancel(e: Exception) {
    "DownloadCancelled" in e.names
  }

  function ByClass(p: Patterns, e: Exception): Option<Kind> {
    if IsCancel(e) then Some(Cancelled)
    else if IsStorageErrno(e) then Some(StorageFull)
    else if p.storage(e.text) then Some(StorageFull)
    else if StatusOf(e).Some? then
      Some(if IsPermanentStatus(StatusOf(e).value) then PermanentError else TransientError)
    else if "TransportError" in e.names || "ThrottledDownload" in e.names then Some(TransientError)
    else if "ContentTooShortError" in e.names then Some(TransientError)
    else if "GeoRestrictedError" in e.names || "UnsupportedError" in e.names then Some(PermanentError)
    else if "UnavailableVideoError" in e.names then Some(PermanentError)
    else if "ExtractorError" in e.names then
      if p.transient(e.text) && !p.permanent(e.text) then Some(TransientError)
      else if e.expected then Some(PermanentError)
      else None
    else if "PostProcessingError" in e.names then
      Some(if p.permanent(e.text) then PermanentError else TransientError)
    else None
  }

  function Message(e: Exception): string {
    var text := if e.msg != "" then e.msg else e.text;
    if text != "" then text else e.className
  }

  // `" ".join(messages)`
  function Messages(h: Heap, chain: seq<nat>): string
    requires forall v :: v in chain ==> v in h
  {
    if chain == [] then ""
    else if |chain| == 1 then Message(h[chain[0]])
    else Message(h[chain[0]]) + " " + Messages(h, chain[1..])
  }

  function ByText(p: Patterns, text: string): Kind {
    if p.transient(text) && !p.permanent(text) then TransientError
    else if p.permanent(text) then PermanentError
    else TransientError
  }

  // ------------------------------------------------------------------ what an exception says, by its traits

  // The disk or the quota is full: by its number, or by its words.
  predicate NoSpace(p: Patterns, e: Exception) {
    e.osErrno == Some(28) || e.osErrno == Some(122) || p.storage(e.text)
  }

  predicate HasStatus(e: Exception, n: int) {
    e.status == Some(n) || (e.status.None? && "HTTPError" in e.names && e.code == Some(n))
  }

  const NETWORK := {"TransportError", "ThrottledDownload", "ContentTooShortError"}
  const REFUSALS := {"GeoRestrictedError", "UnsupportedError", "UnavailableVideoError"}

  predicate SoundsTransient(p: Patterns, e: Exception) {
    p.transient(e.text) && !p.permanent(e.text)
  }

  ghost predicate Recognised(p: Patterns, e: Exception) {
    || "DownloadCancelled" in e.names || NoSpace(p, e) || (exists n :: HasStatus(e, n))
    || e.names * (NETWORK + REFUSALS + {"PostProcessingError"}) != {}
    || ("ExtractorError" in e.names && (e.expected || SoundsTransient(p, e)))
  }

  lemma StatusIs(e: Exception)
    ensures forall n :: HasStatus(e, n) <==> StatusOf(e) == Some(n)
  {
  }

  lemma NamedIn(e: Exception)
    ensures e.names * NETWORK != {} <==>
            "TransportError" in e.names || "ThrottledDownload" in e.names || "ContentTooShortError" in e.names
    ensures e.names * REFUSALS != {} <==>
            "GeoRestrictedError" in e.names || "UnsupportedError" in e.names || "UnavailableVideoError" in e.names
  {
    forall name | name in e.names ensures name in NETWORK ==> name in e.names * NETWORK {
    }
    forall name | name in e.names ensures name in REFUSALS ==> name in e.names * REFUSALS {
    }
  }

  // What a class says: a cancellation first, then a full disk, then an HTTP status, of which 401,
  // 403, 404 and 410 are permanent, then a network error, a refusal, an extractor's own error and a
  // post-processing error.
  lemma ClassSays(p: Patterns, e: Exception)
    ensures "DownloadCancelled" in e.names ==> ByClass(p, e) == Some(Cancelled)
    ensures "DownloadCancelled" !in e.names && NoSpace(p, e) ==> ByClass(p, e) == Some(StorageFull)
    ensures forall n :: "DownloadCancelled" !in e.names && !NoSpace(p, e) && HasStatus(e, n) ==>
              ByClass(p, e) == Some(if n in {401, 403, 404, 410} then PermanentError else TransientError)
    ensures "DownloadCancelled" !in e.names && !NoSpace(p, e) && (forall n :: !HasStatus(e, n)) ==>
              ByClass(p, e) ==
              if e.names * NETWORK != {} then Some(TransientError)
              else if e.names * REFUSALS != {} then Some(PermanentError)
              else if "ExtractorError" in e.names then
                (if SoundsTransient(p, e) then Some(TransientError)
                 else if e.expected then Some(PermanentError) else None)
              else if "PostProcessingError" in e.names then
                Some(if p.permanent(e.text) then PermanentError else TransientError)
              else None
  {
    StatusIs(e);
    NamedIn(e);
    if StatusOf(e).Some? {
      assert HasStatus(e, StatusOf(e).value);
    }
  }

  lemma RecognisedHaveAClass(p: Patterns, e: Exception)
    requires ByClass(p, e).Some?
    ensures Recognised(p, e)
  {
    ClassSays(p, e);
    if e.names * NETWORK != {} {
      var name :| name in e.names * NETWORK;
      assert name in e.names * (NETWORK + REFUSALS + {"PostProcessingError"});
    } else if e.names * REFUSALS != {} {
      var name :| name in e.names * REFUSALS;
      assert name in e.names * (NETWORK + REFUSALS + {"PostProcessingError"});
    } else if "PostProcessingError" in e.names {
      assert "PostProcessingError" in e.names * (NETWORK + REFUSALS + {"PostProcessingError"});
    }
  }

  // What the exceptions say of themselves, in the chain's order.
  function Words(h: Heap, chain: seq<nat>): seq<string>
    requires forall v :: v in chain ==> v in h
  {
    seq(|chain|, i requires 0 <= i < |chain| =>
      var e := h[chain[i]];
      if e.msg != "" then e.msg else if e.text != "" then e.text else e.className)
  }

  lemma {:induction false} MessagesAreJoined(h: Heap, chain: seq<nat>)
    requires forall v :: v in chain ==> v in h
    ensures Messages(h, chain) == Join(Words(h, chain), " ")
  {
    if |chain| > 1 {
      MessagesAreJoined(h, chain[1..]);
      assert Words(h, chain)[1..] == Words(h, chain[1..]);
    }
  }

  // ------------------------------------------------------------------ the questions

  // The four questions asked of every exception of the chain, in the order they are asked.
  datatype Question = IsEngineError | WasCancelled | IsStorage | HasClass

  predicate Answers(p: Patterns, e: Exception, q: Question) {
    match q
    case IsEngineError => e.engineError
    case WasCancelled => IsCancel(e)
    case IsStorage => ByClass(p, e) == Some(StorageFull)
    case HasClass => ByClass(p, e).Some?
  }

  // Where the first exception of the chain that answers `q` stands; its length when none does.
  function First(p: Patterns, h: Heap, chain: seq<nat>, q: Question): (i: nat)
    requires forall v :: v in chain ==> v in h
    ensures i <= |chain|
    ensures forall k :: 0 <= k < i ==> !Answers(p, h[chain[k]], q)
    ensures i < |chain| ==> Answers(p, h[chain[i]], q)
  {
    if chain == [] || Answers(p, h[chain[0]], q) then 0 else 1 + First(p, h, chain[1..], q)
  }

  lemma FirstUnique(p: Patterns, h: Heap, chain: seq<nat>, q: Question, i: nat)
    requires forall v :: v in chain ==> v in h
    requires i <= |chain| && (i < |chain| ==> Answers(p, h[chain[i]], q))
    requires forall k :: 0 <= k < i ==> !Answers(p, h[chain[k]], q)
    ensures First(p, h, chain, q) == i
  {
  }

  method FindFirst(p: Patterns, h: Heap, chain: seq<nat>, q: Question) returns (i: nat)
    requires forall v :: v in chain ==> v in h
    ensures i == First(p, h, chain, q)
  {
    i := 0;
    while i < |chain|
      invariant i <= |chain|
      invariant forall k :: 0 <= k < i ==> !Answers(p, h[chain[k]], q)
    {
      if Answers(p, h[chain[i]], q) {
        break;
      }
      i := i + 1;
    }
    FirstUnique(p, h, chain, q, i);
  }

  // What the chain comes to: the first Engine error, else the first cancellation, else the first
  // storage exhaustion, else the first exception whose class says something, else the messages.
  function Classified(p: Patterns, h: Heap, root: nat, chain: seq<nat>): Verdict
    requires forall v :: v in chain ==> v in h
  {
    var engine, cancel := First(p, h, chain, IsEngineError), First(p, h, chain, WasCancelled);
    var storage, classed := First(p, h, chain, IsStorage), First(p, h, chain, HasClass);
    if engine < |chain| then Raised(chain[engine])
    else if cancel < |chain| then Wrapping(Cancelled, chain[cancel])
    else if storage < |chain| then Wrapping(StorageFull, chain[storage])
    else if classed < |chain| then Wrapping(ByClass(p, h[chain[classed]]).value, chain[classed])
    else Wrapping(ByText(p, Messages(h, chain)), root)
  }

  // No exception the root wraps answers `q`.
  ghost predicate NoneAnswers(p: Patterns, h: Heap, root: nat, q: Question)
    requires root in h && Closed(GraphOf(h))
  {
    forall v :: Reachable(GraphOf(h), root, v) ==> v in h && !Answers(p, h[v], q)
  }

  // `v` answers `q` and no exception nearer the root does.
  ghost predicate NearestAnswer(p: Patterns, h: Heap, root: nat, q: Question, v: nat)
    requires root in h && Closed(GraphOf(h))
  {
    var g := GraphOf(h);
    && v in h && Answers(p, h[v], q) && Reachable(g, root, v)
    && forall w, m, n :: AtDistance(g, root, v, m) && AtDistance(g, root, w, n) && n < m ==>
         w in h && !Answers(p, h[w], q)
  }

  lemma DistanceUnique(g: Graph, root: nat, v: nat, m: nat, n: nat)
    requires root in g && Closed(g) && AtDistance(g, root, v, m) && AtDistance(g, root, v, n)
    ensures m == n
  {
    if m < n {
      WithinGrows(g, root, m, n - 1);
    } else if n < m {
      WithinGrows(g, root, n, m - 1);
    }
  }

  lemma ChainInHeap(h: Heap, root: nat, chain: seq<nat>, distances: seq<nat>)
    requires root in h && Closed(GraphOf(h)) && IsChain(GraphOf(h), root, chain, distances)
    ensures forall v :: v in chain ==> v in h
  {
    forall v | v in chain ensures v in h {
      var n :| v in Within(GraphOf(h), root, n);
    }
  }

  // A first answer in the chain is a nearest one; no answer in the chain is none anywhere.
  lemma FirstIsNearest(
    p: Patterns, h: Heap, root: nat, chain: seq<nat>, distances: seq<nat>, q: Question, i: nat)
    requires root in h && Closed(GraphOf(h)) && IsChain(GraphOf(h), root, chain, distances)
    requires forall v :: v in chain ==> v in h
    requires i <= |chain| && forall k :: 0 <= k < i ==> !Answers(p, h[chain[k]], q)
    ensures i == |chain| ==> NoneAnswers(p, h, root, q)
    ensures i < |chain| && Answers(p, h[chain[i]], q) ==> NearestAnswer(p, h, root, q, chain[i])
  {
    if i < |chain| && Answers(p, h[chain[i]], q) {
      forall w, m: nat, n: nat
        | AtDistance(GraphOf(h), root, chain[i], m) && AtDistance(GraphOf(h), root, w, n) && n < m
        ensures w in h && !Answers(p, h[w], q)
      {
        NearerIsEarlier(GraphOf(h), root, chain, distances, i, w, m, n);
      }
    }
  }

  // What is nearer than the i-th of the chain stands before it.
  lemma NearerIsEarlier(
    g: Graph, root: nat, chain: seq<nat>, distances: seq<nat>, i: nat, w: nat, m: nat, n: nat)
    requires root in g && Closed(g) && IsChain(g, root, chain, distances) && i < |chain|
    requires AtDistance(g, root, chain[i], m) && AtDistance(g, root, w, n) && n < m
    ensures exists k :: 0 <= k < i && chain[k] == w
  {
    assert Reachable(g, root, w);
    var k :| 0 <= k < |chain| && chain[k] == w;
    DistanceUnique(g, root, chain[i], m, distances[i]);
    DistanceUnique(g, root, w, n, distances[k]);
  }

  // `classify`. An Engine error wins wherever the graph holds one, then a cancellation, then
  // storage exhaustion, then whatever class says something; each time the nearest. When no
  // exception says anything, their messages decide, and silence is transient.
  method ClassifyException(p: Patterns, h: Heap, root: nat) returns (v: Verdict, chain: seq<nat>)
    requires root in h && Closed(GraphOf(h))
    ensures exists distances :: IsChain(GraphOf(h), root, chain, distances)
    ensures forall x :: x in chain ==> x in h
    ensures v == Classified(p, h, root, chain)
    ensures v.Raised? <==> !NoneAnswers(p, h, root, IsEngineError)
    ensures v.Raised? ==> NearestAnswer(p, h, root, IsEngineError, v.id)
    ensures !v.Raised? && !NoneAnswers(p, h, root, WasCancelled) ==>
              v.kind == Cancelled && NearestAnswer(p, h, root, WasCancelled, v.reason)
    ensures !v.Raised? && NoneAnswers(p, h, root, WasCancelled) && !NoneAnswers(p, h, root, IsStorage) ==>
              v.kind == StorageFull && NearestAnswer(p, h, root, IsStorage, v.reason)
    ensures !v.Raised? && NoneAnswers(p, h, root, WasCancelled) && NoneAnswers(p, h, root, IsStorage)
            && !NoneAnswers(p, h, root, HasClass) ==>
              NearestAnswer(p, h, root, HasClass, v.reason) && ByClass(p, h[v.reason]) == Some(v.kind)
    ensures NoneAnswers(p, h, root, IsEngineError) && NoneAnswers(p, h, root, HasClass) ==>
              && v.Wrapping? && v.reason == root
              && v.kind == if p.permanent(Join(Words(h, chain), " ")) then PermanentError else TransientError
    ensures (forall x :: x in chain ==> !h[x].engineError && !Recognised(p, h[x])) ==>
              && v.Wrapping? && v.reason == root
              && (v.kind == PermanentError <==> p.permanent(Join(Words(h, chain), " ")))
              && (v.kind == PermanentError || v.kind == TransientError)
              && ((forall text :: !p.permanent(text)) ==> v.kind == TransientError)
    ensures v == Documented(p, h, root, chain) <==> Decided(p, h, chain) || !Outranked(p, h, chain)
  {
    ghost var distances;
    chain, distances := Walk(GraphOf(h), root);
    ChainInHeap(h, root, chain, distances);
    DocumentedOrderIff(p, h, root, chain);
    forall x | x in chain && ByClass(p, h[x]).Some? ensures Recognised(p, h[x]) {
      RecognisedHaveAClass(p, h[x]);
    }
    var i := FindFirst(p, h, chain, IsEngineError);
    FirstIsNearest(p, h, root, chain, distances, IsEngineError, i);
    if i < |chain| {
      return Raised(chain[i]), chain;
    }
    var j := FindFirst(p, h, chain, WasCancelled);
    FirstIsNearest(p, h, root, chain, distances, WasCancelled, j);
    if j < |chain| {
      return Wrapping(Cancelled, chain[j]), chain;
    }
    var k := FindFirst(p, h, chain, IsStorage);
    FirstIsNearest(p, h, root, chain, distances, IsStorage, k);
    if k < |chain| {
      return Wrapping(StorageFull, chain[k]), chain;
    }
    var l := FindFirst(p, h, chain, HasClass);
    FirstIsNearest(p, h, root, chain, distances, HasClass, l);
    if l < |chain| {
      return Wrapping(ByClass(p, h[chain[l]]).value, chain[l]), chain;
    }
    v := Wrapping(ByText(p, Messages(h, chain)), root);
    MessagesAreJoined(h, chain);
  }

  // ------------------------------------------------------------------ the documented order

  // The documentation ranks what an exception says: an Engine error, a cancellation, storage
  // exhaustion, an HTTP status, a network transport error, an expected (permanent) extractor
  // error, then the other classes; an exception of rank SILENT says nothing.
  const SILENT := 7

  predicate IsTransport(e: Exception) {
    "TransportError" in e.names || "ThrottledDownload" in e.names || "ContentTooShortError" in e.names
  }

  predicate IsExpectedRefusal(e: Exception) {
    || "GeoRestrictedError" in e.names || "UnsupportedError" in e.names || "UnavailableVideoError" in e.names
    || ("ExtractorError" in e.names && e.expected)
  }

  function Rank(p: Patterns, e: Exception): (rank: nat)
    ensures rank <= SILENT
    ensures rank == 0 <==> e.engineError
    ensures rank < SILENT <==> e.engineError || ByClass(p, e).Some?
  {
    if e.engineError then 0
    else if ByClass(p, e).None? then SILENT
    else if IsCancel(e) then 1
    else if ByClass(p, e) == Some(StorageFull) then 2
    else if StatusOf(e).Some? then 3
    else if IsTransport(e) then 4
    else if IsExpectedRefusal(e) && ByClass(p, e) == Some(PermanentError) then 5
    else 6
  }

  // Where the first exception of the best rank stands; the chain's length when all are silent.
  function Best(p: Patterns, h: Heap, chain: seq<nat>): (b: nat)
    requires forall v :: v in chain ==> v in h
    ensures b <= |chain|
    ensures b == |chain| ==> forall k :: 0 <= k < |chain| ==> Rank(p, h[chain[k]]) == SILENT
    ensures b < |chain| ==>
              && Rank(p, h[chain[b]]) < SILENT
              && (forall k :: 0 <= k < b ==> Rank(p, h[chain[b]]) < Rank(p, h[chain[k]]))
              && (forall k :: b <= k < |chain| ==> Rank(p, h[chain[b]]) <= Rank(p, h[chain[k]]))
  {
    if chain == [] then 0
    else
      var rest := Best(p, h, chain[1..]);
      var here := Rank(p, h[chain[0]]);
      if rest == |chain| - 1 then (if here < SILENT then 0 else |chain|)
      else if here <= Rank(p, h[chain[rest + 1]]) then 0
      else rest + 1
  }

  // The verdict of the documented order: the first exception of the best rank decides.
  function Documented(p: Patterns, h: Heap, root: nat, chain: seq<nat>): Verdict
    requires forall v :: v in chain ==> v in h
  {
    var b := Best(p, h, chain);
    if b == |chain| then Wrapping(ByText(p, Messages(h, chain)), root)
    else if h[chain[b]].engineError then Raised(chain[b])
    else Wrapping(ByClass(p, h[chain[b]]).value, chain[b])
  }

  predicate Decided(p: Patterns, h: Heap, chain: seq<nat>)
    requires forall v :: v in chain ==> v in h
  {
    || First(p, h, chain, IsEngineError) < |chain|
    || First(p, h, chain, WasCancelled) < |chain|
    || First(p, h, chain, IsStorage) < |chain|
  }

  // An exception after the first one whose class says something has a class of a better rank.
  predicate Outranked(p: Patterns, h: Heap, chain: seq<nat>)
    requires forall v :: v in chain ==> v in h
  {
    var first := First(p, h, chain, HasClass);
    first < |chain| && exists k :: first < k < |chain| && Rank(p, h[chain[k]]) < Rank(p, h[chain[first]])
  }

  // Among Engine errors, cancellations and storage exhaustion the code follows the documented
  // order: each has its own question, asked in that order.
  lemma DecidedAsDocumented(p: Patterns, h: Heap, root: nat, chain: seq<nat>)
    requires forall v :: v in chain ==> v in h
    requires Decided(p, h, chain)
    ensures Classified(p, h, root, chain) == Documented(p, h, root, chain)
  {
    var b := Best(p, h, chain);
    var engine, cancel := First(p, h, chain, IsEngineError), First(p, h, chain, WasCancelled);
    var storage := First(p, h, chain, IsStorage);
    if engine < |chain| {
      assert Rank(p, h[chain[engine]]) == 0;
      assert b == engine;
    } else if cancel < |chain| {
      assert Rank(p, h[chain[cancel]]) == 1;
      assert b == cancel;
    } else {
      assert Rank(p, h[chain[storage]]) == 2;
      assert b == storage;
    }
  }

  // Of the rest the code lets the first classed exception decide, so the verdict, the deciding
  // exception included, is the documented one exactly when no later one outranks that.
  lemma DocumentedOrderIff(p: Patterns, h: Heap, root: nat, chain: seq<nat>)
    requires forall v :: v in chain ==> v in h
    requires forall i, j :: 0 <= i < j < |chain| ==> chain[i] != chain[j]
    ensures Classified(p, h, root, chain) == Documented(p, h, root, chain)
       <==> Decided(p, h, chain) || !Outranked(p, h, chain)
  {
    if Decided(p, h, chain) {
      DecidedAsDocumented(p, h, root, chain);
    } else {
      ClassedIff(p, h, root, chain);
    }
  }

  lemma ClassedIff(p: Patterns, h: Heap, root: nat, chain: seq<nat>)
    requires forall v :: v in chain ==> v in h
    requires forall i, j :: 0 <= i < j < |chain| ==> chain[i] != chain[j]
    requires !Decided(p, h, chain)
    ensures Classified(p, h, root, chain) == Documented(p, h, root, chain) <==> !Outranked(p, h, chain)
  {
    var b, first := Best(p, h, chain), First(p, h, chain, HasClass);
    forall k | 0 <= k < |chain| ensures Rank(p, h[chain[k]]) < SILENT <==> Answers(p, h[chain[k]], HasClass) {
      assert !Answers(p, h[chain[k]], IsEngineError);
    }
    if first < |chain| {
      assert b < |chain| && first <= b;
      assert !h[chain[b]].engineError;
      assert Outranked(p, h, chain) <==> first != b;
    }
  }

  function Plain(names: set<string>, cause: Option<nat>, status: Option<int>): Exception {
    Exception(cause, None, Other, [], None, names, false, None, status, None, false, "", "", "Exception")
  }

  lemma ChainOfTwo(g: Graph)
    requires g.Keys == {0, 1} && g[0] == [1] && g[1] == []
    ensures Closed(g) && IsChain(g, 0, [0, 1], [0, 1])
  {
    var chain: seq<nat> := [0, 1];
    assert Within(g, 0, 0) == {0};
    assert 1 in g[0] && 1 in Within(g, 0, 1);
    forall v | Reachable(g, 0, v) ensures v in chain {
      var n :| v in Within(g, 0, n);
      ClosedSetHoldsAll(g, 0, {0, 1}, n);
    }
    assert Reachable(g, 0, 0) && Reachable(g, 0, 1);
  }

  lemma WrapsOnly(e: Exception)
    requires e.context.None? && e.causeAttribute.Other? && e.args == [] && e.excInfo.None?
    ensures Wrapped(e) == Maybe(e.cause)
  {
    var none: seq<Object> := [Other] + [];
    assert none[1..] == [] && Refs(none) == [];
  }

  // A post-processing error around a 404 is retried, though the status outranks it on paper.
  lemma DocumentedOrderFails() returns (p: Patterns, h: Heap, chain: seq<nat>, distances: seq<nat>)
    ensures 0 in h && Closed(GraphOf(h)) && IsChain(GraphOf(h), 0, chain, distances)
    ensures forall v :: v in chain ==> v in h
    ensures Classified(p, h, 0, chain) == Wrapping(TransientError, 0)
    ensures Documented(p, h, 0, chain) == Wrapping(PermanentError, 1)
  {
    p := Patterns(s => false, s => false, s => false);
    h := map[0 := Plain({"PostProcessingError"}, Some(1), None), 1 := Plain({"HTTPError"}, None, Some(404))];
    WrapsOnly(h[0]);
    WrapsOnly(h[1]);
    chain, distances := [0, 1], [0, 1];
    ChainOfTwo(GraphOf(h));
    SaysRetry(p, h[0]);
    SaysGone(p, h[1]);
    FirstUnique(p, h, chain, IsEngineError, 2);
    FirstUnique(p, h, chain, WasCancelled, 2);
    FirstUnique(p, h, chain, IsStorage, 2);
    FirstUnique(p, h, chain, HasClass, 0);
    assert Best(p, h, chain) == 1;
  }

  lemma SaysRetry(p: Patterns, e: Exception)
    requires p.storage("") == p.permanent("") == p.transient("") == false
    requires e == Plain({"PostProcessingError"}, Some(1), None)
    ensures ByClass(p, e) == Some(TransientError) && !IsCancel(e) && Rank(p, e) == 6
  {
  }

  lemma SaysGone(p: Patterns, e: Exception)
    requires p.storage("") == false
    requires e == Plain({"HTTPError"}, None, Some(404))
    ensures ByClass(p, e) == Some(PermanentError) && !IsCancel(e) && Rank(p, e) == 3
  {
  }
}
