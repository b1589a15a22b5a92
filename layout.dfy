/** Auto-layout (handleAutoLayout): levels by Kahn's algorithm over the
    links between existing nodes and groups, then items bucketed by level,
    each layer sorted, and positions handed out by a column (or row)
    cursor and a cursor across it, clamped into the canvas. */
module Layout {
  import opened Optional
  import opened Geometry
  import opened Scene

  const LayoutMargin: real := 40.0
  const LayerGap: real := 140.0
  const ItemGap: real := 24.0

  /** A node or a group as the layout sees it: its key and its box. */
  datatype Item = Item(key: Selectable, x: real, y: real, w: real, h: real)

  /** One link between two existing items, as an arc of the layout graph. */
  datatype Arc = Arc(src: Selectable, dst: Selectable)

  function NodeItem(n: Node): Item {
    Item(Selectable(NodeKind, n.id), n.x, n.y, n.w, n.h)
  }

  function GroupItem(g: Group): Item {
    Item(Selectable(GroupKind, g.id), g.x, g.y, g.w, g.h)
  }

  /** The items in the order the layout visits them: nodes, then groups. */
  function Items(nodes: seq<Node>, groups: seq<Group>): (r: seq<Item>)
    ensures |r| == |nodes| + |groups|
    ensures forall i :: 0 <= i < |nodes| ==> r[i] == NodeItem(nodes[i])
    ensures forall i :: 0 <= i < |groups| ==> r[|nodes| + i] == GroupItem(groups[i])
  {
    seq(|nodes|, i requires 0 <= i < |nodes| => NodeItem(nodes[i]))
      + seq(|groups|, i requires 0 <= i < |groups| => GroupItem(groups[i]))
  }

  function KeySet(items: seq<Item>): set<Selectable> {
    set it | it in items :: it.key
  }

  /** No two items share a key. */
  predicate UniqueKeys(items: seq<Item>) {
    forall i, j :: 0 <= i < j < |items| ==> items[i].key != items[j].key
  }

  // ------------------------------------------------------------- the graph

  /** The arcs of the layout graph: the links, in list order, whose two
      ends are both existing items; other links are skipped. */
  function Arcs(links: seq<Link>, keys: set<Selectable>): (r: seq<Arc>)
    ensures forall a :: a in r ==> a.src in keys && a.dst in keys
  {
    if links == [] then []
    else
      var l := links[|links| - 1];
      Arcs(links[..|links| - 1], keys)
        + (if l.from.Target() in keys && l.to.Target() in keys then [Arc(l.from.Target(), l.to.Target())] else [])
  }

  /** The arcs are exactly the links whose two ends are existing items. */
  lemma {:induction false} ArcsOfLinks(links: seq<Link>, keys: set<Selectable>)
    ensures forall l :: l in links && l.from.Target() in keys && l.to.Target() in keys ==>
      Arc(l.from.Target(), l.to.Target()) in Arcs(links, keys)
    ensures forall a :: a in Arcs(links, keys) ==> exists l :: l in links && a == Arc(l.from.Target(), l.to.Target())
  {
    if links != [] {
      var p := links[..|links| - 1];
      ArcsOfLinks(p, keys);
      assert links == p + [links[|links| - 1]];
    }
  }

  lemma {:induction false} ArcsSnoc(links: seq<Link>, l: nat, keys: set<Selectable>)
    requires l < |links|
    ensures Arcs(links[..l + 1], keys) == Arcs(links[..l], keys) +
      (if links[l].from.Target() in keys && links[l].to.Target() in keys
       then [Arc(links[l].from.Target(), links[l].to.Target())] else [])
  {
    assert links[..l + 1][..l] == links[..l];
  }

  /** The successors of u, one per arc and in arc order (adjacency.get(u)). */
  function Succ(arcs: seq<Arc>, u: Selectable): seq<Selectable> {
    if arcs == [] then []
    else
      var a := arcs[|arcs| - 1];
      Succ(arcs[..|arcs| - 1], u) + (if a.src == u then [a.dst] else [])
  }

  lemma {:induction false} SuccMembers(arcs: seq<Arc>, u: Selectable)
    ensures forall t :: t in Succ(arcs, u) <==> Arc(u, t) in arcs
  {
    if arcs != [] {
      var p := arcs[..|arcs| - 1];
      SuccMembers(p, u);
      assert arcs == p + [arcs[|arcs| - 1]];
    }
  }

  /** Appending one arc appends at most one successor and one indegree. */
  lemma {:induction false} ArcSnoc(arcs: seq<Arc>, a: Arc)
    ensures forall u :: Succ(arcs + [a], u) == Succ(arcs, u) + (if a.src == u then [a.dst] else [])
    ensures forall v :: InCount(arcs + [a], v) == InCount(arcs, v) + (if a.dst == v then 1 else 0)
  {
    assert (arcs + [a])[..|arcs|] == arcs;
  }

  /** The number of arcs into v (the initial indegree). */
  function InCount(arcs: seq<Arc>, v: Selectable): nat {
    if arcs == [] then 0
    else InCount(arcs[..|arcs| - 1], v) + (if arcs[|arcs| - 1].dst == v then 1 else 0)
  }

  /** The number of arcs into v whose source is in d. */
  function InFrom(arcs: seq<Arc>, d: set<Selectable>, v: Selectable): nat {
    if arcs == [] then 0
    else
      var a := arcs[|arcs| - 1];
      InFrom(arcs[..|arcs| - 1], d, v) + (if a.dst == v && a.src in d then 1 else 0)
  }

  /** The number of arcs from u to v. */
  function ArcCount(arcs: seq<Arc>, u: Selectable, v: Selectable): nat {
    if arcs == [] then 0
    else ArcCount(arcs[..|arcs| - 1], u, v) + (if arcs[|arcs| - 1] == Arc(u, v) then 1 else 0)
  }

  /** The number of occurrences of v in s. */
  function Occ(s: seq<Selectable>, v: Selectable): nat {
    if s == [] then 0
    else Occ(s[..|s| - 1], v) + (if s[|s| - 1] == v then 1 else 0)
  }

  /** A set of items has a source: a member no arc from the set points to. */
  predicate HasSource(arcs: seq<Arc>, s: set<Selectable>) {
    exists v :: v in s && forall a :: a in arcs && a.dst == v ==> a.src !in s
  }

  /** The graph over keys has no cycle: every nonempty set of keys has a
      source (a cycle would be a nonempty set without one). */
  predicate Acyclic(arcs: seq<Arc>, keys: set<Selectable>) {
    forall s :: s <= keys && s != {} ==> HasSource(arcs, s)
  }

  /** A self-loop or a pair of opposite arcs is a cycle. */
  lemma {:induction false} CycleNotAcyclic(arcs: seq<Arc>, keys: set<Selectable>, u: Selectable, v: Selectable)
    requires u in keys && v in keys
    requires Arc(u, v) in arcs && Arc(v, u) in arcs
    ensures !Acyclic(arcs, keys)
  {
    var s := {u, v};
    assert s <= keys && s != {};
    assert !HasSource(arcs, s) by {
      forall w | w in s
        ensures exists a :: a in arcs && a.dst == w && a.src in s
      {
        if w == u {
          assert Arc(v, u) in arcs;
        } else {
          assert Arc(u, v) in arcs;
        }
      }
    }
    assert !(s <= keys && s != {} ==> HasSource(arcs, s));
  }

  lemma {:induction false} SuccOcc(arcs: seq<Arc>, u: Selectable, v: Selectable)
    ensures Occ(Succ(arcs, u), v) == ArcCount(arcs, u, v)
  {
    if arcs != [] {
      var a := arcs[|arcs| - 1];
      SuccOcc(arcs[..|arcs| - 1], u, v);
      var s := Succ(arcs[..|arcs| - 1], u);
      if a.src == u {
        assert (s + [a.dst])[..|s|] == s;
        assert Occ(s + [a.dst], v) == Occ(s, v) + (if a.dst == v then 1 else 0);
      } else {
        assert Succ(arcs, u) == s;
      }
    }
  }

  /** Counting the arcs from one more source. */
  lemma {:induction false} InFromAdd(arcs: seq<Arc>, d: set<Selectable>, c: Selectable, v: Selectable)
    requires c !in d
    ensures InFrom(arcs, d + {c}, v) == InFrom(arcs, d, v) + ArcCount(arcs, c, v)
  {
    if arcs != [] {
      InFromAdd(arcs[..|arcs| - 1], d, c, v);
    }
  }

  lemma {:induction false} InFromNone(arcs: seq<Arc>, v: Selectable)
    ensures InFrom(arcs, {}, v) == 0
  {
    if arcs != [] {
      InFromNone(arcs[..|arcs| - 1], v);
    }
  }

  lemma {:induction false} InFromAtMost(arcs: seq<Arc>, d: set<Selectable>, v: Selectable)
    ensures InFrom(arcs, d, v) <= InCount(arcs, v)
  {
    if arcs != [] {
      InFromAtMost(arcs[..|arcs| - 1], d, v);
    }
  }

  /** When every arc into v comes from d, all of v's indegree is counted. */
  lemma {:induction false} InFromAll(arcs: seq<Arc>, d: set<Selectable>, v: Selectable)
    requires forall a :: a in arcs && a.dst == v ==> a.src in d
    ensures InFrom(arcs, d, v) == InCount(arcs, v)
  {
    if arcs != [] {
      var p := arcs[..|arcs| - 1];
      assert forall a :: a in p ==> a in arcs;
      InFromAll(p, d, v);
    }
  }

  lemma {:induction false} InCountZero(arcs: seq<Arc>, v: Selectable)
    requires InCount(arcs, v) == 0
    ensures forall a :: a in arcs ==> a.dst != v
  {
    if arcs != [] {
      var p := arcs[..|arcs| - 1];
      InCountZero(p, v);
      assert arcs == p + [arcs[|arcs| - 1]];
    }
  }

  lemma {:induction false} OccPrefix(s: seq<Selectable>, j: nat, v: Selectable)
    requires j < |s|
    ensures Occ(s[..j + 1], v) == Occ(s[..j], v) + (if s[j] == v then 1 else 0)
    ensures Occ(s[..j + 1], v) <= Occ(s, v)
  {
    assert s[..j + 1][..j] == s[..j];
    OccMonotone(s, j + 1, v);
  }

  lemma {:induction false} OccMonotone(s: seq<Selectable>, k: nat, v: Selectable)
    requires k <= |s|
    ensures Occ(s[..k], v) <= Occ(s, v)
  {
    if k < |s| {
      var p := s[..|s| - 1];
      assert s[..k] == p[..k];
      OccMonotone(p, k, v);
    } else {
      assert s[..k] == s;
    }
  }

  /** An acyclic graph cannot stop with a key left undone when every key
      whose arcs all come from the done set is done. */
  lemma {:induction false} Drained(arcs: seq<Arc>, keys: set<Selectable>, done: set<Selectable>)
    requires Acyclic(arcs, keys)
    requires forall a :: a in arcs ==> a.src in keys && a.dst in keys
    requires done <= keys
    requires forall v :: v in keys && InFrom(arcs, done, v) == InCount(arcs, v) ==> v in done
    ensures keys <= done
  {
    var rest := keys - done;
    if rest != {} {
      assert rest <= keys;
      assert HasSource(arcs, rest);
      var v :| v in rest && (forall a :: a in arcs && a.dst == v ==> a.src !in rest);
      InFromAll(arcs, done, v);
      assert false;
    }
    forall k | k in keys
      ensures k in done
    {
      assert k !in rest;
    }
  }

  // --------------------------------------------------- building the graph

  function ItemKeys(items: seq<Item>): (r: seq<Selectable>)
    ensures |r| == |items| && forall i :: 0 <= i < |items| ==> r[i] == items[i].key
  {
    seq(|items|, i requires 0 <= i < |items| => items[i].key)
  }

  /** The distinct elements of s in the order they first appear: the key
      order of a Map that is set once per element (setting a key again keeps
      its position). */
  function FirstOccurrences(s: seq<Selectable>): (r: seq<Selectable>)
    ensures forall k :: k in r <==> k in s
    ensures forall i, j :: 0 <= i < j < |r| ==> r[i] != r[j]
  {
    if s == [] then []
    else
      var r := FirstOccurrences(s[..|s| - 1]);
      if s[|s| - 1] in r then r else r + [s[|s| - 1]]
  }

  /** items.forEach: an empty adjacency list and a zero indegree per key. */
  method RegisterKeys(items: seq<Item>)
    returns (order: seq<Selectable>, adjacency: map<Selectable, seq<Selectable>>, indegree: map<Selectable, int>)
    ensures order == FirstOccurrences(ItemKeys(items))
    ensures forall k :: k in order <==> k in KeySet(items)
    ensures forall k :: k in adjacency <==> k in KeySet(items)
    ensures forall k :: k in indegree <==> k in KeySet(items)
    ensures forall u :: u in adjacency ==> adjacency[u] == []
    ensures forall v :: v in indegree ==> indegree[v] == 0
  {
    order, adjacency, indegree := [], map[], map[];
    var i := 0;
    while i < |items|
      invariant 0 <= i <= |items|
      invariant order == FirstOccurrences(ItemKeys(items[..i]))
      invariant forall k :: k in adjacency <==> k in order
      invariant forall k :: k in indegree <==> k in order
      invariant forall u :: u in adjacency ==> adjacency[u] == []
      invariant forall v :: v in indegree ==> indegree[v] == 0
    {
      var key := items[i].key;
      RegisterStep(items, i);
      assert key in adjacency <==> key in order;
      if key !in adjacency {
        order := order + [key];
      }
      adjacency := adjacency[key := []];
      indegree := indegree[key := 0];
      i := i + 1;
    }
    assert items[..i] == items;
    KeyOrder(items);
  }

  /** One more item: its key joins the first-occurrence order when it is
      new. */
  lemma {:induction false} RegisterStep(items: seq<Item>, i: nat)
    requires i < |items|
    ensures FirstOccurrences(ItemKeys(items[..i + 1]))
         == if items[i].key in FirstOccurrences(ItemKeys(items[..i])) then FirstOccurrences(ItemKeys(items[..i]))
            else FirstOccurrences(ItemKeys(items[..i])) + [items[i].key]
  {
    assert items[..i + 1] == items[..i] + [items[i]];
    assert ItemKeys(items[..i + 1])[..i] == ItemKeys(items[..i]);
  }

  /** adjacency and indegree hold, for every key, its successors and its
      number of arcs in. */
  ghost predicate GraphOf(arcs: seq<Arc>, keys: set<Selectable>,
                          adjacency: map<Selectable, seq<Selectable>>, indegree: map<Selectable, int>)
  {
    && (forall k :: k in adjacency <==> k in keys)
    && (forall k :: k in indegree <==> k in keys)
    && (forall u :: u in adjacency ==> adjacency[u] == Succ(arcs, u))
    && (forall v :: v in indegree ==> indegree[v] == InCount(arcs, v))
  }

  lemma {:induction false} GraphStep(arcs: seq<Arc>, keys: set<Selectable>,
                  adjacency: map<Selectable, seq<Selectable>>, indegree: map<Selectable, int>,
                  fromKey: Selectable, toKey: Selectable)
    requires GraphOf(arcs, keys, adjacency, indegree) && fromKey in keys && toKey in keys
    ensures GraphOf(arcs + [Arc(fromKey, toKey)], keys,
                    adjacency[fromKey := adjacency[fromKey] + [toKey]], indegree[toKey := indegree[toKey] + 1])
  {
    ArcSnoc(arcs, Arc(fromKey, toKey));
  }

  /** links.forEach: a link between two existing items appends its target
      to its source's list and raises the target's indegree. */
  method AddArcs(links: seq<Link>, ghost keys: set<Selectable>,
                 adjacency0: map<Selectable, seq<Selectable>>, indegree0: map<Selectable, int>)
    returns (adjacency: map<Selectable, seq<Selectable>>, indegree: map<Selectable, int>)
    requires forall k :: k in adjacency0 <==> k in keys
    requires forall k :: k in indegree0 <==> k in keys
    requires forall u :: u in adjacency0 ==> adjacency0[u] == []
    requires forall v :: v in indegree0 ==> indegree0[v] == 0
    ensures GraphOf(Arcs(links, keys), keys, adjacency, indegree)
  {
    adjacency, indegree := adjacency0, indegree0;
    ghost var arcs: seq<Arc> := [];
    var l := 0;
    while l < |links|
      invariant 0 <= l <= |links|
      invariant arcs == Arcs(links[..l], keys)
      invariant GraphOf(arcs, keys, adjacency, indegree)
    {
      var link := links[l];
      ArcsSnoc(links, l, keys);
      var fromKey := link.from.Target();
      var toKey := link.to.Target();
      if fromKey in adjacency && toKey in adjacency {
        GraphStep(arcs, keys, adjacency, indegree, fromKey, toKey);
        adjacency := adjacency[fromKey := adjacency[fromKey] + [toKey]];
        indegree := indegree[toKey := indegree[toKey] + 1];
        arcs := arcs + [Arc(fromKey, toKey)];
        assert GraphOf(arcs, keys, adjacency, indegree);
      }
      assert arcs == Arcs(links[..l + 1], keys);
      l := l + 1;
    }
    assert links[..l] == links;
  }

  /** The keys whose indegree is zero, in key order: the initial queue. */
  function ZeroIndegree(order: seq<Selectable>, indegree: map<Selectable, int>): (r: seq<Selectable>)
    requires forall k :: k in order ==> k in indegree
    ensures forall k :: k in r <==> k in order && indegree[k] == 0
    ensures (forall i, j :: 0 <= i < j < |order| ==> order[i] != order[j]) ==>
      forall i, j :: 0 <= i < j < |r| ==> r[i] != r[j]
  {
    if order == [] then []
    else
      var rest := ZeroIndegree(order[1..], indegree);
      if indegree[order[0]] == 0 then [order[0]] + rest else rest
  }

  /** levels.get(k) ?? 0 */
  function LevelOf(levels: map<Selectable, int>, k: Selectable): int {
    if k in levels then levels[k] else 0
  }

  /** The indegree bookkeeping: a key's indegree counts its arcs from keys
      not in `counted`, less the `pending` successors already visited, and is
      zero exactly for the keys in `zero` and the queued ones. */
  ghost predicate Counted(arcs: seq<Arc>, keys: set<Selectable>, indegree: map<Selectable, int>,
                          counted: set<Selectable>, pending: seq<Selectable>,
                          zero: set<Selectable>, queue: seq<Selectable>)
  {
    && (forall k :: k in indegree <==> k in keys)
    && (forall v :: v in keys ==> indegree[v] == InCount(arcs, v) - InFrom(arcs, counted, v) - Occ(pending, v))
    && (forall v :: v in keys ==> (v in zero || v in queue <==> indegree[v] == 0))
  }

  /** Every stored level is at least 1 and belongs to a key with an arc in. */
  ghost predicate LevelsReached(arcs: seq<Arc>, keys: set<Selectable>, levels: map<Selectable, int>) {
    forall v :: v in levels ==> v in keys && levels[v] >= 1 && InCount(arcs, v) > 0
  }

  /** The queue holds distinct keys, none of them done or current. */
  ghost predicate QueueFresh(queue: seq<Selectable>, keys: set<Selectable>, done: set<Selectable>, key: Selectable) {
    && (forall a, b :: 0 <= a < b < |queue| ==> queue[a] != queue[b])
    && (forall v :: v in queue ==> v in keys && v !in done && v != key)
  }

  /** The levels of the done keys and the current key have not moved. */
  ghost predicate Frozen(levels: map<Selectable, int>, levels0: map<Selectable, int>,
                         done: set<Selectable>, key: Selectable) {
    forall v :: v in done || v == key ==> LevelOf(levels, v) == LevelOf(levels0, v)
  }

  /** No level has gone down or disappeared. */
  ghost predicate Grown(levels: map<Selectable, int>, levels0: map<Selectable, int>) {
    forall v :: v in levels0 ==> v in levels && levels[v] >= levels0[v]
  }

  /** Every key in ts has a level above `level`. */
  ghost predicate Raised(levels: map<Selectable, int>, ts: seq<Selectable>, level: int) {
    forall t :: t in ts ==> t in levels && levels[t] >= level + 1
  }

  /** Visiting the j-th successor keeps the indegree bookkeeping: the
      successor still has an unvisited arc in, so it is neither done, nor
      current, nor queued, and its indegree is positive. */
  lemma {:induction false} NextKnown(arcs: seq<Arc>, keys: set<Selectable>, indegree: map<Selectable, int>,
                  done: set<Selectable>, key: Selectable, neighbors: seq<Selectable>, j: nat, queue: seq<Selectable>)
    requires j < |neighbors| && neighbors == Succ(arcs, key) && key !in done
    requires forall a :: a in arcs ==> a.src in keys && a.dst in keys
    requires Counted(arcs, keys, indegree, done, neighbors[..j], done + {key}, queue)
    requires QueueFresh(queue, keys, done, key)
    ensures neighbors[j] in keys && neighbors[j] !in done && neighbors[j] != key && neighbors[j] !in queue
    ensures neighbors[j] in indegree && indegree[neighbors[j]] >= 1 && InCount(arcs, neighbors[j]) > 0
  {
    var next := neighbors[j];
    SuccMembers(arcs, key);
    assert Arc(key, next) in arcs;
    OccPrefix(neighbors, j, next);
    SuccOcc(arcs, key, next);
    InFromAdd(arcs, done, key, next);
    InFromAtMost(arcs, done + {key}, next);
  }

  /** Counting the arc to the j-th successor: its in-degree drops by one
      and it joins the queue when that reaches zero. */
  lemma {:induction false} CountStep(arcs: seq<Arc>, keys: set<Selectable>, indegree: map<Selectable, int>,
                  done: set<Selectable>, key: Selectable, neighbors: seq<Selectable>, j: nat, queue: seq<Selectable>,
                  indegree': map<Selectable, int>, queue': seq<Selectable>)
    requires j < |neighbors| && key !in done
    requires Counted(arcs, keys, indegree, done, neighbors[..j], done + {key}, queue)
    requires QueueFresh(queue, keys, done, key)
    requires neighbors[j] in keys && neighbors[j] !in done && neighbors[j] != key && neighbors[j] !in queue
    requires neighbors[j] in indegree
    requires indegree' == indegree[neighbors[j] := indegree[neighbors[j]] - 1]
    requires queue' == if indegree'[neighbors[j]] == 0 then queue + [neighbors[j]] else queue
    ensures Counted(arcs, keys, indegree', done, neighbors[..j + 1], done + {key}, queue')
    ensures QueueFresh(queue', keys, done, key)
  {
    forall v | v in keys
      ensures indegree'[v] == InCount(arcs, v) - InFrom(arcs, done, v) - Occ(neighbors[..j + 1], v)
    {
      OccPrefix(neighbors, j, v);
    }
  }

  /** Math.max(current, level + 1): the level a successor takes. */
  function Lifted(current: int, level: int): int {
    if current >= level + 1 then current else level + 1
  }

  /** Every stored level is exactly one above the level of some done key
      with an arc to it. */
  ghost predicate Tight(arcs: seq<Arc>, done: set<Selectable>, levels: map<Selectable, int>) {
    forall v :: v in levels ==>
      exists a :: a in arcs && a.dst == v && a.src in done && levels[v] == LevelOf(levels, a.src) + 1
  }

  /** The successors visited so far have level max(old, level + 1); every
      other key's level is as it was. */
  ghost predicate LiftedSoFar(levels: map<Selectable, int>, levels0: map<Selectable, int>,
                              ts: seq<Selectable>, level: int) {
    && (forall t :: t in ts ==> t in levels && levels[t] == Lifted(LevelOf(levels0, t), level))
    && (forall v :: v !in ts ==> (v in levels <==> v in levels0) && LevelOf(levels, v) == LevelOf(levels0, v))
  }

  /** Raising the j-th successor from the current key keeps the levels
      tight: the raised level is one above the current key's. */
  lemma {:induction false} TightStep(arcs: seq<Arc>, levels: map<Selectable, int>, levels0: map<Selectable, int>,
                  done: set<Selectable>, key: Selectable, level: int, next: Selectable,
                  levels': map<Selectable, int>)
    requires Arc(key, next) in arcs && next !in done && next != key
    requires level >= 0 && level == LevelOf(levels0, key) && Frozen(levels, levels0, done, key)
    requires Tight(arcs, done + {key}, levels)
    requires levels' == levels[next := Lifted(LevelOf(levels, next), level)]
    ensures Tight(arcs, done + {key}, levels')
  {
    forall v | v in levels'
      ensures exists a :: a in arcs && a.dst == v && a.src in done + {key} && levels'[v] == LevelOf(levels', a.src) + 1
    {
      if v == next && LevelOf(levels, next) < level + 1 {
        assert LevelOf(levels', key) == level;
        assert levels'[v] == LevelOf(levels', Arc(key, next).src) + 1;
      } else {
        assert v in levels;
        var a :| a in arcs && a.dst == v && a.src in done + {key} && levels[v] == LevelOf(levels, a.src) + 1;
        assert LevelOf(levels', a.src) == LevelOf(levels, a.src);
      }
    }
  }

  /** Raising the j-th successor keeps the visited successors lifted and
      the others as they were. */
  lemma {:induction false} LiftStep(levels: map<Selectable, int>, levels0: map<Selectable, int>,
                  level: int, neighbors: seq<Selectable>, j: nat, levels': map<Selectable, int>)
    requires j < |neighbors|
    requires LiftedSoFar(levels, levels0, neighbors[..j], level)
    requires levels' == levels[neighbors[j] := Lifted(LevelOf(levels, neighbors[j]), level)]
    ensures LiftedSoFar(levels', levels0, neighbors[..j + 1], level)
  {
    assert neighbors[..j + 1] == neighbors[..j] + [neighbors[j]];
  }

  /** Every key of `order` with a stored level is exactly one above the
      level of some key with an arc to it. */
  ghost predicate OneAbove(arcs: seq<Arc>, order: seq<Selectable>, levels: map<Selectable, int>) {
    forall i :: 0 <= i < |order| && order[i] in levels ==>
      exists j :: 0 <= j < |arcs| && arcs[j].dst == order[i] && levels[order[i]] == LevelOf(levels, arcs[j].src) + 1
  }

  lemma {:induction false} TightOneAbove(arcs: seq<Arc>, done: set<Selectable>, order: seq<Selectable>,
                                         levels: map<Selectable, int>)
    requires Tight(arcs, done, levels)
    ensures OneAbove(arcs, order, levels)
  {
    forall i | 0 <= i < |order| && order[i] in levels
      ensures exists j :: 0 <= j < |arcs| && arcs[j].dst == order[i] && levels[order[i]] == LevelOf(levels, arcs[j].src) + 1
    {
      var v := order[i];
      var a :| a in arcs && a.dst == v && a.src in done && levels[v] == LevelOf(levels, a.src) + 1;
      var j :| 0 <= j < |arcs| && arcs[j] == a;
    }
  }

  /** A level tight over some done keys stays tight as more keys are done. */
  lemma {:induction false} TightGrows(arcs: seq<Arc>, done: set<Selectable>, done': set<Selectable>,
                                      levels: map<Selectable, int>)
    requires Tight(arcs, done, levels) && done <= done'
    ensures Tight(arcs, done', levels)
  {
    forall v | v in levels
      ensures exists a :: a in arcs && a.dst == v && a.src in done' && levels[v] == LevelOf(levels, a.src) + 1
    {
      var a :| a in arcs && a.dst == v && a.src in done && levels[v] == LevelOf(levels, a.src) + 1;
    }
  }

  /** Raising the j-th successor's level keeps the level invariants. */
  lemma {:induction false} LevelStep(arcs: seq<Arc>, keys: set<Selectable>, levels: map<Selectable, int>, levels0: map<Selectable, int>,
                  done: set<Selectable>, key: Selectable, level: int, neighbors: seq<Selectable>, j: nat,
                  levels': map<Selectable, int>)
    requires j < |neighbors| && level >= 0
    requires neighbors[j] in keys && InCount(arcs, neighbors[j]) > 0 && neighbors[j] !in done && neighbors[j] != key
    requires LevelsReached(arcs, keys, levels) && Frozen(levels, levels0, done, key) && Grown(levels, levels0)
    requires Raised(levels, neighbors[..j], level)
    requires levels' == levels[neighbors[j] := Lifted(LevelOf(levels, neighbors[j]), level)]
    ensures LevelsReached(arcs, keys, levels') && Frozen(levels', levels0, done, key) && Grown(levels', levels0)
    ensures Raised(levels', neighbors[..j + 1], level)
  {
    assert neighbors[..j + 1] == neighbors[..j] + [neighbors[j]];
  }

  /** Once every successor is visited, the current key counts as done. */
  lemma {:induction false} CountFinish(arcs: seq<Arc>, keys: set<Selectable>, indegree: map<Selectable, int>,
                    done: set<Selectable>, key: Selectable, neighbors: seq<Selectable>, queue: seq<Selectable>)
    requires neighbors == Succ(arcs, key) && key !in done
    requires Counted(arcs, keys, indegree, done, neighbors, done + {key}, queue)
    ensures Counted(arcs, keys, indegree, done + {key}, [], done + {key}, queue)
  {
    forall v | v in keys
      ensures indegree[v] == InCount(arcs, v) - InFrom(arcs, done + {key}, v) - Occ([], v)
    {
      SuccOcc(arcs, key, v);
      InFromAdd(arcs, done, key, v);
    }
  }

  /** neighbors.forEach for the key just taken from the queue: each
      successor's level becomes max(its level, level + 1), and every other
      level stays; each successor's indegree drops by one, and a successor
      whose indegree reaches zero joins the queue. */
  method Relax(key: Selectable, level: int, neighbors: seq<Selectable>,
               indegree0: map<Selectable, int>, levels0: map<Selectable, int>, queue0: seq<Selectable>,
               ghost arcs: seq<Arc>, ghost keys: set<Selectable>, ghost done: set<Selectable>)
    returns (indegree: map<Selectable, int>, levels: map<Selectable, int>, queue: seq<Selectable>)
    requires level >= 0 && neighbors == Succ(arcs, key)
    requires forall a :: a in arcs ==> a.src in keys && a.dst in keys
    requires key in keys && key !in done
    requires QueueFresh(queue0, keys, done, key)
    requires Counted(arcs, keys, indegree0, done, [], done + {key}, queue0)
    requires LevelsReached(arcs, keys, levels0)
    requires level == LevelOf(levels0, key) && Tight(arcs, done, levels0)
    ensures LiftedSoFar(levels, levels0, neighbors, level)
    ensures Tight(arcs, done + {key}, levels)
    ensures QueueFresh(queue, keys, done, key)
    ensures Counted(arcs, keys, indegree, done + {key}, [], done + {key}, queue)
    ensures LevelsReached(arcs, keys, levels)
    ensures Frozen(levels, levels0, done, key) && Grown(levels, levels0)
    ensures Raised(levels, neighbors, level)
  {
    indegree, levels, queue := indegree0, levels0, queue0;
    assert neighbors[..0] == [];
    TightGrows(arcs, done, done + {key}, levels0);
    var j := 0;
    while j < |neighbors|
      invariant 0 <= j <= |neighbors|
      invariant LiftedSoFar(levels, levels0, neighbors[..j], level)
      invariant Tight(arcs, done + {key}, levels)
      invariant QueueFresh(queue, keys, done, key)
      invariant Counted(arcs, keys, indegree, done, neighbors[..j], done + {key}, queue)
      invariant LevelsReached(arcs, keys, levels)
      invariant Frozen(levels, levels0, done, key) && Grown(levels, levels0)
      invariant Raised(levels, neighbors[..j], level)
    {
      NextKnown(arcs, keys, indegree, done, key, neighbors, j, queue);
      ghost var indegreeBefore, levelsBefore, queueBefore := indegree, levels, queue;
      var next := neighbors[j];
      levels := levels[next := Lifted(LevelOf(levels, next), level)];
      indegree := indegree[next := indegree[next] - 1];
      queue := if indegree[next] == 0 then queue + [next] else queue;
      CountStep(arcs, keys, indegreeBefore, done, key, neighbors, j, queueBefore, indegree, queue);
      LevelStep(arcs, keys, levelsBefore, levels0, done, key, level, neighbors, j, levels);
      SuccMembers(arcs, key);
      TightStep(arcs, levelsBefore, levels0, done, key, level, next, levels);
      LiftStep(levelsBefore, levels0, level, neighbors, j, levels);
      j := j + 1;
    }
    assert neighbors[..j] == neighbors;
    CountFinish(arcs, keys, indegree, done, key, neighbors, queue);
  }

  /** The arcs out of the done keys all climb by at least one level. */
  ghost predicate Climbs(arcs: seq<Arc>, done: set<Selectable>, levels: map<Selectable, int>) {
    forall a :: a in arcs && a.src in done ==> a.dst in levels && levels[a.dst] >= LevelOf(levels, a.src) + 1
  }

  /** Taking one more key off the queue keeps the arcs out of done climbing. */
  lemma {:induction false} ClimbStep(arcs: seq<Arc>, done: set<Selectable>, key: Selectable,
                  levels0: map<Selectable, int>, levels: map<Selectable, int>)
    requires Climbs(arcs, done, levels0)
    requires Frozen(levels, levels0, done, key) && Grown(levels, levels0)
    requires Raised(levels, Succ(arcs, key), LevelOf(levels0, key))
    ensures Climbs(arcs, done + {key}, levels)
  {
    SuccMembers(arcs, key);
    forall a | a in arcs && a.src in done + {key}
      ensures a.dst in levels && levels[a.dst] >= LevelOf(levels, a.src) + 1
    {
      if a.src == key {
        assert a.dst in Succ(arcs, key);
      }
    }
  }

  /** The state of the breadth-first pass between two keys. */
  ghost predicate KahnState(arcs: seq<Arc>, keys: set<Selectable>, indegree: map<Selectable, int>,
                            levels: map<Selectable, int>, done: set<Selectable>, queue: seq<Selectable>)
  {
    && done <= keys
    && (forall a, b :: 0 <= a < b < |queue| ==> queue[a] != queue[b])
    && (forall v :: v in queue ==> v in keys && v !in done)
    && Counted(arcs, keys, indegree, done, [], done, queue)
    && LevelsReached(arcs, keys, levels)
    && Climbs(arcs, done, levels)
  }

  /** Before the first key: nothing done, the zero-indegree keys queued. */
  lemma {:induction false} KahnStart(arcs: seq<Arc>, keys: set<Selectable>, order: seq<Selectable>, indegree: map<Selectable, int>)
    requires forall i, j :: 0 <= i < j < |order| ==> order[i] != order[j]
    requires forall k :: k in order <==> k in keys
    requires forall k :: k in indegree <==> k in keys
    requires forall v :: v in indegree ==> indegree[v] == InCount(arcs, v)
    ensures KahnState(arcs, keys, indegree, map[], {}, ZeroIndegree(order, indegree))
  {
    forall v | v in keys
      ensures indegree[v] == InCount(arcs, v) - InFrom(arcs, {}, v) - Occ([], v)
    {
      InFromNone(arcs, v);
    }
  }

  /** queue.shift(): the key taken off the front becomes the current key. */
  lemma {:induction false} PopKey(arcs: seq<Arc>, keys: set<Selectable>, indegree: map<Selectable, int>,
               levels: map<Selectable, int>, done: set<Selectable>, queue: seq<Selectable>)
    requires |queue| > 0
    requires KahnState(arcs, keys, indegree, levels, done, queue)
    ensures queue[0] in keys && queue[0] !in done && LevelOf(levels, queue[0]) >= 0
    ensures QueueFresh(queue[1..], keys, done, queue[0])
    ensures Counted(arcs, keys, indegree, done, [], done + {queue[0]}, queue[1..])
    ensures LevelsReached(arcs, keys, levels)
  {
    assert queue == [queue[0]] + queue[1..];
    forall v | v in queue[1..]
      ensures v != queue[0]
    {
      var i :| 0 <= i < |queue[1..]| && queue[1..][i] == v;
      assert queue[i + 1] == v;
    }
  }

  /** After the current key's successors are visited, it joins the done set
      and the state holds again, with one key fewer left to do. */
  lemma {:induction false} KahnStep(arcs: seq<Arc>, keys: set<Selectable>, done: set<Selectable>, key: Selectable,
                 levels0: map<Selectable, int>, indegree: map<Selectable, int>,
                 levels: map<Selectable, int>, queue: seq<Selectable>)
    requires key in keys && key !in done && done <= keys
    requires Climbs(arcs, done, levels0)
    requires QueueFresh(queue, keys, done, key)
    requires Counted(arcs, keys, indegree, done + {key}, [], done + {key}, queue)
    requires LevelsReached(arcs, keys, levels)
    requires Frozen(levels, levels0, done, key) && Grown(levels, levels0)
    requires Raised(levels, Succ(arcs, key), LevelOf(levels0, key))
    ensures KahnState(arcs, keys, indegree, levels, done + {key}, queue)
    ensures |keys - (done + {key})| < |keys - done|
  {
    ClimbStep(arcs, done, key, levels0, levels);
    assert keys - done == (keys - (done + {key})) + {key};
  }

  /** With the queue empty, a key whose arcs all come from done keys has
      indegree zero, so it is done; for an acyclic graph every key is done
      and every arc climbs. */
  lemma {:induction false} KahnEnd(arcs: seq<Arc>, keys: set<Selectable>, indegree: map<Selectable, int>,
                levels: map<Selectable, int>, done: set<Selectable>)
    requires forall a :: a in arcs ==> a.src in keys && a.dst in keys
    requires KahnState(arcs, keys, indegree, levels, done, [])
    ensures forall v :: v in levels ==> v in keys && levels[v] >= 1 && InCount(arcs, v) > 0
    ensures Acyclic(arcs, keys) ==>
      forall a :: a in arcs ==> a.dst in levels && levels[a.dst] >= LevelOf(levels, a.src) + 1
  {
    if Acyclic(arcs, keys) {
      Drained(arcs, keys, done);
    }
  }

  /** The breadth-first pass: keys leave the queue in order, every
      successor's level is raised to at least one more than the key's, and
      a successor whose indegree drops to zero joins the queue. Keys on or
      behind a cycle never join it. */
  method AssignLevels(order: seq<Selectable>, adjacency: map<Selectable, seq<Selectable>>,
                      indegree0: map<Selectable, int>, ghost keys: set<Selectable>, ghost arcs: seq<Arc>)
    returns (levels: map<Selectable, int>)
    requires forall i, j :: 0 <= i < j < |order| ==> order[i] != order[j]
    requires forall k :: k in order <==> k in keys
    requires forall a :: a in arcs ==> a.src in keys && a.dst in keys
    requires forall k :: k in adjacency <==> k in keys
    requires forall k :: k in indegree0 <==> k in keys
    requires forall u :: u in adjacency ==> adjacency[u] == Succ(arcs, u)
    requires forall v :: v in indegree0 ==> indegree0[v] == InCount(arcs, v)
    ensures forall v :: v in levels ==> v in keys && levels[v] >= 1 && InCount(arcs, v) > 0
    ensures OneAbove(arcs, order, levels)
    ensures Acyclic(arcs, keys) ==>
      forall a :: a in arcs ==> a.dst in levels && levels[a.dst] >= LevelOf(levels, a.src) + 1
  {
    var indegree := indegree0;
    levels := map[];
    var queue := ZeroIndegree(order, indegree);
    ghost var done: set<Selectable> := {};
    KahnStart(arcs, keys, order, indegree);
    while |queue| > 0
      invariant KahnState(arcs, keys, indegree, levels, done, queue) && Tight(arcs, done, levels)
      decreases |keys - done|
    {
      indegree, levels, queue, done := Visit(adjacency, indegree, levels, queue, arcs, keys, done);
    }
    KahnEnd(arcs, keys, indegree, levels, done);
    TightOneAbove(arcs, done, order, levels);
  }

  /** One turn of the breadth-first pass: the key at the head of the queue
      leaves it, its successors are relaxed, and it joins the done set. */
  method Visit(adjacency: map<Selectable, seq<Selectable>>, indegree0: map<Selectable, int>,
               levels0: map<Selectable, int>, queue0: seq<Selectable>,
               ghost arcs: seq<Arc>, ghost keys: set<Selectable>, ghost done0: set<Selectable>)
    returns (indegree: map<Selectable, int>, levels: map<Selectable, int>, queue: seq<Selectable>,
             ghost done: set<Selectable>)
    requires |queue0| > 0
    requires forall a :: a in arcs ==> a.src in keys && a.dst in keys
    requires forall k :: k in adjacency <==> k in keys
    requires forall u :: u in adjacency ==> adjacency[u] == Succ(arcs, u)
    requires KahnState(arcs, keys, indegree0, levels0, done0, queue0) && Tight(arcs, done0, levels0)
    ensures KahnState(arcs, keys, indegree, levels, done, queue) && Tight(arcs, done, levels)
    ensures done == done0 + {queue0[0]} && |keys - done| < |keys - done0|
  {
    PopKey(arcs, keys, indegree0, levels0, done0, queue0);
    var key := queue0[0];
    var level := LevelOf(levels0, key);
    indegree, levels, queue := Relax(key, level, adjacency[key], indegree0, levels0, queue0[1..], arcs, keys, done0);
    KahnStep(arcs, keys, done0, key, levels0, indegree, levels, queue);
    done := done0 + {key};
  }

  // ------------------------------------------------------ levels to layers

  /** items.forEach: a key the breadth-first pass never reached gets level 0. */
  method FillLevels(items: seq<Item>, levels0: map<Selectable, int>) returns (levels: map<Selectable, int>)
    ensures forall it :: it in items ==> it.key in levels
    ensures forall k :: k in levels0 ==> k in levels && levels[k] == levels0[k]
    ensures forall k :: k in levels ==> k in levels0 || (k in KeySet(items) && levels[k] == 0)
  {
    levels := levels0;
    var i := 0;
    while i < |items|
      invariant 0 <= i <= |items|
      invariant forall j :: 0 <= j < i ==> items[j].key in levels
      invariant forall k :: k in levels0 ==> k in levels && levels[k] == levels0[k]
      invariant forall k :: k in levels ==> k in levels0 || (k in KeySet(items) && levels[k] == 0)
    {
      var key := items[i].key;
      if key !in levels {
        levels := levels[key := 0];
      }
      i := i + 1;
    }
  }

  /** The items on level l, in item order. */
  function AtLevel(items: seq<Item>, levels: map<Selectable, int>, l: int): seq<Item>
    requires forall it :: it in items ==> it.key in levels
  {
    if items == [] then []
    else
      var last := items[|items| - 1];
      AtLevel(items[..|items| - 1], levels, l) + (if levels[last.key] == l then [last] else [])
  }

  lemma {:induction false} AtLevelMembers(items: seq<Item>, levels: map<Selectable, int>, l: int)
    requires forall it :: it in items ==> it.key in levels
    ensures forall it :: it in AtLevel(items, levels, l) <==> it in items && levels[it.key] == l
  {
    if items != [] {
      var p := items[..|items| - 1];
      assert items == p + [items[|items| - 1]];
      AtLevelMembers(p, levels, l);
    }
  }

  /** One more item extends the list of its own level only. */
  lemma {:induction false} AtLevelSnoc(items: seq<Item>, i: nat, levels: map<Selectable, int>)
    requires i < |items|
    requires forall it :: it in items ==> it.key in levels
    ensures forall it :: it in items[..i] ==> it.key in levels
    ensures forall l :: (AtLevel(items[..i + 1], levels, l) ==
      AtLevel(items[..i], levels, l) + (if levels[items[i].key] == l then [items[i]] else []))
  {
    assert items[..i + 1][..i] == items[..i];
    assert forall it :: it in items[..i] ==> it in items;
  }

  /** A level no earlier item has holds no items yet. */
  lemma {:induction false} AtLevelEmpty(items: seq<Item>, levels: map<Selectable, int>, l: int)
    requires forall it :: it in items ==> it.key in levels && levels[it.key] != l
    ensures AtLevel(items, levels, l) == []
  {
    if items != [] {
      var p := items[..|items| - 1];
      assert forall it :: it in p ==> it in items;
      AtLevelEmpty(p, levels, l);
    }
  }

  /** The buckets after the first i items. */
  ghost predicate Bucketed(items: seq<Item>, i: nat, levels: map<Selectable, int>,
                           layerOrder: seq<int>, layers: map<int, seq<Item>>)
    requires i <= |items| && forall it :: it in items ==> it.key in levels
  {
    assert forall it :: it in items[..i] ==> it in items;
    && (forall a, b :: 0 <= a < b < |layerOrder| ==> layerOrder[a] != layerOrder[b])
    && (forall l :: l in layerOrder <==> l in layers)
    && (forall l :: l in layers ==> layers[l] == AtLevel(items[..i], levels, l) && |layers[l]| > 0)
    && (forall j :: 0 <= j < i ==> levels[items[j].key] in layers)
  }

  lemma {:induction false} BucketStep(items: seq<Item>, i: nat, levels: map<Selectable, int>,
                   layerOrder: seq<int>, layers: map<int, seq<Item>>)
    requires i < |items| && forall it :: it in items ==> it.key in levels
    requires Bucketed(items, i, levels, layerOrder, layers)
    ensures var layer := levels[items[i].key];
      if layer in layers then Bucketed(items, i + 1, levels, layerOrder, layers[layer := layers[layer] + [items[i]]])
      else Bucketed(items, i + 1, levels, layerOrder + [layer], layers[layer := [items[i]]])
  {
    AtLevelSnoc(items, i, levels);
    var layer := levels[items[i].key];
    if layer !in layers {
      AtLevelEmpty(items[..i], levels, layer);
    }
  }

  /** items.forEach: each item is pushed onto the list of its level; the
      levels are kept in the order they first appear. */
  method BucketLayers(items: seq<Item>, levels: map<Selectable, int>)
    returns (layerOrder: seq<int>, layers: map<int, seq<Item>>)
    requires forall it :: it in items ==> it.key in levels
    ensures forall a, b :: 0 <= a < b < |layerOrder| ==> layerOrder[a] != layerOrder[b]
    ensures forall l :: l in layerOrder <==> l in layers
    ensures forall l :: l in layers ==> layers[l] == AtLevel(items, levels, l) && |layers[l]| > 0
    ensures forall it :: it in items ==> levels[it.key] in layers
  {
    layerOrder, layers := [], map[];
    var i := 0;
    while i < |items|
      invariant 0 <= i <= |items|
      invariant Bucketed(items, i, levels, layerOrder, layers)
    {
      BucketStep(items, i, levels, layerOrder, layers);
      var item := items[i];
      var layer := levels[item.key];
      if layer in layers {
        layers := layers[layer := layers[layer] + [item]];
      } else {
        layerOrder := layerOrder + [layer];
        layers := layers[layer := [item]];
      }
      i := i + 1;
    }
    assert items[..i] == items;
  }

  // ---------------------------------------------------------------- sorting

  predicate Ascending(s: seq<int>) {
    forall i, j :: 0 <= i < j < |s| ==> s[i] < s[j]
  }

  /** Inserts x into its place in an ascending list without x. */
  function InsertLevel(s: seq<int>, x: int): (r: seq<int>)
    requires Ascending(s) && x !in s
    ensures Ascending(r) && multiset(r) == multiset(s) + multiset{x}
  {
    if s == [] then [x]
    else if s[|s| - 1] < x then
      assert forall y :: y in s ==> y < x by {
        forall y | y in s ensures y < x {
          var i :| 0 <= i < |s| && s[i] == y;
        }
      }
      s + [x]
    else
      var r := InsertLevel(s[..|s| - 1], x);
      InsertLevelBelow(s, x, r);
      r + [s[|s| - 1]]
  }

  /** Inserting x below the last element keeps everything below that element. */
  lemma {:induction false} InsertLevelBelow(s: seq<int>, x: int, r: seq<int>)
    requires |s| > 0 && Ascending(s) && x !in s && x < s[|s| - 1]
    requires Ascending(r) && multiset(r) == multiset(s[..|s| - 1]) + multiset{x}
    ensures Ascending(r + [s[|s| - 1]])
    ensures multiset(r + [s[|s| - 1]]) == multiset(s) + multiset{x}
  {
    var p, last := s[..|s| - 1], s[|s| - 1];
    assert s == p + [last];
    forall y | y in r
      ensures y < last
    {
      assert y in multiset(r);
      assert y in p || y == x;
    }
    forall i | 0 <= i < |r|
      ensures r[i] < last
    {
      assert r[i] in r;
    }
  }

  /** Array.from(layers.keys()).sort((a, b) => a - b) on distinct levels. */
  function SortLevels(s: seq<int>): (r: seq<int>)
    requires forall i, j :: 0 <= i < j < |s| ==> s[i] != s[j]
    ensures Ascending(r) && multiset(r) == multiset(s)
  {
    if s == [] then []
    else
      var p := s[..|s| - 1];
      assert s == p + [s[|s| - 1]];
      var r := SortLevels(p);
      assert s[|s| - 1] !in r by {
        assert s[|s| - 1] !in multiset(p);
      }
      InsertLevel(r, s[|s| - 1])
  }

  /** The comparator of a layer: by y then x for the horizontal layout, by
      x then y for the vertical one; a does not come after b. */
  predicate LexLe(a: Item, b: Item, horizontal: bool) {
    if horizontal then a.y < b.y || (a.y == b.y && a.x <= b.x)
    else a.x < b.x || (a.x == b.x && a.y <= b.y)
  }

  predicate Ordered(s: seq<Item>, horizontal: bool) {
    forall i, j :: 0 <= i < j < |s| ==> LexLe(s[i], s[j], horizontal)
  }

  /** Inserts x after every element that does not come after it. */
  function InsertItem(s: seq<Item>, x: Item, horizontal: bool): (r: seq<Item>)
    requires Ordered(s, horizontal)
    ensures Ordered(r, horizontal) && multiset(r) == multiset(s) + multiset{x}
  {
    if s == [] then [x]
    else if LexLe(s[|s| - 1], x, horizontal) then
      assert forall y :: y in s ==> LexLe(y, x, horizontal) by {
        forall y | y in s ensures LexLe(y, x, horizontal) {
          var i :| 0 <= i < |s| && s[i] == y;
        }
      }
      s + [x]
    else
      var r := InsertItem(s[..|s| - 1], x, horizontal);
      InsertItemBelow(s, x, r, horizontal);
      r + [s[|s| - 1]]
  }

  /** Inserting x before the last element keeps everything ahead of it. */
  lemma {:induction false} InsertItemBelow(s: seq<Item>, x: Item, r: seq<Item>, horizontal: bool)
    requires |s| > 0 && Ordered(s, horizontal) && !LexLe(s[|s| - 1], x, horizontal)
    requires Ordered(r, horizontal) && multiset(r) == multiset(s[..|s| - 1]) + multiset{x}
    ensures Ordered(r + [s[|s| - 1]], horizontal)
    ensures multiset(r + [s[|s| - 1]]) == multiset(s) + multiset{x}
  {
    var p, last := s[..|s| - 1], s[|s| - 1];
    assert s == p + [last];
    forall y | y in r
      ensures LexLe(y, last, horizontal)
    {
      assert y in multiset(r);
      assert y in p || y == x;
    }
    forall i | 0 <= i < |r|
      ensures LexLe(r[i], last, horizontal)
    {
      assert r[i] in r;
    }
  }

  /** layerItems.sort(comparator): a stable insertion sort. */
  function SortLayer(s: seq<Item>, horizontal: bool): (r: seq<Item>)
    ensures Ordered(r, horizontal) && multiset(r) == multiset(s)
  {
    if s == [] then []
    else
      assert s == s[..|s| - 1] + [s[|s| - 1]];
      InsertItem(SortLayer(s[..|s| - 1], horizontal), s[|s| - 1], horizontal)
  }

  /** The items of s at position (x, y), in their order in s: the items the
      comparator cannot tell apart. */
  function At(s: seq<Item>, x: real, y: real): seq<Item> {
    if s == [] then []
    else At(s[..|s| - 1], x, y) + (if s[|s| - 1].x == x && s[|s| - 1].y == y then [s[|s| - 1]] else [])
  }

  /** Inserting x keeps the items tied with any position in their order,
      with x after the ones already there. */
  lemma {:induction false} InsertItemStable(s: seq<Item>, x: Item, horizontal: bool, px: real, py: real)
    requires Ordered(s, horizontal)
    ensures At(InsertItem(s, x, horizontal), px, py) == At(s, px, py) + (if x.x == px && x.y == py then [x] else [])
  {
    if s == [] {
      assert [x][..0] == [];
    } else if LexLe(s[|s| - 1], x, horizontal) {
      AtSnoc(s, x, px, py);
    } else {
      var p, last := s[..|s| - 1], s[|s| - 1];
      assert Ordered(p, horizontal);
      InsertItemStable(p, x, horizontal, px, py);
      InsertBeforeLast(s, x, horizontal, px, py);
    }
  }

  /** Inserting x before the last item leaves that item last. */
  lemma {:induction false} InsertBeforeLast(s: seq<Item>, x: Item, horizontal: bool, px: real, py: real)
    requires Ordered(s, horizontal) && s != [] && !LexLe(s[|s| - 1], x, horizontal)
    requires Ordered(s[..|s| - 1], horizontal)
    requires At(InsertItem(s[..|s| - 1], x, horizontal), px, py)
          == At(s[..|s| - 1], px, py) + (if x.x == px && x.y == py then [x] else [])
    ensures At(InsertItem(s, x, horizontal), px, py) == At(s, px, py) + (if x.x == px && x.y == py then [x] else [])
  {
    var p, last := s[..|s| - 1], s[|s| - 1];
    var r := InsertItem(p, x, horizontal);
    assert InsertItem(s, x, horizontal) == r + [last];
    AtSnoc(r, last, px, py);
    AtSnoc(p, last, px, py);
    assert p + [last] == s;
    // last and x cannot both sit at (px, py), since last comes after x
    assert !(last.x == px && last.y == py && x.x == px && x.y == py);
  }

  lemma {:induction false} AtSnoc(s: seq<Item>, it: Item, px: real, py: real)
    ensures At(s + [it], px, py) == At(s, px, py) + (if it.x == px && it.y == py then [it] else [])
  {
    assert (s + [it])[..|s|] == s;
  }

  /** layerItems.sort is stable: items the comparator ties keep their
      order. */
  lemma {:induction false} SortLayerStable(s: seq<Item>, horizontal: bool, px: real, py: real)
    ensures At(SortLayer(s, horizontal), px, py) == At(s, px, py)
  {
    if s != [] {
      SortLayerStable(s[..|s| - 1], horizontal, px, py);
      InsertItemStable(SortLayer(s[..|s| - 1], horizontal), s[|s| - 1], horizontal, px, py);
    }
  }

  // -------------------------------------------------------------- placement

  /** An item's length along the layer axis (its width when the layers are
      columns) and across it. */
  function Extent(it: Item, horizontal: bool): real {
    if horizontal then it.w else it.h
  }

  function Breadth(it: Item, horizontal: bool): real {
    if horizontal then it.h else it.w
  }

  /** The canvas' length along the layer axis and across it. */
  function Span(horizontal: bool): real {
    if horizontal then CanvasWidth else CanvasHeight
  }

  function CrossSpan(horizontal: bool): real {
    if horizontal then CanvasHeight else CanvasWidth
  }

  /** An item's position along the layer axis and across it. */
  function MainOf(it: Item, horizontal: bool): real {
    if horizontal then it.x else it.y
  }

  function CrossOf(it: Item, horizontal: bool): real {
    if horizontal then it.y else it.x
  }

  /** The position handed to an item at the layer cursor `main` and the
      cursor `cross` across the layer: each coordinate is clamped so that
      the box does not pass the canvas' far edge. */
  function Placement(it: Item, main: real, cross: real, horizontal: bool): Point {
    if horizontal then Point(Clamp(main, 0.0, CanvasWidth - it.w), Clamp(cross, 0.0, CanvasHeight - it.h))
    else Point(Clamp(cross, 0.0, CanvasWidth - it.w), Clamp(main, 0.0, CanvasHeight - it.h))
  }

  /** Math.max over the extents of a nonempty layer. */
  function MaxExtent(layer: seq<Item>, horizontal: bool): (m: real)
    requires |layer| > 0
    ensures forall it :: it in layer ==> Extent(it, horizontal) <= m
  {
    var n := |layer|;
    if n == 1 then Extent(layer[0], horizontal)
    else
      var p := layer[..n - 1];
      assert layer == p + [layer[n - 1]];
      Max(MaxExtent(p, horizontal), Extent(layer[n - 1], horizontal))
  }

  /** The largest extent is the extent of one of the layer's items. */
  lemma {:induction false} MaxExtentAttained(layer: seq<Item>, horizontal: bool)
    requires |layer| > 0
    ensures exists i :: 0 <= i < |layer| && MaxExtent(layer, horizontal) == Extent(layer[i], horizontal)
  {
    var n := |layer|;
    if n == 1 {
      assert MaxExtent(layer, horizontal) == Extent(layer[0], horizontal);
    } else {
      var p := layer[..n - 1];
      MaxExtentAttained(p, horizontal);
      var i :| 0 <= i < n - 1 && MaxExtent(p, horizontal) == Extent(p[i], horizontal);
      assert p[i] == layer[i];
      if MaxExtent(layer, horizontal) != MaxExtent(p, horizontal) {
        assert MaxExtent(layer, horizontal) == Extent(layer[n - 1], horizontal);
      }
    }
  }

  /** Every layer holds at least one item. */
  predicate Filled(L: seq<seq<Item>>) {
    forall j :: 0 <= j < |L| ==> |L[j]| > 0
  }

  /** The layer cursor at layer k: the margin, then for each earlier layer
      its largest extent and the layer gap. */
  function LayerStart(layers: seq<seq<Item>>, k: nat, horizontal: bool): real
    requires k <= |layers| && Filled(layers)
  {
    if k == 0 then LayoutMargin
    else LayerStart(layers, k - 1, horizontal) + MaxExtent(layers[k - 1], horizontal) + LayerGap
  }

  /** The cursor across a layer at its p-th item: the margin, then for each
      earlier item its breadth and the item gap. */
  function SlotStart(layer: seq<Item>, p: nat, horizontal: bool): real
    requires p <= |layer|
  {
    if p == 0 then LayoutMargin
    else SlotStart(layer, p - 1, horizontal) + Breadth(layer[p - 1], horizontal) + ItemGap
  }

  /** The layers in ascending level order, each sorted by the comparator. */
  function Layered(sorted: seq<int>, layers: map<int, seq<Item>>, horizontal: bool): (r: seq<seq<Item>>)
    requires forall k :: 0 <= k < |sorted| ==> sorted[k] in layers
    ensures |r| == |sorted|
  {
    if sorted == [] then []
    else
      var n := |sorted| - 1;
      Layered(sorted[..n], layers, horizontal) + [SortLayer(layers[sorted[n]], horizontal)]
  }

  /** Slot (k, p) comes strictly before slot (k', p') in placement order. */
  predicate Before(k: nat, p: nat, k': nat, p': nat) {
    k < k' || (k == k' && p < p')
  }

  predicate IsSlot(L: seq<seq<Item>>, s: (nat, nat)) {
    s.0 < |L| && s.1 < |L[s.0]|
  }

  /** The key of the item in slot (k, p). */
  function KeyAt(L: seq<seq<Item>>, k: nat, p: nat): Selectable
    requires k < |L| && p < |L[k]|
  {
    L[k][p].key
  }

  /** Where the first m slots of layer k put their items. */
  ghost function Row(L: seq<seq<Item>>, k: nat, m: nat, horizontal: bool): (r: seq<Point>)
    requires Filled(L)
    requires k < |L| && m <= |L[k]|
    ensures |r| == m
  {
    if m == 0 then []
    else
      Row(L, k, m - 1, horizontal)
        + [Placement(L[k][m - 1], LayerStart(L, k, horizontal), SlotStart(L[k], m - 1, horizontal), horizontal)]
  }

  /** Where each slot of the first n layers puts its item. */
  ghost function Grid(L: seq<seq<Item>>, n: nat, horizontal: bool): (g: seq<seq<Point>>)
    requires Filled(L)
    requires n <= |L|
    ensures |g| == n && forall k :: 0 <= k < n ==> |g[k]| == |L[k]|
  {
    if n == 0 then [] else Grid(L, n - 1, horizontal) + [Row(L, n - 1, |L[n - 1]|, horizontal)]
  }

  /** Slot (k, p) of the grid is the item's placement at the layer cursor of
      layer k and the cross cursor of its index. */
  lemma {:induction false} GridAt(L: seq<seq<Item>>, n: nat, k: nat, p: nat, horizontal: bool)
    requires Filled(L)
    requires k < n <= |L| && p < |L[k]|
    ensures Grid(L, n, horizontal)[k][p]
      == Placement(L[k][p], LayerStart(L, k, horizontal), SlotStart(L[k], p, horizontal), horizontal)
  {
    var g := Grid(L, n - 1, horizontal);
    assert Grid(L, n, horizontal) == g + [Row(L, n - 1, |L[n - 1]|, horizontal)];
    if k < n - 1 {
      assert Grid(L, n, horizontal)[k] == g[k];
      GridAt(L, n - 1, k, p, horizontal);
    } else {
      RowAt(L, k, |L[k]|, p, horizontal);
    }
  }

  lemma {:induction false} RowAt(L: seq<seq<Item>>, k: nat, m: nat, p: nat, horizontal: bool)
    requires Filled(L)
    requires k < |L| && p < m <= |L[k]|
    ensures Row(L, k, m, horizontal)[p]
      == Placement(L[k][p], LayerStart(L, k, horizontal), SlotStart(L[k], p, horizontal), horizontal)
  {
    if p < m - 1 {
      RowAt(L, k, m - 1, p, horizontal);
    }
  }

  /** The positions after placing every slot before (k, p): each placed key
      is at the grid point of the last slot that holds it, and `slot` names
      that slot. */
  ghost predicate PlacedBefore(L: seq<seq<Item>>, grid: seq<seq<Point>>, k: nat, p: nat,
                               positions: map<Selectable, Point>, slot: map<Selectable, (nat, nat)>)
    requires |grid| == |L| && forall j :: 0 <= j < |L| ==> |grid[j]| == |L[j]|
  {
    && (forall key :: key in positions <==> key in slot)
    && (forall key :: key in slot ==>
          && IsSlot(L, slot[key]) && Before(slot[key].0, slot[key].1, k, p)
          && KeyAt(L, slot[key].0, slot[key].1) == key
          && positions[key] == grid[slot[key].0][slot[key].1])
    && (forall k': nat, p': nat :: k' < |L| && p' < |L[k']| && Before(k', p', k, p) ==>
          KeyAt(L, k', p') in slot && !Before(slot[KeyAt(L, k', p')].0, slot[KeyAt(L, k', p')].1, k', p'))
  }

  /** Placing slot (k, p - 1) extends the placed prefix by one slot. */
  lemma {:induction false} PlaceStep(L: seq<seq<Item>>, grid: seq<seq<Point>>, k: nat, p: nat,
                  positions: map<Selectable, Point>, slot: map<Selectable, (nat, nat)>,
                  positions': map<Selectable, Point>, slot': map<Selectable, (nat, nat)>)
    requires |grid| == |L| && forall j :: 0 <= j < |L| ==> |grid[j]| == |L[j]|
    requires k < |L| && 0 < p <= |L[k]|
    requires PlacedBefore(L, grid, k, p - 1, positions, slot)
    requires positions' == positions[KeyAt(L, k, p - 1) := grid[k][p - 1]]
    requires slot' == slot[KeyAt(L, k, p - 1) := (k, p - 1)]
    ensures PlacedBefore(L, grid, k, p, positions', slot')
  {
    forall key' | key' in slot'
      ensures IsSlot(L, slot'[key']) && Before(slot'[key'].0, slot'[key'].1, k, p)
      ensures KeyAt(L, slot'[key'].0, slot'[key'].1) == key'
      ensures positions'[key'] == grid[slot'[key'].0][slot'[key'].1]
    {
    }
    forall k': nat, p': nat | k' < |L| && p' < |L[k']| && Before(k', p', k, p)
      ensures KeyAt(L, k', p') in slot' && !Before(slot'[KeyAt(L, k', p')].0, slot'[KeyAt(L, k', p')].1, k', p')
    {
      if (k', p') != (k, p - 1) {
        assert Before(k', p', k, p - 1);
      }
    }
  }

  /** Finishing layer k - 1 is starting layer k. */
  lemma {:induction false} NextLayer(L: seq<seq<Item>>, grid: seq<seq<Point>>, k: nat,
                  positions: map<Selectable, Point>, slot: map<Selectable, (nat, nat)>,
                  positions': map<Selectable, Point>, slot': map<Selectable, (nat, nat)>)
    requires |grid| == |L| && forall j :: 0 <= j < |L| ==> |grid[j]| == |L[j]|
    requires 0 < k <= |L|
    requires PlacedBefore(L, grid, k - 1, |L[k - 1]|, positions, slot)
    requires positions' == positions && slot' == slot
    ensures PlacedBefore(L, grid, k, 0, positions', slot')
  {
    forall k': nat, p': nat | k' < |L| && p' < |L[k']| && Before(k', p', k, 0)
      ensures KeyAt(L, k', p') in slot && !Before(slot[KeyAt(L, k', p')].0, slot[KeyAt(L, k', p')].1, k', p')
    {
      assert Before(k', p', k - 1, |L[k - 1]|);
    }
  }

  /** The outcome of placing every layer: every slot's key has a position,
      the position of the last slot that holds it, and `slot` names that
      slot. */
  ghost predicate Placed(L: seq<seq<Item>>, positions: map<Selectable, Point>,
                         slot: map<Selectable, (nat, nat)>, horizontal: bool)
    requires Filled(L)
  {
    && (forall k: nat, p: nat :: k < |L| && p < |L[k]| ==>
          KeyAt(L, k, p) in positions && KeyAt(L, k, p) in slot
          && !Before(slot[KeyAt(L, k, p)].0, slot[KeyAt(L, k, p)].1, k, p))
    && (forall key :: key in positions ==>
          && key in slot && IsSlot(L, slot[key]) && KeyAt(L, slot[key].0, slot[key].1) == key
          && positions[key] == Grid(L, |L|, horizontal)[slot[key].0][slot[key].1])
  }

  lemma {:induction false} AllPlaced(L: seq<seq<Item>>, positions: map<Selectable, Point>,
                  slot: map<Selectable, (nat, nat)>, horizontal: bool)
    requires Filled(L)
    requires PlacedBefore(L, Grid(L, |L|, horizontal), |L|, 0, positions, slot)
    ensures Placed(L, positions, slot, horizontal)
  {
    forall k: nat, p: nat | k < |L| && p < |L[k]|
      ensures KeyAt(L, k, p) in positions && KeyAt(L, k, p) in slot
      ensures !Before(slot[KeyAt(L, k, p)].0, slot[KeyAt(L, k, p)].1, k, p)
    {
      assert Before(k, p, |L|, 0);
    }
  }

  lemma {:induction false} LayerIs(sorted: seq<int>, layers: map<int, seq<Item>>, horizontal: bool, k: nat)
    requires forall j :: 0 <= j < |sorted| ==> sorted[j] in layers
    requires k < |sorted|
    ensures Layered(sorted, layers, horizontal)[k] == SortLayer(layers[sorted[k]], horizontal)
    decreases |sorted|
  {
    var n := |sorted| - 1;
    if k < n {
      var prefix := sorted[..n];
      assert forall j :: 0 <= j < |prefix| ==> prefix[j] in layers;
      LayerIs(prefix, layers, horizontal, k);
      assert prefix[k] == sorted[k];
    }
  }

  lemma {:induction false} LayeredAt(sorted: seq<int>, layers: map<int, seq<Item>>, horizontal: bool, k: nat)
    requires forall j :: 0 <= j < |sorted| ==> sorted[j] in layers
    requires k < |sorted|
    ensures Layered(sorted, layers, horizontal)[k] == SortLayer(layers[sorted[k]], horizontal)
    ensures multiset(Layered(sorted, layers, horizontal)[k]) == multiset(layers[sorted[k]])
    ensures Ordered(Layered(sorted, layers, horizontal)[k], horizontal)
  {
    LayerIs(sorted, layers, horizontal, k);
  }

  /** Sorting keeps every layer nonempty. */
  lemma {:induction false} LayeredNonempty(sorted: seq<int>, layers: map<int, seq<Item>>, horizontal: bool)
    requires forall k :: 0 <= k < |sorted| ==> sorted[k] in layers && |layers[sorted[k]]| > 0
    ensures forall k :: 0 <= k < |sorted| ==> |Layered(sorted, layers, horizontal)[k]| > 0
  {
    var L := Layered(sorted, layers, horizontal);
    forall k | 0 <= k < |sorted| ensures |L[k]| > 0 {
      LayeredAt(sorted, layers, horizontal, k);
      assert |multiset(L[k])| == |multiset(layers[sorted[k]])|;
    }
  }

  /** The positions map after the first p items of a sorted layer are set
      at the layer cursor `main`, starting from `base`; setting a key again
      overwrites its position. */
  function RowPositions(layer: seq<Item>, main: real, p: nat, base: map<Selectable, Point>,
                        horizontal: bool): map<Selectable, Point>
    requires p <= |layer|
  {
    if p == 0 then base
    else
      RowPositions(layer, main, p - 1, base, horizontal)[layer[p - 1].key :=
        Placement(layer[p - 1], main, SlotStart(layer, p - 1, horizontal), horizontal)]
  }

  /** The positions map after the first k layers. */
  function LayersPositions(L: seq<seq<Item>>, k: nat, horizontal: bool): map<Selectable, Point>
    requires Filled(L)
    requires k <= |L|
  {
    if k == 0 then map[]
    else
      RowPositions(L[k - 1], LayerStart(L, k - 1, horizontal), |L[k - 1]|,
                   LayersPositions(L, k - 1, horizontal), horizontal)
  }

  /** One layer further: its cursor and positions follow from layer k's. */
  lemma LayersNext(L: seq<seq<Item>>, k: nat, horizontal: bool)
    requires Filled(L) && k < |L|
    ensures LayerStart(L, k + 1, horizontal) == LayerStart(L, k, horizontal) + MaxExtent(L[k], horizontal) + LayerGap
    ensures LayersPositions(L, k + 1, horizontal)
         == RowPositions(L[k], LayerStart(L, k, horizontal), |L[k]|, LayersPositions(L, k, horizontal), horizontal)
  {
  }

  /** The positions map after every slot before (k, p) in placement order. */
  ghost function PositionsBefore(L: seq<seq<Item>>, k: nat, p: nat, horizontal: bool): map<Selectable, Point>
    requires Filled(L)
    requires k <= |L| && (k < |L| ==> p <= |L[k]|) && (k == |L| ==> p == 0)
  {
    if k == |L| then LayersPositions(L, k, horizontal)
    else RowPositions(L[k], LayerStart(L, k, horizontal), p, LayersPositions(L, k, horizontal), horizontal)
  }

  /** For each placed key, the last slot before (k, p) that holds it. */
  ghost function SlotsBefore(L: seq<seq<Item>>, k: nat, p: nat): map<Selectable, (nat, nat)>
    requires k <= |L| && (k < |L| ==> p <= |L[k]|) && (k == |L| ==> p == 0)
    decreases k, p
  {
    if p > 0 then SlotsBefore(L, k, p - 1)[L[k][p - 1].key := (k, p - 1)]
    else if k > 0 then SlotsBefore(L, k - 1, |L[k - 1]|)
    else map[]
  }

  lemma {:induction false} PositionsBeforeStep(L: seq<seq<Item>>, k: nat, p: nat, horizontal: bool)
    requires Filled(L)
    requires k < |L| && 0 < p <= |L[k]|
    ensures PositionsBefore(L, k, p, horizontal)
      == PositionsBefore(L, k, p - 1, horizontal)[KeyAt(L, k, p - 1) := Grid(L, |L|, horizontal)[k][p - 1]]
    ensures SlotsBefore(L, k, p) == SlotsBefore(L, k, p - 1)[KeyAt(L, k, p - 1) := (k, p - 1)]
  {
    GridAt(L, |L|, k, p - 1, horizontal);
  }

  lemma {:induction false} PositionsBeforeNext(L: seq<seq<Item>>, k: nat, horizontal: bool)
    requires Filled(L)
    requires 0 < k <= |L|
    ensures PositionsBefore(L, k, 0, horizontal) == PositionsBefore(L, k - 1, |L[k - 1]|, horizontal)
    ensures SlotsBefore(L, k, 0) == SlotsBefore(L, k - 1, |L[k - 1]|)
  {
  }

  lemma {:induction false} PositionsBeforeSlots(L: seq<seq<Item>>, k: nat, p: nat, horizontal: bool)
    requires Filled(L)
    requires k <= |L| && (k < |L| ==> p <= |L[k]|) && (k == |L| ==> p == 0)
    ensures PlacedBefore(L, Grid(L, |L|, horizontal), k, p, PositionsBefore(L, k, p, horizontal), SlotsBefore(L, k, p))
    decreases k, p
  {
    var grid := Grid(L, |L|, horizontal);
    if p > 0 {
      PositionsBeforeSlots(L, k, p - 1, horizontal);
      PositionsBeforeStep(L, k, p, horizontal);
      PlaceStep(L, grid, k, p, PositionsBefore(L, k, p - 1, horizontal), SlotsBefore(L, k, p - 1),
                PositionsBefore(L, k, p, horizontal), SlotsBefore(L, k, p));
    } else if k > 0 {
      PositionsBeforeSlots(L, k - 1, |L[k - 1]|, horizontal);
      PositionsBeforeNext(L, k, horizontal);
      NextLayer(L, grid, k, PositionsBefore(L, k - 1, |L[k - 1]|, horizontal), SlotsBefore(L, k - 1, |L[k - 1]|),
                PositionsBefore(L, k, 0, horizontal), SlotsBefore(L, k, 0));
    }
  }

  /** Where the whole layout puts each key. */
  function Positions(L: seq<seq<Item>>, horizontal: bool): map<Selectable, Point>
    requires Filled(L)
  {
    LayersPositions(L, |L|, horizontal)
  }

  /** Every slot's key gets a position: the placement of the last slot that
      holds that key. */
  lemma {:induction false} PositionsPlaced(L: seq<seq<Item>>, horizontal: bool)
    requires Filled(L)
    ensures Placed(L, Positions(L, horizontal), SlotsBefore(L, |L|, 0), horizontal)
  {
    PositionsBeforeSlots(L, |L|, 0, horizontal);
    assert Positions(L, horizontal) == PositionsBefore(L, |L|, 0, horizontal);
    AllPlaced(L, Positions(L, horizontal), SlotsBefore(L, |L|, 0), horizontal);
  }

  /** The body of sortedLayers.forEach for one layer: the layer is sorted by
      the comparator, its items get the layer cursor along the layer axis
      and a cursor across it that starts at the margin and moves past each
      item's breadth and the item gap; the layer cursor then moves past the
      layer's largest extent and the layer gap. */
  method PlaceLayer(layer: seq<Item>, cursor: real, horizontal: bool, positions0: map<Selectable, Point>)
    returns (positions: map<Selectable, Point>, next: real)
    requires |layer| > 0
    ensures var sorted := SortLayer(layer, horizontal);
      && |sorted| == |layer|
      && positions == RowPositions(sorted, cursor, |sorted|, positions0, horizontal)
      && next == cursor + MaxExtent(sorted, horizontal) + LayerGap
  {
    var layerItems := SortLayer(layer, horizontal);
    assert |layerItems| == |layer| by {
      assert |multiset(layerItems)| == |multiset(layer)|;
    }
    positions := PlaceRow(layerItems, cursor, horizontal, positions0);
    next := cursor + MaxExtent(layerItems, horizontal) + LayerGap;
  }

  /** layerItems.forEach: each item of a sorted layer at the layer cursor
      and the running cross cursor, which advances by the item's breadth
      and the item gap. */
  method PlaceRow(row: seq<Item>, cursor: real, horizontal: bool, positions0: map<Selectable, Point>)
    returns (positions: map<Selectable, Point>)
    ensures positions == RowPositions(row, cursor, |row|, positions0, horizontal)
  {
    positions := positions0;
    var cross := LayoutMargin;
    var p := 0;
    while p < |row|
      invariant 0 <= p <= |row|
      invariant cross == SlotStart(row, p, horizontal)
      invariant positions == RowPositions(row, cursor, p, positions0, horizontal)
    {
      var item := row[p];
      positions := positions[item.key := Placement(item, cursor, cross, horizontal)];
      cross := cross + Breadth(item, horizontal) + ItemGap;
      p := p + 1;
    }
  }

  /** sortedLayers.forEach: the layer cursor starts at the margin and each
      layer is placed by PlaceLayer. */
  method PlaceLayers(sorted: seq<int>, layers: map<int, seq<Item>>, horizontal: bool)
    returns (positions: map<Selectable, Point>)
    requires forall k :: 0 <= k < |sorted| ==> sorted[k] in layers && |layers[sorted[k]]| > 0
    ensures forall k :: 0 <= k < |sorted| ==> |Layered(sorted, layers, horizontal)[k]| > 0
    ensures positions == Positions(Layered(sorted, layers, horizontal), horizontal)
  {
    ghost var L := Layered(sorted, layers, horizontal);
    LayeredNonempty(sorted, layers, horizontal);
    positions := map[];
    var cursor := LayoutMargin;
    var k := 0;
    while k < |sorted|
      invariant 0 <= k <= |sorted|
      invariant cursor == LayerStart(L, k, horizontal)
      invariant positions == LayersPositions(L, k, horizontal)
    {
      LayerIs(sorted, layers, horizontal, k);
      LayersNext(L, k, horizontal);
      positions, cursor := PlaceLayer(layers[sorted[k]], cursor, horizontal, positions);
      k := k + 1;
    }
  }

  // -------------------------------------------------------- layout geometry

  /** Every item's box has a nonnegative width and height. */
  predicate NonNegative(items: seq<Item>) {
    forall it :: it in items ==> it.w >= 0.0 && it.h >= 0.0
  }

  /** The layer cursor never falls below the margin while extents are
      nonnegative. */
  lemma {:induction false} LayerStartMin(L: seq<seq<Item>>, k: nat, horizontal: bool)
    requires forall j :: 0 <= j < |L| ==> |L[j]| > 0 && MaxExtent(L[j], horizontal) >= 0.0
    requires k <= |L|
    ensures LayerStart(L, k, horizontal) >= LayoutMargin
  {
    if k > 0 {
      LayerStartMin(L, k - 1, horizontal);
    }
  }

  /** A later layer starts past an earlier layer's largest extent and the
      layer gap. */
  lemma {:induction false} LayerStartAfter(L: seq<seq<Item>>, k1: nat, k2: nat, horizontal: bool)
    requires forall j :: 0 <= j < |L| ==> |L[j]| > 0 && MaxExtent(L[j], horizontal) >= 0.0
    requires k1 < k2 <= |L|
    ensures LayerStart(L, k2, horizontal) >= LayerStart(L, k1, horizontal) + MaxExtent(L[k1], horizontal) + LayerGap
    decreases k2
  {
    assert LayerStart(L, k2, horizontal) == LayerStart(L, k2 - 1, horizontal) + MaxExtent(L[k2 - 1], horizontal) + LayerGap;
    if k2 > k1 + 1 {
      LayerStartAfter(L, k1, k2 - 1, horizontal);
      assert MaxExtent(L[k2 - 1], horizontal) >= 0.0;
    }
  }

  lemma {:induction false} SlotStartMin(layer: seq<Item>, p: nat, horizontal: bool)
    requires forall q :: 0 <= q < |layer| ==> Breadth(layer[q], horizontal) >= 0.0
    requires p <= |layer|
    ensures SlotStart(layer, p, horizontal) >= LayoutMargin
  {
    if p > 0 {
      SlotStartMin(layer, p - 1, horizontal);
    }
  }

  /** A later item of a layer starts past an earlier item's breadth and the
      item gap. */
  lemma {:induction false} SlotStartAfter(layer: seq<Item>, p1: nat, p2: nat, horizontal: bool)
    requires forall q :: 0 <= q < |layer| ==> Breadth(layer[q], horizontal) >= 0.0
    requires p1 < p2 <= |layer|
    ensures SlotStart(layer, p2, horizontal) >= SlotStart(layer, p1, horizontal) + Breadth(layer[p1], horizontal) + ItemGap
    decreases p2
  {
    if p2 > p1 + 1 {
      SlotStartAfter(layer, p1, p2 - 1, horizontal);
    }
  }

  // ---------------------------------------------------------- the outcome

  /** An item at its new position, when it has one (positions.get). */
  function Moved(it: Item, positions: map<Selectable, Point>): Item {
    if it.key in positions then it.(x := positions[it.key].x, y := positions[it.key].y) else it
  }

  /** setNodes: a node moves to the position of its key, if any. */
  function MoveNode(n: Node, positions: map<Selectable, Point>): Node {
    var key := Selectable(NodeKind, n.id);
    if key in positions then n.(x := positions[key].x, y := positions[key].y) else n
  }

  /** setGroups: a group moves to the position of its key, if any. */
  function MoveGroup(g: Group, positions: map<Selectable, Point>): Group {
    var key := Selectable(GroupKind, g.id);
    if key in positions then g.(x := positions[key].x, y := positions[key].y) else g
  }

  lemma {:induction false} MovedItems(nodes: seq<Node>, groups: seq<Group>, nodes': seq<Node>, groups': seq<Group>,
                   positions: map<Selectable, Point>)
    requires |nodes'| == |nodes| && forall i :: 0 <= i < |nodes| ==> nodes'[i] == MoveNode(nodes[i], positions)
    requires |groups'| == |groups| && forall i :: 0 <= i < |groups| ==> groups'[i] == MoveGroup(groups[i], positions)
    ensures |Items(nodes', groups')| == |Items(nodes, groups)|
    ensures forall i :: 0 <= i < |Items(nodes, groups)| ==>
      Items(nodes', groups')[i] == Moved(Items(nodes, groups)[i], positions)
  {
    var I, R := Items(nodes, groups), Items(nodes', groups');
    forall i | 0 <= i < |I| ensures R[i] == Moved(I[i], positions) {
      if i < |nodes| {
        assert R[i] == NodeItem(nodes'[i]) && I[i] == NodeItem(nodes[i]);
      } else {
        var g := i - |nodes|;
        assert R[|nodes| + g] == GroupItem(groups'[g]) && I[|nodes| + g] == GroupItem(groups[g]);
      }
    }
  }

  /** Every item above level 0 is exactly one above some item with an arc
      to it. */
  ghost predicate StepAbove(items: seq<Item>, arcs: seq<Arc>, levels: map<Selectable, int>)
    requires forall it :: it in items ==> it.key in levels
  {
    forall it :: it in items && levels[it.key] > 0 ==>
      exists j :: 0 <= j < |arcs| && arcs[j].dst == it.key && arcs[j].src in levels && levels[it.key] == levels[arcs[j].src] + 1
  }

  /** What the levels promise: every item has one, no lower than 0; an item
      no arc points to is on level 0; an item above level 0 is exactly one
      above some item with an arc to it; and in an acyclic graph every arc
      climbs at least one level. */
  ghost predicate LevelsOf(items: seq<Item>, arcs: seq<Arc>, levels: map<Selectable, int>) {
    && (forall it :: it in items ==> it.key in levels && levels[it.key] >= 0)
    && (forall it :: it in items && InCount(arcs, it.key) == 0 ==> levels[it.key] == 0)
    && StepAbove(items, arcs, levels)
    && (Acyclic(arcs, KeySet(items)) ==> ArcsClimb(arcs, levels))
  }

  /** Every arc climbs at least one level. */
  ghost predicate ArcsClimb(arcs: seq<Arc>, levels: map<Selectable, int>) {
    forall a :: a in arcs ==> a.src in levels && a.dst in levels && levels[a.dst] >= levels[a.src] + 1
  }

  /** For an acyclic graph the levels are determined: any two level maps
      that keep the promises of LevelsOf agree on every item, so each item
      sits one above the highest of its predecessors (0 for a source), as
      the breadth-first pass computes. */
  lemma {:induction false} LevelsUnique(items: seq<Item>, arcs: seq<Arc>, l1: map<Selectable, int>, l2: map<Selectable, int>)
    requires forall a :: a in arcs ==> a.src in KeySet(items) && a.dst in KeySet(items)
    requires Acyclic(arcs, KeySet(items))
    requires LevelsOf(items, arcs, l1) && LevelsOf(items, arcs, l2)
    ensures forall it :: it in items ==> l1[it.key] == l2[it.key]
  {
    forall it | it in items
      ensures l1[it.key] == l2[it.key]
    {
      if l1[it.key] != l2[it.key] {
        assert it.key in Differ(items, l1, l2);
        var w := FirstDifference(items, arcs, l1, l2);
        NotHigher(items, arcs, l1, l2, w);
        NotHigher(items, arcs, l2, l1, w);
      }
    }
  }

  /** The keys of the items whose levels differ in two level maps. */
  ghost function Differ(items: seq<Item>, l1: map<Selectable, int>, l2: map<Selectable, int>): set<Selectable>
    requires forall it :: it in items ==> it.key in l1 && it.key in l2
  {
    set it | it in items && l1[it.key] != l2[it.key] :: it.key
  }

  /** In an acyclic graph, when two level maps differ somewhere, they
      differ at an item whose predecessors they agree on. */
  lemma {:induction false} FirstDifference(items: seq<Item>, arcs: seq<Arc>, l1: map<Selectable, int>, l2: map<Selectable, int>)
    returns (w: Item)
    requires forall a :: a in arcs ==> a.src in KeySet(items) && a.dst in KeySet(items)
    requires forall it :: it in items ==> it.key in l1 && it.key in l2
    requires Acyclic(arcs, KeySet(items))
    requires Differ(items, l1, l2) != {}
    ensures w in items && l1[w.key] != l2[w.key]
    ensures forall a :: a in arcs && a.dst == w.key ==> a.src in l1 && a.src in l2 && l1[a.src] == l2[a.src]
  {
    var d := Differ(items, l1, l2);
    assert d <= KeySet(items);
    assert HasSource(arcs, d);
    var v :| v in d && forall a :: a in arcs && a.dst == v ==> a.src !in d;
    w :| w in items && w.key == v && l1[v] != l2[v];
    forall a | a in arcs && a.dst == v
      ensures a.src in l1 && a.src in l2 && l1[a.src] == l2[a.src]
    {
      var src :| src in items && src.key == a.src;
    }
  }

  /** An item whose predecessors all have the same level in two level maps
      is no higher in one than in the other. */
  lemma {:induction false} NotHigher(items: seq<Item>, arcs: seq<Arc>, big: map<Selectable, int>, small: map<Selectable, int>,
                                     it: Item)
    requires Acyclic(arcs, KeySet(items))
    requires LevelsOf(items, arcs, big) && LevelsOf(items, arcs, small)
    requires it in items
    requires forall a :: a in arcs && a.dst == it.key ==> a.src in big && a.src in small && big[a.src] == small[a.src]
    ensures big[it.key] <= small[it.key]
  {
    if big[it.key] > 0 {
      assert StepAbove(items, arcs, big);
      var j :| 0 <= j < |arcs| && arcs[j].dst == it.key && arcs[j].src in big && big[it.key] == big[arcs[j].src] + 1;
      assert arcs[j] in arcs;
      assert small[it.key] >= small[arcs[j].src] + 1;
    }
  }

  /** What the placement promises, for items with distinct keys: every
      item ends inside the canvas when it fits; items on level 0 sit at the
      margin along the layer axis; for nonnegative sizes, an item on a
      higher level starts past a lower-level item's far edge and the layer
      gap (or as far as the canvas allows), and within a level an item the
      comparator puts later starts past the earlier one's breadth and the
      item gap (or as far as the canvas allows). */
  ghost predicate Arranged(items: seq<Item>, levels: map<Selectable, int>, moved: seq<Item>, horizontal: bool)
    requires forall it :: it in items ==> it.key in levels
  {
    && |moved| == |items|
    && (forall i :: 0 <= i < |items| ==>
          && moved[i] == items[i].(x := moved[i].x, y := moved[i].y)
          && moved[i].x <= CanvasWidth - items[i].w && moved[i].y <= CanvasHeight - items[i].h
          && (items[i].w <= CanvasWidth ==> 0.0 <= moved[i].x)
          && (items[i].h <= CanvasHeight ==> 0.0 <= moved[i].y))
    && (forall i :: 0 <= i < |items| && levels[items[i].key] == 0 ==>
          MainOf(moved[i], horizontal) == Clamp(LayoutMargin, 0.0, Span(horizontal) - Extent(items[i], horizontal)))
    && (NonNegative(items) ==>
          forall i, j :: 0 <= i < |items| && 0 <= j < |items| && levels[items[i].key] < levels[items[j].key] ==>
            MainOf(moved[j], horizontal) >= Min(MainOf(moved[i], horizontal) + Extent(items[i], horizontal) + LayerGap,
                                                Span(horizontal) - Extent(items[j], horizontal)))
    && (NonNegative(items) ==>
          forall i, j :: 0 <= i < |items| && 0 <= j < |items| && i != j
                         && levels[items[i].key] == levels[items[j].key] && !LexLe(items[j], items[i], horizontal) ==>
            CrossOf(moved[j], horizontal) >= Min(CrossOf(moved[i], horizontal) + Breadth(items[i], horizontal) + ItemGap,
                                                 CrossSpan(horizontal) - Breadth(items[j], horizontal)))
  }

  /** Every link between two items points forward along the layer axis: its
      target starts past its source's far edge and the layer gap, or as far
      as the canvas allows. */
  ghost predicate ArcsForward(items: seq<Item>, arcs: seq<Arc>, moved: seq<Item>, horizontal: bool)
    requires |moved| == |items|
  {
    forall i, j :: 0 <= i < |items| && 0 <= j < |items| && Arc(items[i].key, items[j].key) in arcs ==>
      MainOf(moved[j], horizontal) >= Min(MainOf(moved[i], horizontal) + Extent(items[i], horizontal) + LayerGap,
                                          Span(horizontal) - Extent(items[j], horizontal))
  }

  /** Levels that climb along arcs and a placement that moves up with the
      level send every arc forward. */
  lemma {:induction false} ArcsGoForward(items: seq<Item>, arcs: seq<Arc>, levels: map<Selectable, int>, moved: seq<Item>, horizontal: bool)
    requires LevelsOf(items, arcs, levels) && Acyclic(arcs, KeySet(items)) && NonNegative(items)
    requires Arranged(items, levels, moved, horizontal)
    ensures ArcsForward(items, arcs, moved, horizontal)
  {
    forall i, j | 0 <= i < |items| && 0 <= j < |items| && Arc(items[i].key, items[j].key) in arcs
      ensures MainOf(moved[j], horizontal) >= Min(MainOf(moved[i], horizontal) + Extent(items[i], horizontal) + LayerGap,
                                                  Span(horizontal) - Extent(items[j], horizontal))
    {
      assert levels[items[i].key] < levels[items[j].key];
    }
  }

  // ------------------------------------------------------ the layout steps

  /** What levelling and bucketing establish between the items, their
      levels, the ascending list of levels and the layers. */
  ghost predicate Laid(items: seq<Item>, levels: map<Selectable, int>, sorted: seq<int>, layers: map<int, seq<Item>>) {
    && (forall it :: it in items ==> it.key in levels && levels[it.key] >= 0)
    && Ascending(sorted)
    && (forall k :: 0 <= k < |sorted| ==> sorted[k] in layers)
    && (forall l :: l in sorted <==> l in layers)
    && (forall l :: l in layers ==> layers[l] == AtLevel(items, levels, l) && |layers[l]| > 0 && l >= 0)
    && (forall it :: it in items ==> levels[it.key] in layers)
  }

  lemma {:induction false} LaidFrom(items: seq<Item>, levels: map<Selectable, int>, layerOrder: seq<int>,
                 layers: map<int, seq<Item>>, sorted: seq<int>)
    requires forall it :: it in items ==> it.key in levels && levels[it.key] >= 0
    requires forall l :: l in layerOrder <==> l in layers
    requires forall l :: l in layers ==> layers[l] == AtLevel(items, levels, l) && |layers[l]| > 0
    requires forall it :: it in items ==> levels[it.key] in layers
    requires Ascending(sorted) && multiset(sorted) == multiset(layerOrder)
    ensures Laid(items, levels, sorted, layers)
  {
    forall l | l in layers ensures l >= 0 {
      AtLevelMembers(items, levels, l);
      assert layers[l][0] in AtLevel(items, levels, l);
    }
    forall l ensures l in sorted <==> l in layers {
      assert l in sorted <==> l in multiset(sorted);
      assert l in layerOrder <==> l in multiset(layerOrder);
    }
  }

  /** The items after the layout: each moved to its key's position in the
      placement of the sorted layers. */
  ghost predicate Outcome(items: seq<Item>, sorted: seq<int>, layers: map<int, seq<Item>>, horizontal: bool,
                          moved: seq<Item>)
    requires forall k :: 0 <= k < |sorted| ==> sorted[k] in layers
  {
    && (forall j :: 0 <= j < |sorted| ==> |Layered(sorted, layers, horizontal)[j]| > 0)
    && |moved| == |items|
    && (forall i :: 0 <= i < |items| ==>
          moved[i] == Moved(items[i], Positions(Layered(sorted, layers, horizontal), horizontal)))
  }

  /** The position a key gets is the placement of one of its slots. */
  lemma {:induction false} SlotOfKey(L: seq<seq<Item>>, horizontal: bool, k0: nat, p0: nat) returns (k: nat, p: nat)
    requires Filled(L)
    requires k0 < |L| && p0 < |L[k0]|
    ensures k < |L| && p < |L[k]| && L[k][p].key == L[k0][p0].key
    ensures L[k0][p0].key in Positions(L, horizontal)
    ensures Positions(L, horizontal)[L[k0][p0].key]
            == Placement(L[k][p], LayerStart(L, k, horizontal), SlotStart(L[k], p, horizontal), horizontal)
  {
    PositionsPlaced(L, horizontal);
    var slot := SlotsBefore(L, |L|, 0);
    var key := KeyAt(L, k0, p0);
    k, p := slot[key].0, slot[key].1;
    GridAt(L, |L|, k, p, horizontal);
  }

  /** The items of layer k are the items on level sorted[k]. */
  lemma {:induction false} LayerMember(items: seq<Item>, levels: map<Selectable, int>, sorted: seq<int>, layers: map<int, seq<Item>>,
                    horizontal: bool, k: nat)
    requires Laid(items, levels, sorted, layers)
    requires k < |sorted|
    ensures forall it :: it in Layered(sorted, layers, horizontal)[k] <==> it in items && levels[it.key] == sorted[k]
  {
    LayeredAt(sorted, layers, horizontal, k);
    AtLevelMembers(items, levels, sorted[k]);
    forall it ensures it in Layered(sorted, layers, horizontal)[k] <==> it in layers[sorted[k]] {
      assert it in Layered(sorted, layers, horizontal)[k] <==> it in multiset(Layered(sorted, layers, horizontal)[k]);
      assert it in layers[sorted[k]] <==> it in multiset(layers[sorted[k]]);
    }
  }

  /** Each item is in the layer of its level. */
  lemma {:induction false} ItemInLayer(items: seq<Item>, levels: map<Selectable, int>, sorted: seq<int>, layers: map<int, seq<Item>>,
                    horizontal: bool, i: nat) returns (k: nat, p: nat)
    requires Laid(items, levels, sorted, layers)
    requires i < |items|
    ensures k < |sorted| && sorted[k] == levels[items[i].key]
    ensures p < |Layered(sorted, layers, horizontal)[k]| && Layered(sorted, layers, horizontal)[k][p] == items[i]
  {
    var l := levels[items[i].key];
    assert l in sorted;
    k :| 0 <= k < |sorted| && sorted[k] == l;
    LayerMember(items, levels, sorted, layers, horizontal, k);
    p :| 0 <= p < |Layered(sorted, layers, horizontal)[k]| && Layered(sorted, layers, horizontal)[k][p] == items[i];
  }

  /** With distinct keys, each item's new position is the placement of a
      slot (k, p) it occupies in the sorted layers, on the layer of its
      level. */
  lemma {:induction false} Spot(items: seq<Item>, levels: map<Selectable, int>, sorted: seq<int>, layers: map<int, seq<Item>>,
             horizontal: bool, moved: seq<Item>, i: nat) returns (k: nat, p: nat)
    requires Laid(items, levels, sorted, layers) && UniqueKeys(items)
    requires Outcome(items, sorted, layers, horizontal, moved)
    requires i < |items|
    ensures var L := Layered(sorted, layers, horizontal);
      && k < |L| && p < |L[k]| && L[k][p] == items[i] && sorted[k] == levels[items[i].key]
      && moved[i] == items[i].(x := moved[i].x, y := moved[i].y)
      && MainOf(moved[i], horizontal)
         == Clamp(LayerStart(L, k, horizontal), 0.0, Span(horizontal) - Extent(items[i], horizontal))
      && CrossOf(moved[i], horizontal)
         == Clamp(SlotStart(L[k], p, horizontal), 0.0, CrossSpan(horizontal) - Breadth(items[i], horizontal))
  {
    var L := Layered(sorted, layers, horizontal);
    var k0, p0 := ItemInLayer(items, levels, sorted, layers, horizontal, i);
    k, p := SlotOfKey(L, horizontal, k0, p0);
    LayerMember(items, levels, sorted, layers, horizontal, k);
    assert L[k][p] in L[k];
    var j :| 0 <= j < |items| && items[j] == L[k][p];
    assert j == i by {
      assert items[j].key == items[i].key;
    }
    Landed(items[i], Positions(L, horizontal), LayerStart(L, k, horizontal), SlotStart(L[k], p, horizontal), horizontal);
  }

  /** An item moved to a placement lands at the clamped cursors. */
  lemma {:induction false} Landed(it: Item, positions: map<Selectable, Point>, main: real, cross: real, horizontal: bool)
    requires it.key in positions && positions[it.key] == Placement(it, main, cross, horizontal)
    ensures Moved(it, positions) == it.(x := Moved(it, positions).x, y := Moved(it, positions).y)
    ensures MainOf(Moved(it, positions), horizontal) == Clamp(main, 0.0, Span(horizontal) - Extent(it, horizontal))
    ensures CrossOf(Moved(it, positions), horizontal) == Clamp(cross, 0.0, CrossSpan(horizontal) - Breadth(it, horizontal))
  {
  }

  /** The items of every layer are items of the graph, so with nonnegative
      sizes every extent and breadth in the layers is nonnegative. */
  lemma {:induction false} LayersNonNegative(items: seq<Item>, levels: map<Selectable, int>, sorted: seq<int>,
                          layers: map<int, seq<Item>>, horizontal: bool)
    requires Laid(items, levels, sorted, layers) && NonNegative(items)
    ensures forall j :: 0 <= j < |sorted| ==>
      && |Layered(sorted, layers, horizontal)[j]| > 0
      && MaxExtent(Layered(sorted, layers, horizontal)[j], horizontal) >= 0.0
      && (forall q :: 0 <= q < |Layered(sorted, layers, horizontal)[j]| ==>
            Breadth(Layered(sorted, layers, horizontal)[j][q], horizontal) >= 0.0)
  {
    var L := Layered(sorted, layers, horizontal);
    LayeredNonempty(sorted, layers, horizontal);
    forall j | 0 <= j < |sorted|
      ensures MaxExtent(L[j], horizontal) >= 0.0 && forall q :: 0 <= q < |L[j]| ==> Breadth(L[j][q], horizontal) >= 0.0
    {
      LayerMember(items, levels, sorted, layers, horizontal, j);
      assert L[j][0] in L[j];
      assert forall q :: 0 <= q < |L[j]| ==> L[j][q] in L[j];
    }
  }

  lemma {:induction false} InCanvas(items: seq<Item>, levels: map<Selectable, int>, sorted: seq<int>, layers: map<int, seq<Item>>,
                 horizontal: bool, moved: seq<Item>)
    requires Laid(items, levels, sorted, layers) && UniqueKeys(items)
    requires Outcome(items, sorted, layers, horizontal, moved)
    ensures forall i :: 0 <= i < |items| ==>
      && moved[i] == items[i].(x := moved[i].x, y := moved[i].y)
      && moved[i].x <= CanvasWidth - items[i].w && moved[i].y <= CanvasHeight - items[i].h
      && (items[i].w <= CanvasWidth ==> 0.0 <= moved[i].x)
      && (items[i].h <= CanvasHeight ==> 0.0 <= moved[i].y)
  {
    forall i | 0 <= i < |items|
      ensures && moved[i] == items[i].(x := moved[i].x, y := moved[i].y)
              && moved[i].x <= CanvasWidth - items[i].w && moved[i].y <= CanvasHeight - items[i].h
              && (items[i].w <= CanvasWidth ==> 0.0 <= moved[i].x)
              && (items[i].h <= CanvasHeight ==> 0.0 <= moved[i].y)
    {
      var k, p := Spot(items, levels, sorted, layers, horizontal, moved, i);
    }
  }

  lemma {:induction false} FirstLayer(items: seq<Item>, levels: map<Selectable, int>, sorted: seq<int>, layers: map<int, seq<Item>>,
                   horizontal: bool, moved: seq<Item>)
    requires Laid(items, levels, sorted, layers) && UniqueKeys(items)
    requires Outcome(items, sorted, layers, horizontal, moved)
    ensures forall i :: 0 <= i < |items| && levels[items[i].key] == 0 ==>
      MainOf(moved[i], horizontal) == Clamp(LayoutMargin, 0.0, Span(horizontal) - Extent(items[i], horizontal))
  {
    forall i | 0 <= i < |items| && levels[items[i].key] == 0
      ensures MainOf(moved[i], horizontal) == Clamp(LayoutMargin, 0.0, Span(horizontal) - Extent(items[i], horizontal))
    {
      var k, p := Spot(items, levels, sorted, layers, horizontal, moved, i);
      assert sorted[0] in layers;
      assert k == 0;
    }
  }

  /** Two cursors at least d apart stay at least d apart after clamping,
      unless the later one meets its bound. */
  lemma {:induction false} ClampApart(start1: real, start2: real, d: real, hi1: real, hi2: real)
    requires 0.0 <= start1 && 0.0 <= d && start1 + d <= start2
    ensures Clamp(start2, 0.0, hi2) >= Min(Clamp(start1, 0.0, hi1) + d, hi2)
  {
  }

  /** In an ascending list a smaller value comes first. */
  lemma {:induction false} AscendingIndex(s: seq<int>, a: nat, b: nat)
    requires Ascending(s) && a < |s| && b < |s| && s[a] < s[b]
    ensures a < b
  {
  }

  lemma {:induction false} MainPair(items: seq<Item>, levels: map<Selectable, int>, sorted: seq<int>, layers: map<int, seq<Item>>,
                 horizontal: bool, moved: seq<Item>, i: nat, j: nat)
    requires Laid(items, levels, sorted, layers) && UniqueKeys(items) && NonNegative(items)
    requires Outcome(items, sorted, layers, horizontal, moved)
    requires forall k :: 0 <= k < |sorted| ==> MaxExtent(Layered(sorted, layers, horizontal)[k], horizontal) >= 0.0
    requires i < |items| && j < |items| && levels[items[i].key] < levels[items[j].key]
    ensures MainOf(moved[j], horizontal) >= Min(MainOf(moved[i], horizontal) + Extent(items[i], horizontal) + LayerGap,
                                                Span(horizontal) - Extent(items[j], horizontal))
  {
    var L := Layered(sorted, layers, horizontal);
    var ki, pi := Spot(items, levels, sorted, layers, horizontal, moved, i);
    var kj, pj := Spot(items, levels, sorted, layers, horizontal, moved, j);
    AscendingIndex(sorted, ki, kj);
    LayerStartAfter(L, ki, kj, horizontal);
    LayerStartMin(L, ki, horizontal);
    assert L[ki][pi] in L[ki];
    assert items[i].w >= 0.0 && items[i].h >= 0.0;
    ClampApart(LayerStart(L, ki, horizontal), LayerStart(L, kj, horizontal), Extent(items[i], horizontal) + LayerGap,
               Span(horizontal) - Extent(items[i], horizontal), Span(horizontal) - Extent(items[j], horizontal));
  }

  lemma {:induction false} MainOrder(items: seq<Item>, levels: map<Selectable, int>, sorted: seq<int>, layers: map<int, seq<Item>>,
                  horizontal: bool, moved: seq<Item>)
    requires Laid(items, levels, sorted, layers) && UniqueKeys(items) && NonNegative(items)
    requires Outcome(items, sorted, layers, horizontal, moved)
    ensures forall i, j :: 0 <= i < |items| && 0 <= j < |items| && levels[items[i].key] < levels[items[j].key] ==>
      MainOf(moved[j], horizontal) >= Min(MainOf(moved[i], horizontal) + Extent(items[i], horizontal) + LayerGap,
                                          Span(horizontal) - Extent(items[j], horizontal))
  {
    LayersNonNegative(items, levels, sorted, layers, horizontal);
    forall i, j | 0 <= i < |items| && 0 <= j < |items| && levels[items[i].key] < levels[items[j].key]
      ensures MainOf(moved[j], horizontal) >= Min(MainOf(moved[i], horizontal) + Extent(items[i], horizontal) + LayerGap,
                                                  Span(horizontal) - Extent(items[j], horizontal))
    {
      MainPair(items, levels, sorted, layers, horizontal, moved, i, j);
    }
  }

  lemma {:induction false} CrossPair(items: seq<Item>, levels: map<Selectable, int>, sorted: seq<int>, layers: map<int, seq<Item>>,
                  horizontal: bool, moved: seq<Item>, i: nat, j: nat)
    requires Laid(items, levels, sorted, layers) && UniqueKeys(items) && NonNegative(items)
    requires Outcome(items, sorted, layers, horizontal, moved)
    requires i < |items| && j < |items| && i != j
    requires levels[items[i].key] == levels[items[j].key] && !LexLe(items[j], items[i], horizontal)
    ensures CrossOf(moved[j], horizontal) >= Min(CrossOf(moved[i], horizontal) + Breadth(items[i], horizontal) + ItemGap,
                                                 CrossSpan(horizontal) - Breadth(items[j], horizontal))
  {
    var L := Layered(sorted, layers, horizontal);
    var k, pi := Spot(items, levels, sorted, layers, horizontal, moved, i);
    var kj, pj := Spot(items, levels, sorted, layers, horizontal, moved, j);
    assert kj == k;
    LayeredAt(sorted, layers, horizontal, k);
    assert pi != pj by {
      assert items[i].key != items[j].key;
    }
    assert pi < pj;
    LayerMember(items, levels, sorted, layers, horizontal, k);
    RowApart(L[k], pi, pj, items[i], items[j], CrossOf(moved[i], horizontal), CrossOf(moved[j], horizontal), horizontal);
  }

  /** Within one sorted layer, a later item is placed past an earlier one,
      its breadth and the item gap, unless the canvas edge stops it. */
  lemma {:induction false} RowApart(row: seq<Item>, pi: nat, pj: nat, a: Item, b: Item, ci: real, cj: real,
                                    horizontal: bool)
    requires forall it :: it in row ==> it.w >= 0.0 && it.h >= 0.0
    requires pi < pj < |row| && row[pi] == a && row[pj] == b
    requires ci == Clamp(SlotStart(row, pi, horizontal), 0.0, CrossSpan(horizontal) - Breadth(a, horizontal))
    requires cj == Clamp(SlotStart(row, pj, horizontal), 0.0, CrossSpan(horizontal) - Breadth(b, horizontal))
    ensures cj >= Min(ci + Breadth(a, horizontal) + ItemGap, CrossSpan(horizontal) - Breadth(b, horizontal))
  {
    assert forall q :: 0 <= q < |row| ==> row[q] in row;
    SlotStartAfter(row, pi, pj, horizontal);
    SlotStartMin(row, pi, horizontal);
    ClampApart(SlotStart(row, pi, horizontal), SlotStart(row, pj, horizontal), Breadth(row[pi], horizontal) + ItemGap,
               CrossSpan(horizontal) - Breadth(row[pi], horizontal), CrossSpan(horizontal) - Breadth(row[pj], horizontal));
  }

  lemma {:induction false} CrossOrder(items: seq<Item>, levels: map<Selectable, int>, sorted: seq<int>, layers: map<int, seq<Item>>,
                   horizontal: bool, moved: seq<Item>)
    requires Laid(items, levels, sorted, layers) && UniqueKeys(items) && NonNegative(items)
    requires Outcome(items, sorted, layers, horizontal, moved)
    ensures forall i, j :: 0 <= i < |items| && 0 <= j < |items| && i != j
                           && levels[items[i].key] == levels[items[j].key] && !LexLe(items[j], items[i], horizontal) ==>
      CrossOf(moved[j], horizontal) >= Min(CrossOf(moved[i], horizontal) + Breadth(items[i], horizontal) + ItemGap,
                                           CrossSpan(horizontal) - Breadth(items[j], horizontal))
  {
    forall i, j | 0 <= i < |items| && 0 <= j < |items| && i != j
                  && levels[items[i].key] == levels[items[j].key] && !LexLe(items[j], items[i], horizontal)
      ensures CrossOf(moved[j], horizontal) >= Min(CrossOf(moved[i], horizontal) + Breadth(items[i], horizontal) + ItemGap,
                                                   CrossSpan(horizontal) - Breadth(items[j], horizontal))
    {
      CrossPair(items, levels, sorted, layers, horizontal, moved, i, j);
    }
  }

  lemma {:induction false} ArrangedFrom(items: seq<Item>, levels: map<Selectable, int>, sorted: seq<int>, layers: map<int, seq<Item>>,
                     horizontal: bool, moved: seq<Item>)
    requires Laid(items, levels, sorted, layers) && UniqueKeys(items)
    requires Outcome(items, sorted, layers, horizontal, moved)
    ensures Arranged(items, levels, moved, horizontal)
  {
    InCanvas(items, levels, sorted, layers, horizontal, moved);
    FirstLayer(items, levels, sorted, layers, horizontal, moved);
    if NonNegative(items) {
      MainOrder(items, levels, sorted, layers, horizontal, moved);
      CrossOrder(items, levels, sorted, layers, horizontal, moved);
    }
  }

  /** The keys in item order cover exactly the items' keys. */
  lemma {:induction false} KeyOrder(items: seq<Item>)
    ensures forall k :: k in FirstOccurrences(ItemKeys(items)) <==> k in KeySet(items)
  {
    forall k ensures k in ItemKeys(items) <==> k in KeySet(items) {
      if k in ItemKeys(items) {
        var i :| 0 <= i < |items| && ItemKeys(items)[i] == k;
        assert items[i] in items;
      }
      if k in KeySet(items) {
        var it :| it in items && it.key == k;
        var i :| 0 <= i < |items| && items[i] == it;
        assert ItemKeys(items)[i] == k;
      }
    }
  }

  lemma {:induction false} FilledLevelOf(items: seq<Item>, reached: map<Selectable, int>, levels: map<Selectable, int>)
    requires forall it :: it in items ==> it.key in levels
    requires forall k :: k in reached ==> k in levels && levels[k] == reached[k]
    requires forall k :: k in levels ==> k in reached || levels[k] == 0
    ensures forall k :: k in KeySet(items) ==> k in levels && levels[k] == LevelOf(reached, k)
  {
    forall k | k in KeySet(items) ensures k in levels && levels[k] == LevelOf(reached, k) {
      var it :| it in items && it.key == k;
    }
  }

  /** Kahn's levels completed with 0 for every unreached item keep their
      promises. */
  lemma {:induction false} LevelsFilled(items: seq<Item>, arcs: seq<Arc>, order: seq<Selectable>,
                                        reached: map<Selectable, int>, levels: map<Selectable, int>)
    requires forall a :: a in arcs ==> a.src in KeySet(items) && a.dst in KeySet(items)
    requires forall v :: v in reached ==> reached[v] >= 1 && InCount(arcs, v) > 0
    requires Acyclic(arcs, KeySet(items)) ==>
      forall a :: a in arcs ==> a.dst in reached && reached[a.dst] >= LevelOf(reached, a.src) + 1
    requires forall k :: k in KeySet(items) ==> k in levels && levels[k] == LevelOf(reached, k)
    requires forall k :: k in KeySet(items) ==> k in order
    requires OneAbove(arcs, order, reached)
    ensures LevelsOf(items, arcs, levels)
  {
    FilledBase(items, arcs, reached, levels);
    FilledOneAbove(items, arcs, order, reached, levels);
    if Acyclic(arcs, KeySet(items)) {
      FilledClimb(items, arcs, reached, levels);
    }
  }

  /** Filled levels are never negative, and 0 for an item no arc points to. */
  lemma {:induction false} FilledBase(items: seq<Item>, arcs: seq<Arc>, reached: map<Selectable, int>, levels: map<Selectable, int>)
    requires forall v :: v in reached ==> reached[v] >= 1 && InCount(arcs, v) > 0
    requires forall k :: k in KeySet(items) ==> k in levels && levels[k] == LevelOf(reached, k)
    ensures forall it :: it in items ==> it.key in levels && levels[it.key] >= 0
    ensures forall it :: it in items && InCount(arcs, it.key) == 0 ==> levels[it.key] == 0
  {
    forall it | it in items ensures it.key in levels && levels[it.key] >= 0 && (InCount(arcs, it.key) == 0 ==> levels[it.key] == 0) {
      assert it.key in KeySet(items);
    }
  }

  /** Filling in level 0 keeps every arc climbing where Kahn's levels did. */
  lemma {:induction false} FilledClimb(items: seq<Item>, arcs: seq<Arc>, reached: map<Selectable, int>, levels: map<Selectable, int>)
    requires forall a :: a in arcs ==> a.src in KeySet(items) && a.dst in KeySet(items)
    requires forall a :: a in arcs ==> a.dst in reached && reached[a.dst] >= LevelOf(reached, a.src) + 1
    requires forall k :: k in KeySet(items) ==> k in levels && levels[k] == LevelOf(reached, k)
    ensures ArcsClimb(arcs, levels)
  {
    forall a | a in arcs ensures a.src in levels && a.dst in levels && levels[a.dst] >= levels[a.src] + 1 {
      assert levels[a.dst] == LevelOf(reached, a.dst);
    }
  }

  /** Filling in level 0 keeps every reached level one above an arc's source. */
  lemma {:induction false} FilledOneAbove(items: seq<Item>, arcs: seq<Arc>, order: seq<Selectable>,
                                          reached: map<Selectable, int>, levels: map<Selectable, int>)
    requires forall a :: a in arcs ==> a.src in KeySet(items)
    requires forall k :: k in KeySet(items) ==> k in order
    requires OneAbove(arcs, order, reached)
    requires forall k :: k in KeySet(items) ==> k in levels && levels[k] == LevelOf(reached, k)
    ensures StepAbove(items, arcs, levels)
  {
    forall it | it in items && levels[it.key] > 0
      ensures exists j :: 0 <= j < |arcs| && arcs[j].dst == it.key && arcs[j].src in levels && levels[it.key] == levels[arcs[j].src] + 1
    {
      assert it.key in KeySet(items);
      assert it.key in reached;
      var i :| 0 <= i < |order| && order[i] == it.key;
      var j :| 0 <= j < |arcs| && arcs[j].dst == it.key && reached[it.key] == LevelOf(reached, arcs[j].src) + 1;
      var a := arcs[j];
      assert a in arcs;
      assert levels[a.src] == LevelOf(reached, a.src);
      assert arcs[j].src in levels;
    }
  }

  /** The levels of handleAutoLayout: every item registered with no
      successors and indegree 0, the links between existing items added as
      arcs, Kahn's algorithm run from the items of indegree 0, and every
      item it did not reach set to level 0. */
  method Levels(items: seq<Item>, links: seq<Link>) returns (levels: map<Selectable, int>)
    ensures LevelsOf(items, Arcs(links, KeySet(items)), levels)
  {
    ghost var keys := KeySet(items);
    ghost var arcs := Arcs(links, keys);
    var order, adjacency, indegree := RegisterKeys(items);
    adjacency, indegree := AddArcs(links, keys, adjacency, indegree);
    assert GraphOf(arcs, keys, adjacency, indegree);
    var reached := AssignLevels(order, adjacency, indegree, keys, arcs);
    levels := FillLevels(items, reached);
    FilledLevelOf(items, reached, levels);
    LevelsFilled(items, arcs, order, reached, levels);
  }

  /** Every item at its key's position, if it has one. */
  function MoveAll(items: seq<Item>, positions: map<Selectable, Point>): (r: seq<Item>)
    ensures |r| == |items| && forall i :: 0 <= i < |items| ==> r[i] == Moved(items[i], positions)
  {
    seq(|items|, i requires 0 <= i < |items| => Moved(items[i], positions))
  }

  /** The positions of handleAutoLayout for given levels: the items
      bucketed by level, the levels sorted, each layer sorted and placed. */
  method Arrange(items: seq<Item>, levels: map<Selectable, int>, horizontal: bool)
    returns (positions: map<Selectable, Point>)
    requires forall it :: it in items ==> it.key in levels && levels[it.key] >= 0
    ensures UniqueKeys(items) ==> Arranged(items, levels, MoveAll(items, positions), horizontal)
  {
    var layerOrder, layers := BucketLayers(items, levels);
    var sorted := SortLevels(layerOrder);
    LaidFrom(items, levels, layerOrder, layers, sorted);
    positions := PlaceLayers(sorted, layers, horizontal);
    if UniqueKeys(items) {
      ArrangedFrom(items, levels, sorted, layers, horizontal, MoveAll(items, positions));
    }
  }

  /** handleAutoLayout once the lock is checked: levels the nodes and
      groups by Kahn's algorithm over the links between them, buckets them
      by level, sorts each layer and moves every node and group to its
      slot, clamped into the canvas. `levels` is the level map the layout
      used. */
  method AutoLayout(nodes: seq<Node>, groups: seq<Group>, links: seq<Link>, horizontal: bool)
    returns (nodes': seq<Node>, groups': seq<Group>, ghost levels: map<Selectable, int>)
    ensures |nodes'| == |nodes| && |groups'| == |groups|
    ensures forall i :: 0 <= i < |nodes| ==> nodes'[i] == nodes[i].(x := nodes'[i].x, y := nodes'[i].y)
    ensures forall i :: 0 <= i < |groups| ==> groups'[i] == groups[i].(x := groups'[i].x, y := groups'[i].y)
    ensures LevelsOf(Items(nodes, groups), Arcs(links, KeySet(Items(nodes, groups))), levels)
    ensures UniqueKeys(Items(nodes, groups)) ==>
      Arranged(Items(nodes, groups), levels, Items(nodes', groups'), horizontal)
    ensures UniqueKeys(Items(nodes, groups)) && NonNegative(Items(nodes, groups))
            && Acyclic(Arcs(links, KeySet(Items(nodes, groups))), KeySet(Items(nodes, groups))) ==>
      ArcsForward(Items(nodes, groups), Arcs(links, KeySet(Items(nodes, groups))), Items(nodes', groups'), horizontal)
  {
    var items := Items(nodes, groups);
    if |items| == 0 {
      return nodes, groups, map[];
    }
    var filled := Levels(items, links);
    levels := filled;
    var positions := Arrange(items, filled, horizontal);
    nodes' := seq(|nodes|, i requires 0 <= i < |nodes| => MoveNode(nodes[i], positions));
    groups' := seq(|groups|, i requires 0 <= i < |groups| => MoveGroup(groups[i], positions));
    MovedItems(nodes, groups, nodes', groups', positions);
    assert Items(nodes', groups') == MoveAll(items, positions);
    ghost var arcs := Arcs(links, KeySet(items));
    if UniqueKeys(items) && NonNegative(items) && Acyclic(arcs, KeySet(items)) {
      ArcsGoForward(items, arcs, filled, Items(nodes', groups'), horizontal);
    }
  }
}
