/** sort_depends() and resolve_depends(): the dependency graph of a list is explored, and items are
    taken out of it lowest priority first, as soon as everything they depend on has been taken. */
module DependencyOrder {
  import opened Basics

  type Item = string

  // A finite graph: an item without an entry depends on nothing.
  type Graph = map<Item, seq<Item>>

  function Deps(g: Graph, x: Item): seq<Item> {
    if x in g then g[x] else []
  }

  function DepSet(g: Graph, x: Item): set<Item> {
    set d | d in Deps(g, x)
  }

  function Elements(s: seq<Item>): set<Item> {
    set x | x in s
  }

  /* ---- what is reachable ---- */

  ghost predicate Closed(g: Graph, s: set<Item>) {
    forall x :: x in s ==> DepSet(g, x) <= s
  }

  // The least closed set that contains the list.
  ghost predicate IsReach(g: Graph, list: seq<Item>, u: set<Item>) {
    Elements(list) <= u && Closed(g, u) && forall s :: Closed(g, s) && Elements(list) <= s ==> u <= s
  }

  /* ---- what can be resolved ---- */

  // All chains of dependencies from x have fewer than n steps.
  ghost predicate Within(g: Graph, x: Item, n: nat)
    decreases n
  {
    n > 0 && forall d :: d in DepSet(g, x) ==> Within(g, d, n - 1)
  }

  ghost predicate Resolvable(g: Graph, x: Item) {
    exists n: nat :: Within(g, x, n)
  }

  lemma {:induction false} WithinMore(g: Graph, x: Item, n: nat, m: nat)
    requires Within(g, x, n) && n <= m
    ensures Within(g, x, m)
    decreases n
  {
    forall d | d in DepSet(g, x) ensures Within(g, d, m - 1) { WithinMore(g, d, n - 1, m - 1); }
  }

  // A common bound for finitely many resolvable items.
  lemma {:induction false} CommonBound(g: Graph, s: set<Item>) returns (n: nat)
    requires forall x :: x in s ==> Resolvable(g, x)
    ensures forall x :: x in s ==> Within(g, x, n)
    decreases s
  {
    n := 0;
    if s != {} {
      var x :| x in s;
      var m := CommonBound(g, s - {x});
      var k: nat :| Within(g, x, k);
      n := m + k;
      forall y | y in s ensures Within(g, y, n) { WithinMore(g, y, if y == x then k else m, n); }
    }
  }

  // An item is resolvable exactly if all its dependencies are.
  lemma ResolvableByDeps(g: Graph, x: Item)
    ensures Resolvable(g, x) <==> forall d :: d in DepSet(g, x) ==> Resolvable(g, d)
  {
    if forall d :: d in DepSet(g, x) ==> Resolvable(g, d) {
      var n := CommonBound(g, DepSet(g, x));
      assert Within(g, x, n + 1);
    }
    if Resolvable(g, x) {
      var n: nat :| Within(g, x, n);
      forall d | d in DepSet(g, x) ensures Resolvable(g, d) { assert Within(g, d, n - 1); }
    }
  }

  // A path in the graph, from its first element on.
  ghost predicate Path(g: Graph, p: seq<Item>) {
    forall i :: 0 <= i < |p| - 1 ==> p[i + 1] in DepSet(g, p[i])
  }

  // A cycle can be reached from x.
  ghost predicate ReachesCycle(g: Graph, x: Item) {
    exists p: seq<Item> :: |p| > 0 && p[0] == x && Path(g, p) && !Distinct(p)
  }

  lemma {:induction false} StuckPath(g: Graph, x: Item, n: nat) returns (p: seq<Item>)
    requires !Resolvable(g, x)
    ensures |p| == n + 1 && p[0] == x && Path(g, p)
    ensures forall i :: 0 <= i < |p| ==> !Resolvable(g, p[i])
    decreases n
  {
    p := [x];
    if n > 0 {
      ResolvableByDeps(g, x);
      var d :| d in DepSet(g, x) && !Resolvable(g, d);
      var q := StuckPath(g, d, n - 1);
      p := [x] + q;
    }
  }

  lemma {:induction false} Pigeonhole(p: seq<Item>, u: set<Item>)
    requires Distinct(p) && Elements(p) <= u
    ensures |p| <= |u|
    decreases p
  {
    if p != [] {
      var last := p[|p| - 1];
      var q := p[..|p| - 1];
      assert Elements(q) <= u - {last} by {
        forall x | x in q ensures x in u - {last} { assert x in p; }
      }
      Pigeonhole(q, u - {last});
    }
  }

  lemma {:induction false} NoCycleWithin(g: Graph, p: seq<Item>, i: nat, j: nat, n: nat)
    requires Path(g, p) && i < j < |p| && p[i] == p[j]
    ensures !Within(g, p[i], n)
    decreases n
  {
    if n > 0 && Within(g, p[i], n) {
      WithinAlong(g, p, i, j, n);
      NoCycleWithin(g, p, i, j, n - 1);
    }
  }

  lemma {:induction false} WithinAlong(g: Graph, p: seq<Item>, i: nat, j: nat, n: nat)
    requires Path(g, p) && i < j < |p| && Within(g, p[i], n)
    ensures n > 0 && Within(g, p[j], n - 1)
    decreases j - i
  {
    assert p[i + 1] in DepSet(g, p[i]);
    if i + 1 < j {
      WithinAlong(g, p, i + 1, j, n - 1);
      WithinMore(g, p[j], n - 2, n - 1);
    }
  }

  /** An item is resolvable exactly if no cycle can be reached from it. */
  lemma ResolvableIffNoCycle(g: Graph, x: Item)
    ensures Resolvable(g, x) <==> !ReachesCycle(g, x)
  {
    if !Resolvable(g, x) {
      var p := StuckPath(g, x, |g.Keys|);
      if Distinct(p) {
        // Every unresolvable item has dependencies, so it is a key of the graph.
        forall y | y in p ensures y in g.Keys { ResolvableByDeps(g, y); }
        Pigeonhole(p, g.Keys);
      }
      assert ReachesCycle(g, x);
    }
    if ReachesCycle(g, x) {
      var p: seq<Item> :| |p| > 0 && p[0] == x && Path(g, p) && !Distinct(p);
      var i, j :| 0 <= i < j < |p| && p[i] == p[j];
      forall n: nat ensures !Within(g, x, n) {
        if Within(g, x, n) {
          if i > 0 { WithinAlong(g, p, 0, i, n); }
          NoCycleWithin(g, p, i, j, if i > 0 then n - 1 else n);
        }
      }
    }
  }

  /* ---- the order in which items are taken ---- */

  type Priorities = map<Item, int>

  function Priority(prio: Priorities, x: Item): int {
    if x in prio then prio[x] else 0
  }

  /** An item without a priority counts as one of priority zero. */
  lemma PriorityZero(prio: Priorities, x: Item, p: int, y: Item)
    ensures x !in prio ==> Priority(prio[x := 0], y) == Priority(prio, y)
    ensures Priority(prio[x := p], y) == if y == x then p else Priority(prio, y)
  {
  }

  // Everything x depends on has been taken.
  ghost predicate Ready(g: Graph, taken: seq<Item>, x: Item) {
    DepSet(g, x) <= Elements(taken)
  }

  // Each item is ready when it is taken, and none that is ready and still untaken has a lower priority.
  ghost predicate Greedy(g: Graph, prio: Priorities, u: set<Item>, taken: seq<Item>) {
    forall k :: 0 <= k < |taken| ==> Chosen(g, prio, u, taken[..k], taken[k])
  }

  ghost predicate Chosen(g: Graph, prio: Priorities, u: set<Item>, before: seq<Item>, item: Item) {
    item in u && Ready(g, before, item)
    && forall x :: x in u && x !in before && Ready(g, before, x) ==> Priority(prio, item) <= Priority(prio, x)
  }

  // Nothing that is ready is left.
  ghost predicate Exhausted(g: Graph, u: set<Item>, taken: seq<Item>) {
    forall x :: x in u && Ready(g, taken, x) ==> x in taken
  }

  lemma {:induction false} TakenResolvable(g: Graph, prio: Priorities, u: set<Item>, taken: seq<Item>, k: nat)
    requires Greedy(g, prio, u, taken) && k < |taken|
    ensures Resolvable(g, taken[k])
    decreases k
  {
    forall d | d in DepSet(g, taken[k]) ensures Resolvable(g, d) {
      assert d in Elements(taken[..k]);
      var i :| 0 <= i < k && taken[..k][i] == d;
      TakenResolvable(g, prio, u, taken, i);
    }
    ResolvableByDeps(g, taken[k]);
  }

  lemma {:induction false} ResolvableTaken(g: Graph, u: set<Item>, taken: seq<Item>, x: Item, n: nat)
    requires Closed(g, u) && Exhausted(g, u, taken) && x in u && Within(g, x, n)
    ensures x in taken
    decreases n
  {
    forall d | d in DepSet(g, x) ensures d in Elements(taken) { ResolvableTaken(g, u, taken, d, n - 1); }
  }

  /** Exactly the resolvable items are taken, on every graph, cyclic or not. */
  lemma TakenAreResolvable(g: Graph, prio: Priorities, u: set<Item>, taken: seq<Item>)
    requires Closed(g, u) && Greedy(g, prio, u, taken) && Exhausted(g, u, taken)
    ensures forall x :: x in taken <==> x in u && Resolvable(g, x)
  {
    forall x ensures x in taken <==> x in u && Resolvable(g, x) {
      if x in taken {
        var k :| 0 <= k < |taken| && taken[k] == x;
        TakenResolvable(g, prio, u, taken, k);
      }
      if x in u && Resolvable(g, x) {
        var n: nat :| Within(g, x, n);
        ResolvableTaken(g, u, taken, x, n);
      }
    }
  }

  // What the builtins return: taken items are prepended; sort_depends keeps those of its list.
  function Returned(taken: seq<Item>, resolve: bool, list: seq<Item>): seq<Item> {
    if taken == [] then []
    else
      var last := taken[|taken| - 1];
      (if resolve || last in list then [last] else []) + Returned(taken[..|taken| - 1], resolve, list)
  }

  lemma {:induction false} ReturnedElements(taken: seq<Item>, resolve: bool, list: seq<Item>)
    ensures forall x :: x in Returned(taken, resolve, list) <==> x in taken && (resolve || x in list)
    decreases |taken|
  {
    if taken != [] {
      ReturnedElements(taken[..|taken| - 1], resolve, list);
      assert taken == taken[..|taken| - 1] + [taken[|taken| - 1]];
    }
  }

  // sort_depends is resolve_depends restricted to the items of the list.
  function Restrict(s: seq<Item>, list: seq<Item>): seq<Item> {
    if s == [] then [] else (if s[0] in list then [s[0]] else []) + Restrict(s[1..], list)
  }

  lemma {:induction false} SortIsRestriction(taken: seq<Item>, list: seq<Item>)
    ensures Returned(taken, false, list) == Restrict(Returned(taken, true, list), list)
    decreases |taken|
  {
    if taken != [] {
      SortIsRestriction(taken[..|taken| - 1], list);
      var r := Returned(taken, true, list);
      assert r == [taken[|taken| - 1]] + Returned(taken[..|taken| - 1], true, list);
      assert r[1..] == Returned(taken[..|taken| - 1], true, list);
    }
  }

  // resolve_depends returns the items in the reverse of the order in which they were taken.
  lemma {:induction false} ReturnedAt(taken: seq<Item>, list: seq<Item>, i: nat)
    requires i < |taken|
    ensures |Returned(taken, true, list)| == |taken|
    ensures Returned(taken, true, list)[i] == taken[|taken| - 1 - i]
    decreases |taken|
  {
    if |taken| > 1 {
      ReturnedAt(taken[..|taken| - 1], list, if i > 0 then i - 1 else 0);
    } else {
      assert Returned(taken[..|taken| - 1], true, list) == [];
    }
  }

  lemma ReturnedDistinct(taken: seq<Item>, list: seq<Item>)
    requires Distinct(taken)
    ensures Distinct(Returned(taken, true, list))
  {
    var r := Returned(taken, true, list);
    if taken != [] { ReturnedAt(taken, list, 0); }
    forall a, b | 0 <= a < b < |r| ensures r[a] != r[b] {
      ReturnedAt(taken, list, a);
      ReturnedAt(taken, list, b);
    }
  }

  /** In the result of resolve_depends every item stands before all its dependencies. */
  lemma BeforeDependencies(g: Graph, prio: Priorities, u: set<Item>, taken: seq<Item>, list: seq<Item>, i: nat, j: nat)
    requires Greedy(g, prio, u, taken) && Distinct(taken)
    requires i < |taken| && j < |taken|
    ensures |Returned(taken, true, list)| == |taken|
    ensures Returned(taken, true, list)[j] in DepSet(g, Returned(taken, true, list)[i]) ==> i < j
  {
    ReturnedAt(taken, list, i);
    ReturnedAt(taken, list, j);
    hide Returned, DepSet;
    assert Ready(g, taken[..|taken| - 1 - i], taken[|taken| - 1 - i]);
  }

  /* ---- the queue of ready items ---- */

  datatype Entry = Entry(priority: int, item: Item)

  // QMultiMap::insert: in front of the entries with the same key.
  function Insert(queue: seq<Entry>, e: Entry): (r: seq<Entry>) {
    if queue == [] || e.priority <= queue[0].priority then [e] + queue else [queue[0]] + Insert(queue[1..], e)
  }

  ghost predicate Sorted(queue: seq<Entry>) {
    forall i, j :: 0 <= i < j < |queue| ==> queue[i].priority <= queue[j].priority
  }

  lemma {:induction false} InsertMultiset(queue: seq<Entry>, e: Entry)
    ensures multiset(Insert(queue, e)) == multiset(queue) + multiset{e}
    decreases |queue|
  {
    if queue != [] && e.priority > queue[0].priority {
      InsertMultiset(queue[1..], e);
      assert queue == [queue[0]] + queue[1..];
    }
  }

  lemma {:induction false} InsertSorted(queue: seq<Entry>, e: Entry)
    requires Sorted(queue)
    ensures Sorted(Insert(queue, e))
    decreases |queue|
  {
    if queue != [] && e.priority > queue[0].priority {
      InsertSorted(queue[1..], e);
      InsertMultiset(queue[1..], e);
      var r := Insert(queue[1..], e);
      forall j | 0 <= j < |r| ensures queue[0].priority <= r[j].priority {
        assert r[j] in multiset(r);
        if r[j] != e { assert r[j] in queue[1..]; }
      }
    }
  }

  // How often an item is queued.
  function Queued(queue: seq<Entry>, x: Item): nat {
    if queue == [] then 0 else (if queue[0].item == x then 1 else 0) + Queued(queue[1..], x)
  }

  lemma {:induction false} InsertQueued(queue: seq<Entry>, e: Entry, x: Item)
    ensures Queued(Insert(queue, e), x) == Queued(queue, x) + (if e.item == x then 1 else 0)
    decreases |queue|
  {
    if queue == [] || e.priority <= queue[0].priority {
      assert ([e] + queue)[1..] == queue;
    } else {
      InsertQueued(queue[1..], e, x);
      assert ([queue[0]] + Insert(queue[1..], e))[1..] == Insert(queue[1..], e);
    }
  }

  // The entries carry their items' priorities.
  ghost predicate Priced(prio: Priorities, queue: seq<Entry>) {
    forall i :: 0 <= i < |queue| ==> queue[i].priority == Priority(prio, queue[i].item)
  }

  lemma {:induction false} QueuedIn(queue: seq<Entry>, x: Item)
    ensures Queued(queue, x) > 0 <==> exists i :: 0 <= i < |queue| && queue[i].item == x
    decreases |queue|
  {
    if queue != [] {
      QueuedIn(queue[1..], x);
      if i :| 0 <= i < |queue| && queue[i].item == x { assert i > 0 ==> queue[1..][i - 1].item == x; }
      if i :| 0 <= i < |queue[1..]| && queue[1..][i].item == x { assert queue[i + 1].item == x; }
    }
  }

  /* ---- a bound on the work, also when items are taken more than once ---- */

  ghost function Least(g: Graph, x: Item, n: nat): (r: nat)
    requires Within(g, x, n)
    ensures r <= n && Within(g, x, r) && forall m: nat :: m < r ==> !Within(g, x, m)
  {
    if n > 0 && Within(g, x, n - 1) then Least(g, x, n - 1)
    else
      assert forall m: nat :: m < n ==> !Within(g, x, m) by {
        forall m: nat | m < n ensures !Within(g, x, m) { if Within(g, x, m) { WithinMore(g, x, m, n - 1); } }
      }
      n
  }

  ghost function Rank(g: Graph, x: Item): (r: nat)
    requires Resolvable(g, x)
    ensures Within(g, x, r) && forall m: nat :: m < r ==> !Within(g, x, m)
  {
    var n: nat :| Within(g, x, n);
    Least(g, x, n)
  }

  lemma RankStep(g: Graph, x: Item, d: Item)
    requires Resolvable(g, x) && d in DepSet(g, x)
    ensures Resolvable(g, d) && Rank(g, d) < Rank(g, x)
  {
    assert Within(g, d, Rank(g, x) - 1);
  }

  // All ranks are at most height, and no item has more than fan dependees.
  datatype Bounds = Bounds(fan: nat, height: nat)

  ghost function Weight(g: Graph, b: Bounds, x: Item): nat {
    if Resolvable(g, x) && Rank(g, x) <= b.height then Pow(b.fan + 1, b.height - Rank(g, x)) else 0
  }

  ghost function Potential(g: Graph, b: Bounds, queue: seq<Entry>): nat {
    if queue == [] then 0 else Weight(g, b, queue[0].item) + Potential(g, b, queue[1..])
  }

  lemma {:induction false} InsertPotential(g: Graph, b: Bounds, queue: seq<Entry>, e: Entry)
    ensures Potential(g, b, Insert(queue, e)) == Potential(g, b, queue) + Weight(g, b, e.item)
    decreases |queue|
  {
    hide Weight;
    if queue == [] || e.priority <= queue[0].priority {
      assert ([e] + queue)[1..] == queue;
    } else {
      InsertPotential(g, b, queue[1..], e);
      assert ([queue[0]] + Insert(queue[1..], e))[1..] == Insert(queue[1..], e);
    }
  }

  // The most that one released dependee can weigh.
  ghost function Share(g: Graph, b: Bounds, x: Item): nat {
    if Resolvable(g, x) && Rank(g, x) < b.height then Pow(b.fan + 1, b.height - Rank(g, x) - 1) else 0
  }

  lemma ShareBound(g: Graph, b: Bounds, x: Item, d: Item)
    requires Resolvable(g, x) && Rank(g, x) <= b.height && d in DepSet(g, x)
    ensures Weight(g, b, x) <= Share(g, b, d)
  {
    RankStep(g, x, d);
    PowMonotone(b.fan + 1, b.height - Rank(g, x), b.height - Rank(g, d) - 1);
  }

  lemma ShareWeight(g: Graph, b: Bounds, d: Item, n: nat)
    requires Resolvable(g, d) && Rank(g, d) <= b.height && n <= b.fan
    ensures n * Share(g, b, d) < Weight(g, b, d)
  {
    var r := b.height - Rank(g, d);
    PowMonotone(b.fan + 1, 0, r);
    if r > 0 {
      var s := Pow(b.fan + 1, r - 1);
      PowMonotone(b.fan + 1, 0, r - 1);
      MulSum(s, b.fan, 1);
      assert Weight(g, b, d) == (b.fan + 1) * s;
      MulMonotone(s, n, b.fan);
    }
  }

}

/** The two builtins as the evaluator runs them: three tables that are filled by a recursive walk
    over the list, and a loop that drains the ready items. */
module DependencySort {
  import opened Basics
  import opened DependencyOrder

  function Get(m: map<Item, seq<Item>>, x: Item): seq<Item> {
    if x in m then m[x] else []
  }

  // dependees inverts the dependencies of the explored items, with multiplicities.
  ghost predicate Inverted(g: Graph, explored: set<Item>, dependees: map<Item, seq<Item>>) {
    forall d, x :: Occurs(Get(dependees, d), x) == if x in explored then Occurs(Deps(g, x), d) else 0
  }

  function Occurs(s: seq<Item>, x: Item): nat {
    multiset(s)[x]
  }

  lemma OccursAppend(s: seq<Item>, y: Item, x: Item)
    ensures Occurs(s + [y], x) == Occurs(s, x) + (if x == y then 1 else 0)
  {
  }

  lemma OccursIn(s: seq<Item>, x: Item)
    ensures Occurs(s, x) > 0 <==> x in s
  {
  }

  ghost predicate Leaf(g: Graph, x: Item) {
    Deps(g, x) == []
  }

  // The dependency sets hold what has not been taken.
  ghost predicate Tables(g: Graph, u: set<Item>, taken: seq<Item>, dependencies: map<Item, set<Item>>,
                         dependees: map<Item, seq<Item>>) {
    dependencies.Keys == u && Inverted(g, u, dependees)
    && forall x :: x in u ==> dependencies[x] == DepSet(g, x) - Elements(taken)
  }

  // Queued items are ready, and what is ready is taken or queued.
  ghost predicate Queue(g: Graph, u: set<Item>, taken: seq<Item>, queue: seq<Entry>) {
    (forall x :: Queued(queue, x) > 0 ==> x in u && Ready(g, taken, x))
    && (forall x :: x in u && Ready(g, taken, x) && x !in taken ==> Queued(queue, x) > 0)
  }

  // What the release of an item adds to the queue.
  ghost predicate Released(g: Graph, taken: seq<Item>, queue: seq<Entry>, queue': seq<Entry>, dependees: seq<Item>) {
    forall x :: Queued(queue', x) == Queued(queue, x) + (if Ready(g, taken, x) then Occurs(dependees, x) else 0)
  }

  ghost predicate Bounded(g: Graph, u: set<Item>, b: Bounds) {
    forall x :: x in u && Resolvable(g, x) ==> Rank(g, x) <= b.height
  }

  lemma BoundedRank(g: Graph, u: set<Item>, b: Bounds, x: Item)
    requires Bounded(g, u, b) && x in u && Resolvable(g, x)
    ensures Rank(g, x) <= b.height
  {
  }

  lemma ReadyResolvable(g: Graph, taken: seq<Item>, x: Item)
    requires Ready(g, taken, x) && forall t :: t in taken ==> Resolvable(g, t)
    ensures Resolvable(g, x)
  {
    ResolvableByDeps(g, x);
  }

  // Half-way through a release: the dependees in done have been seen.
  ghost predicate Loosened(g: Graph, u: set<Item>, taken: seq<Item>, item: Item, done: seq<Item>,
                           dependencies: map<Item, set<Item>>) {
    dependencies.Keys == u
    && forall x :: x in u ==>
      dependencies[x] == DepSet(g, x) - Elements(taken) - (if x in done then {item} else {})
  }

  lemma LoosenStart(g: Graph, u: set<Item>, taken: seq<Item>, item: Item, dependencies: map<Item, set<Item>>,
                    dependees: map<Item, seq<Item>>)
    requires Tables(g, u, taken, dependencies, dependees)
    ensures Loosened(g, u, taken, item, Get(dependees, item)[..0], dependencies)
  {
  }

  lemma LoosenOne(g: Graph, u: set<Item>, taken: seq<Item>, item: Item, done: seq<Item>, dep: Item,
                  dependencies: map<Item, set<Item>>)
    requires Loosened(g, u, taken, item, done, dependencies) && dep in u
    ensures dep in dependencies
    ensures Loosened(g, u, taken, item, done + [dep], dependencies[dep := dependencies[dep] - {item}])
    ensures dependencies[dep] - {item} == {} <==> Ready(g, taken + [item], dep)
  {
    assert Elements(taken + [item]) == Elements(taken) + {item};
  }

  lemma LoosenEnd(g: Graph, u: set<Item>, taken: seq<Item>, item: Item, dependencies: map<Item, set<Item>>,
                  dependees: map<Item, seq<Item>>)
    requires Loosened(g, u, taken, item, Get(dependees, item), dependencies) && Inverted(g, u, dependees)
    ensures Tables(g, u, taken + [item], dependencies, dependees)
  {
    assert Elements(taken + [item]) == Elements(taken) + {item};
    forall x | x in u ensures dependencies[x] == DepSet(g, x) - Elements(taken + [item]) {
      OccursIn(Get(dependees, item), x);
      OccursIn(Deps(g, x), item);
    }
  }

  lemma DependeeOf(g: Graph, u: set<Item>, d: Item, x: Item, dependencies: map<Item, set<Item>>,
                   dependees: map<Item, seq<Item>>)
    requires Inverted(g, u, dependees) && x in Get(dependees, d)
    ensures x in u && d in DepSet(g, x)
  {
    OccursIn(Get(dependees, d), x);
    OccursIn(Deps(g, x), d);
  }

  lemma ReleaseStart(g: Graph, taken: seq<Item>, queue: seq<Entry>)
    ensures forall list: seq<Item> :: Released(g, taken, queue, queue, list[..0])
  {
  }

  lemma SharesMore(i: nat, share: nat)
    ensures (i + 1) * share == i * share + share
  {
  }

  lemma ReleaseOne(g: Graph, taken: seq<Item>, q0: seq<Entry>, q1: seq<Entry>, q2: seq<Entry>, done: seq<Item>,
                   dep: Item)
    requires Released(g, taken, q0, q1, done)
    requires forall y :: Queued(q2, y) == Queued(q1, y) + (if Ready(g, taken, dep) && y == dep then 1 else 0)
    ensures Released(g, taken, q0, q2, done + [dep])
  {
    hide Queued, Ready;
    forall x ensures Queued(q2, x) == Queued(q0, x) + (if Ready(g, taken, x) then Occurs(done + [dep], x) else 0) {
      OccursAppend(done, dep, x);
    }
  }

  ghost function Universe(g: Graph, list: seq<Item>): (u: set<Item>)
    ensures Closed(g, u) && Elements(list) <= u
  {
    Elements(list) + set x, d | x in g && d in g[x] :: d
  }

  lemma {:induction false} FindFan(dependees: map<Item, seq<Item>>, keys: set<Item>) returns (fan: nat)
    ensures forall d :: d in keys ==> |Get(dependees, d)| <= fan
    decreases keys
  {
    fan := 0;
    if keys != {} {
      var d :| d in keys;
      var rest := FindFan(dependees, keys - {d});
      fan := rest + |Get(dependees, d)|;
    }
  }

  lemma FindBounds(g: Graph, u: set<Item>, dependees: map<Item, seq<Item>>) returns (b: Bounds)
    ensures Bounded(g, u, b) && forall d :: |Get(dependees, d)| <= b.fan
  {
    var fan := FindFan(dependees, dependees.Keys);
    var height := CommonBound(g, set x | x in u && Resolvable(g, x));
    b := Bounds(fan, height);
    forall x | x in u && Resolvable(g, x) ensures Rank(g, x) <= height { assert Within(g, x, height); }
    forall d ensures |Get(dependees, d)| <= fan {
      if d in dependees.Keys {}
    }
  }

  lemma StartDraining(g: Graph, prio: Priorities, u: set<Item>, dependencies: map<Item, set<Item>>,
                      dependees: map<Item, seq<Item>>, queue: seq<Entry>)
    requires dependencies.Keys == u && Inverted(g, u, dependees)
    requires forall x :: x in u ==> dependencies[x] == DepSet(g, x)
    requires forall x :: Queued(queue, x) == if x in u && Leaf(g, x) then 1 else 0
    ensures Tables(g, u, [], dependencies, dependees) && Queue(g, u, [], queue) && Greedy(g, prio, u, [])
  {
    forall x ensures Leaf(g, x) <==> Ready(g, [], x) {
      if !Leaf(g, x) { assert Deps(g, x)[0] in DepSet(g, x); }
    }
  }

  lemma AllResolvable(g: Graph, prio: Priorities, u: set<Item>, taken: seq<Item>)
    requires Greedy(g, prio, u, taken)
    ensures forall t :: t in taken ==> Resolvable(g, t)
  {
    hide Greedy, Resolvable;
    forall t | t in taken ensures Resolvable(g, t) {
      var k :| 0 <= k < |taken| && taken[k] == t;
      TakenResolvable(g, prio, u, taken, k);
    }
  }

  // The first entry of the queue is a greedy choice.
  lemma TakeNext(g: Graph, prio: Priorities, u: set<Item>, taken: seq<Item>, queue: seq<Entry>)
    requires queue != [] && Sorted(queue) && Priced(prio, queue) && Queue(g, u, taken, queue)
    requires Greedy(g, prio, u, taken)
    ensures var item := queue[0].item;
      item in u && Ready(g, taken, item) && Greedy(g, prio, u, taken + [item])
      && (forall t :: t in taken + [item] ==> Resolvable(g, t))
  {
    var item := queue[0].item;
    QueuedIn(queue, item);
    hide Ready, Greedy, Queued, Resolvable;
    forall x | x in u && x !in taken && Ready(g, taken, x) ensures Priority(prio, item) <= Priority(prio, x) {
      QueuedIn(queue, x);
      var i :| 0 <= i < |queue| && queue[i].item == x;
      assert i > 0 ==> queue[0].priority <= queue[i].priority;
    }
    GreedyNext(g, prio, u, taken, item);
    AllResolvable(g, prio, u, taken + [item]);
  }

  lemma GreedyNext(g: Graph, prio: Priorities, u: set<Item>, taken: seq<Item>, item: Item)
    requires Greedy(g, prio, u, taken) && Chosen(g, prio, u, taken, item)
    ensures Greedy(g, prio, u, taken + [item])
  {
    hide Chosen;
    var now := taken + [item];
    forall k | 0 <= k < |now| ensures Chosen(g, prio, u, now[..k], now[k]) {
      assert now[..k] == taken[..k];
      assert taken[..|taken|] == taken;
    }
  }

  lemma PopEntry(g: Graph, prio: Priorities, b: Bounds, queue: seq<Entry>)
    requires queue != [] && Sorted(queue) && Priced(prio, queue)
    ensures Potential(g, b, queue) == Weight(g, b, queue[0].item) + Potential(g, b, queue[1..])
    ensures Sorted(queue[1..]) && Priced(prio, queue[1..])
  {
  }

  lemma ReturnedNext(taken: seq<Item>, item: Item, resolve: bool, list: seq<Item>)
    ensures Returned(taken + [item], resolve, list)
         == (if resolve || item in list then [item] else []) + Returned(taken, resolve, list)
  {
    assert (taken + [item])[..|taken|] == taken;
  }

  // After one round the queue is right again.
  lemma QueueNext(g: Graph, prio: Priorities, u: set<Item>, taken: seq<Item>, item: Item, queue: seq<Entry>,
                  queue': seq<Entry>, dependees: map<Item, seq<Item>>)
    requires queue != [] && queue[0].item == item && Queue(g, u, taken, queue)
    requires Inverted(g, u, dependees) && Greedy(g, prio, u, taken)
    requires Released(g, taken + [item], queue[1..], queue', Get(dependees, item))
    ensures Queue(g, u, taken + [item], queue')
  {
    var now, popped := taken + [item], queue[1..];
    assert Elements(now) == Elements(taken) + {item};
    forall x ensures Queued(queue, x) == Queued(popped, x) + (if x == item then 1 else 0) {}
    forall x ensures Occurs(Get(dependees, item), x) > 0 <==> x in u && item in DepSet(g, x) {
      OccursIn(Deps(g, x), item);
    }
    hide Queued, Occurs, Greedy;
    forall x | x in u && Ready(g, now, x) && x !in now ensures Queued(queue', x) > 0 {
      if item !in DepSet(g, x) { assert Ready(g, taken, x); }
    }
    forall x | Queued(queue', x) > 0 ensures x in u && Ready(g, now, x) {
      if Queued(popped, x) > 0 { assert Ready(g, taken, x); }
    }
  }

  lemma {:induction false} OccursOnce(s: seq<Item>, x: Item)
    requires Distinct(s)
    ensures Occurs(s, x) <= 1
    decreases |s|
  {
    if s != [] {
      var n := |s| - 1;
      OccursOnce(s[..n], x);
      OccursAppend(s[..n], s[n], x);
      OccursIn(s[..n], x);
      assert s == s[..n] + [s[n]];
    } else {
      OccursIn(s, x);
    }
  }

  lemma TakenReady(g: Graph, prio: Priorities, u: set<Item>, taken: seq<Item>, x: Item)
    requires Greedy(g, prio, u, taken) && x in taken
    ensures Ready(g, taken, x)
  {
    var k :| 0 <= k < |taken| && taken[k] == x;
    assert Ready(g, taken[..k], taken[k]);
    assert Elements(taken[..k]) <= Elements(taken);
  }

  /* ---- how often an item is taken ---- */

  // One for an item without dependencies; otherwise what each taken item adds once x is ready.
  ghost function Credits(g: Graph, u: set<Item>, taken: seq<Item>, x: Item): nat {
    if taken == [] then (if x in u && Leaf(g, x) then 1 else 0)
    else Credits(g, u, taken[..|taken| - 1], x) + Credit(g, u, taken, x)
  }

  ghost function Credit(g: Graph, u: set<Item>, taken: seq<Item>, x: Item): nat
    requires taken != []
  {
    if x in u && Ready(g, taken, x) then Occurs(Deps(g, x), taken[|taken| - 1]) else 0
  }

  ghost predicate Accounted(g: Graph, u: set<Item>, taken: seq<Item>, queue: seq<Entry>) {
    forall x :: Occurs(taken, x) + Queued(queue, x) == Credits(g, u, taken, x)
  }

  lemma AccountedStart(g: Graph, u: set<Item>, queue: seq<Entry>)
    requires forall x :: Queued(queue, x) == if x in u && Leaf(g, x) then 1 else 0
    ensures Accounted(g, u, [], queue)
  {
    forall x ensures Occurs([], x) == 0 { OccursIn([], x); }
  }

  lemma AccountedNext(g: Graph, u: set<Item>, taken: seq<Item>, item: Item, queue: seq<Entry>, queue': seq<Entry>,
                      dependees: map<Item, seq<Item>>)
    requires queue != [] && queue[0].item == item && Accounted(g, u, taken, queue) && Inverted(g, u, dependees)
    requires Released(g, taken + [item], queue[1..], queue', Get(dependees, item))
    ensures Accounted(g, u, taken + [item], queue')
  {
    var now := taken + [item];
    assert now[..|now| - 1] == taken;
    forall x ensures Queued(queue, x) == Queued(queue[1..], x) + (if x == item then 1 else 0) {}
    hide Queued, Occurs, Ready;
    forall x ensures Occurs(now, x) + Queued(queue', x) == Credits(g, u, now, x) {
      OccursAppend(taken, item, x);
      if x !in u { assert Occurs(Get(dependees, item), x) == 0; }
    }
  }

  lemma AccountedEnd(g: Graph, u: set<Item>, taken: seq<Item>)
    requires Accounted(g, u, taken, [])
    ensures Counted(g, u, taken)
  {
    hide Occurs, Credits;
    forall x ensures Queued([], x) == 0 {}
  }

  lemma OneMore(c: nat, k: nat)
    ensures c * (k + 1) == c * k + c && c * 0 == 0
  {
  }

  lemma CreditsOfNone(g: Graph, u: set<Item>, x: Item, d: Item)
    requires DepSet(g, x) == {d}
    ensures Credits(g, u, [], x) == 0 && Occurs([], d) == 0
  {
    OccursIn([], d);
    assert d in DepSet(g, x) && Deps(g, x) != [];
  }

  lemma CreditsOfLast(g: Graph, u: set<Item>, taken: seq<Item>, x: Item, d: Item)
    requires x in u && DepSet(g, x) == {d} && taken != []
    ensures var n := |taken| - 1;
      Credits(g, u, taken, x) == Credits(g, u, taken[..n], x) + (if taken[n] == d then Occurs(Deps(g, x), d) else 0)
  {
    var n := |taken| - 1;
    OccursIn(Deps(g, x), taken[n]);
    assert taken[n] in Deps(g, x) ==> taken[n] in DepSet(g, x);
    if taken[n] == d { assert d in Elements(taken); }
  }

  lemma {:induction false} CreditsOfOnly(g: Graph, u: set<Item>, taken: seq<Item>, x: Item, d: Item)
    requires x in u && DepSet(g, x) == {d}
    ensures Credits(g, u, taken, x) == Occurs(Deps(g, x), d) * Occurs(taken, d)
    decreases |taken|
  {
    hide Occurs, Credits;
    var c := Occurs(Deps(g, x), d);
    if taken == [] {
      CreditsOfNone(g, u, x, d);
    } else {
      var n := |taken| - 1;
      CreditsOfOnly(g, u, taken[..n], x, d);
      CreditsOfLast(g, u, taken, x, d);
      OccursAppend(taken[..n], taken[n], d);
      assert taken == taken[..n] + [taken[n]];
      OneMore(c, Occurs(taken[..n], d));
    }
  }

  /** An item that names its only dependency more than once is taken more than once: the dependees
      are a list, with repetitions, while the dependencies are a set. */
  lemma RepeatedDependency(g: Graph, u: set<Item>, taken: seq<Item>, x: Item, d: Item)
    requires x in u && DepSet(g, x) == {d} && Counted(g, u, taken)
    ensures Occurs(taken, x) == Occurs(Deps(g, x), d) * Occurs(taken, d)
  {
    CreditsOfOnly(g, u, taken, x, d);
  }

  /** An item whose last dependency is taken once is taken as often as it names that one. */
  lemma TakenAsNamed(g: Graph, prio: Priorities, u: set<Item>, taken: seq<Item>, x: Item, k: nat)
    requires Greedy(g, prio, u, taken) && Counted(g, u, taken) && x in taken
    requires LastDependency(g, taken, x, k) && Occurs(taken, taken[k]) == 1
    ensures Occurs(taken, x) == Occurs(Deps(g, x), taken[k])
  {
    hide Occurs, Greedy, Credits, Ready;
    TakenIn(g, prio, u, taken, x);
    FirstOccurrence(taken, k);
    CreditsAtLast(g, u, taken, x, k);
  }

  // a depends on b, twice: b is taken once and a twice.
  lemma TakenTwice(u: set<Item>, taken: seq<Item>)
    requires var g: Graph := map["a" := ["b", "b"]];
      IsReach(g, ["a"], u) && Exhausted(g, u, taken) && Counted(g, u, taken)
    ensures Occurs(taken, "a") == 2 * Occurs(taken, "b") && Occurs(taken, "b") >= 1 && !Distinct(taken)
  {
    var g: Graph := map["a" := ["b", "b"]];
    assert "a" in Elements(["a"]);
    assert Deps(g, "a")[0] == "b";
    assert DepSet(g, "a") == {"b"};
    RepeatedDependency(g, u, taken, "a", "b");
    assert Ready(g, taken, "b");
    OccursIn(taken, "b");
    if Distinct(taken) { OccursOnce(taken, "a"); }
  }

  /* ---- when every item is taken once ---- */

  // The dependency of x that was taken last is at k.
  ghost predicate LastDependency(g: Graph, taken: seq<Item>, x: Item, k: nat) {
    k < |taken| && taken[k] in DepSet(g, x) && forall j :: k < j < |taken| ==> taken[j] !in DepSet(g, x)
  }

  // Every taken item names the one of its dependencies that was taken last once.
  ghost predicate LastNamedOnce(g: Graph, taken: seq<Item>) {
    forall x, k: nat :: x in taken && LastDependency(g, taken, x, k) ==> Occurs(Deps(g, x), taken[k]) == 1
  }

  // No item that can be resolved names a dependency twice.
  ghost predicate NoRepeats(g: Graph, u: set<Item>) {
    forall x :: x in u && Resolvable(g, x) ==> Distinct(Deps(g, x))
  }

  ghost predicate Counted(g: Graph, u: set<Item>, taken: seq<Item>) {
    forall x :: Occurs(taken, x) == Credits(g, u, taken, x)
  }

  lemma {:induction false} CreditsUnready(g: Graph, u: set<Item>, taken: seq<Item>, x: Item, d: Item)
    requires d in DepSet(g, x) && d !in taken
    ensures Credits(g, u, taken, x) == 0
    decreases |taken|
  {
    if taken != [] { CreditsUnready(g, u, taken[..|taken| - 1], x, d); }
  }

  // Before the last dependency nothing is added, since x is not ready, and after it nothing, since
  // no dependency follows.
  lemma {:induction false} CreditsAtLast(g: Graph, u: set<Item>, taken: seq<Item>, x: Item, k: nat)
    requires x in u && Ready(g, taken, x) && LastDependency(g, taken, x, k) && taken[k] !in taken[..k]
    ensures Credits(g, u, taken, x) == Occurs(Deps(g, x), taken[k])
    decreases |taken|
  {
    hide Occurs;
    var n := |taken| - 1;
    if k == n {
      CreditsUnready(g, u, taken[..n], x, taken[k]);
    } else {
      OccursIn(Deps(g, x), taken[n]);
      assert Ready(g, taken[..n], x) by {
        forall d | d in DepSet(g, x) ensures d in taken[..n] {
          assert d in Elements(taken);
          assert taken[n] != d;
        }
      }
      assert taken[..n][..k] == taken[..k];
      CreditsAtLast(g, u, taken[..n], x, k);
    }
  }

  lemma {:induction false} CreditsOfLeaf(g: Graph, u: set<Item>, taken: seq<Item>, x: Item)
    requires x in u && Leaf(g, x)
    ensures Credits(g, u, taken, x) == 1
    decreases |taken|
  {
    if taken != [] { CreditsOfLeaf(g, u, taken[..|taken| - 1], x); }
  }

  lemma {:induction false} FindLast(g: Graph, taken: seq<Item>, x: Item, i: nat) returns (k: nat)
    requires i < |taken| && taken[i] in DepSet(g, x)
    ensures LastDependency(g, taken, x, k)
    decreases |taken| - i
  {
    k := i;
    if j :| i < j < |taken| && taken[j] in DepSet(g, x) { k := FindLast(g, taken, x, j); }
  }

  lemma TakenIn(g: Graph, prio: Priorities, u: set<Item>, taken: seq<Item>, x: Item)
    requires Greedy(g, prio, u, taken) && x in taken
    ensures x in u && Ready(g, taken, x) && Resolvable(g, x)
  {
    var k :| 0 <= k < |taken| && taken[k] == x;
    assert Chosen(g, prio, u, taken[..k], taken[k]);
    TakenReady(g, prio, u, taken, x);
    TakenResolvable(g, prio, u, taken, k);
  }

  lemma FirstOccurrence(taken: seq<Item>, k: nat)
    requires k < |taken| && Occurs(taken, taken[k]) <= 1
    ensures taken[k] !in taken[..k]
  {
    assert taken == taken[..k] + taken[k..];
    OccursIn(taken[..k], taken[k]);
    OccursIn(taken[k..], taken[k]);
    assert taken[k..][0] == taken[k];
  }

  // By induction on the longest chain below x.
  lemma {:induction false} OnceIfLastNamedOnce(g: Graph, prio: Priorities, u: set<Item>, taken: seq<Item>, x: Item)
    requires Greedy(g, prio, u, taken) && Counted(g, u, taken) && LastNamedOnce(g, taken)
    requires Resolvable(g, x) && x in taken
    ensures Occurs(taken, x) == 1
    decreases Rank(g, x)
  {
    hide Occurs, Greedy, Resolvable, Rank, Credits;
    TakenIn(g, prio, u, taken, x);
    if Leaf(g, x) {
      CreditsOfLeaf(g, u, taken, x);
    } else {
      assert Deps(g, x)[0] in DepSet(g, x);
      assert Deps(g, x)[0] in Elements(taken);
      var i :| 0 <= i < |taken| && taken[i] == Deps(g, x)[0];
      var k := FindLast(g, taken, x, i);
      RankStep(g, x, taken[k]);
      OnceIfLastNamedOnce(g, prio, u, taken, taken[k]);
      FirstOccurrence(taken, k);
      CreditsAtLast(g, u, taken, x, k);
    }
  }

  lemma DistinctIfOnce(s: seq<Item>)
    requires forall x :: x in s ==> Occurs(s, x) == 1
    ensures Distinct(s)
  {
    hide Occurs;
    forall i, j | 0 <= i < j < |s| ensures s[i] != s[j] {
      FirstOccurrence(s, j);
      assert s[i] == s[..j][i];
    }
  }

  /** Every item is taken once exactly if each names the one of its dependencies that was taken last
      once: an item is queued again for every further time it names the item that makes it ready. */
  lemma TakenOnceIff(g: Graph, prio: Priorities, u: set<Item>, taken: seq<Item>)
    requires Greedy(g, prio, u, taken) && Counted(g, u, taken)
    ensures Distinct(taken) <==> LastNamedOnce(g, taken)
  {
    hide Occurs, Greedy, Resolvable, Rank, Credits, Ready;
    if Distinct(taken) {
      forall x, k: nat | x in taken && LastDependency(g, taken, x, k) ensures Occurs(Deps(g, x), taken[k]) == 1 {
        TakenIn(g, prio, u, taken, x);
        CreditsAtLast(g, u, taken, x, k);
        OccursIn(taken, x);
        OccursOnce(taken, x);
      }
    }
    if LastNamedOnce(g, taken) {
      forall x | x in taken ensures Occurs(taken, x) == 1 {
        TakenIn(g, prio, u, taken, x);
        OnceIfLastNamedOnce(g, prio, u, taken, x);
      }
      DistinctIfOnce(taken);
    }
  }

  /** What a caller can check: every item is taken once if no resolvable item names a dependency twice. */
  lemma TakenOnce(g: Graph, prio: Priorities, u: set<Item>, taken: seq<Item>)
    requires Greedy(g, prio, u, taken) && Counted(g, u, taken) && NoRepeats(g, u)
    ensures Distinct(taken)
  {
    hide Occurs, Greedy, Resolvable, Credits, Ready;
    forall x, k: nat | x in taken && LastDependency(g, taken, x, k) ensures Occurs(Deps(g, x), taken[k]) == 1 {
      TakenIn(g, prio, u, taken, x);
      OccursOnce(Deps(g, x), taken[k]);
      OccursIn(Deps(g, x), taken[k]);
    }
    TakenOnceIff(g, prio, u, taken);
  }

  // An item without dependencies and of lower priority is not taken later.
  lemma LeafFirst(g: Graph, prio: Priorities, u: set<Item>, taken: seq<Item>, k: nat, y: Item)
    requires Greedy(g, prio, u, taken) && Counted(g, u, taken) && k < |taken| && y in taken
    requires Leaf(g, taken[k]) && Priority(prio, taken[k]) < Priority(prio, y)
    ensures exists j :: k < j < |taken| && taken[j] == y
  {
    var x := taken[k];
    TakenIn(g, prio, u, taken, x);
    CreditsOfLeaf(g, u, taken, x);
    FirstOccurrence(taken, k);
    var j :| 0 <= j < |taken| && taken[j] == y;
    if j < k {
      assert Chosen(g, prio, u, taken[..j], taken[j]);
      assert taken[..j] <= taken[..k];
      assert x !in taken[..j];
      assert Ready(g, taken[..j], x);
    }
  }

  // a names b twice, but c is taken after b, and a is taken once.
  lemma RepeatTakenOnce(g: Graph, prio: Priorities, u: set<Item>, taken: seq<Item>)
    requires g == map["a" := ["b", "b", "c"]] && prio == map["b" := 0, "c" := 1]
    requires IsReach(g, ["a"], u) && Greedy(g, prio, u, taken) && Exhausted(g, u, taken) && Counted(g, u, taken)
    ensures Distinct(taken) && Occurs(Deps(g, "a"), "b") == 2
  {
    hide IsReach, Greedy, Exhausted, Counted, Credits, Distinct, Resolvable;
    assert Deps(g, "a") == ["b", "b", "c"];
    assert Deps(g, "a")[2] == "c";
    assert DepSet(g, "a") == {"b", "c"};
    forall x, k: nat | x in taken && LastDependency(g, taken, x, k) ensures Occurs(Deps(g, x), taken[k]) == 1 {
      assert x == "a";
      TakenIn(g, prio, u, taken, x);
      if taken[k] == "b" {
        assert "c" in Elements(taken);
        LeafFirst(g, prio, u, taken, k, "c");
      }
    }
    TakenOnceIff(g, prio, u, taken);
  }

  lemma TablesInverted(g: Graph, u: set<Item>, taken: seq<Item>, dependencies: map<Item, set<Item>>,
                       dependees: map<Item, seq<Item>>)
    requires Tables(g, u, taken, dependencies, dependees)
    ensures Inverted(g, u, dependees)
  {
  }

  lemma NothingLinked(g: Graph)
    ensures (forall d :: Linked(g, [], d) == []) && Filter<Item>([], x => Leaf(g, x)) == [] && Elements([]) == {}
  {
  }

  lemma NothingExplored(g: Graph)
    ensures Inverted(g, {}, map[]) && forall x :: Queued([], x) == 0
  {
    forall d, x ensures Occurs(Get(map[], d), x) == 0 { OccursIn([], x); }
  }

  lemma SortedNone(prio: Priorities)
    ensures Sorted([]) && Priced(prio, [])
  {
  }

  lemma ReturnedNone(resolve: bool, list: seq<Item>)
    ensures Returned([], resolve, list) == []
  {
  }

  lemma NothingLeft(g: Graph, u: set<Item>, taken: seq<Item>)
    requires Queue(g, u, taken, [])
    ensures Exhausted(g, u, taken)
  {
  }

  /* ---- ties ---- */

  // Items are explored depth-first: each when it is met first, and before its dependencies.
  ghost function Visited(g: Graph, u: set<Item>, list: seq<Item>, order: seq<Item>): (r: seq<Item>)
    requires Closed(g, u) && Elements(list) <= u && Elements(order) <= u
    ensures order <= r && Elements(r) <= u
    decreases u - Elements(order), |list|
  {
    if list == [] then order
    else if list[0] in order then Visited(g, u, list[1..], order)
    else
      assert list[0] in Elements(list);
      InClosed(g, u, list[0]);
      assert Elements(order + [list[0]]) == Elements(order) + {list[0]};
      var next := Visited(g, u, Deps(g, list[0]), order + [list[0]]);
      assert Elements(order) <= Elements(next);
      Visited(g, u, list[1..], next)
  }

  // x, as often as the list names d.
  function Copies(x: Item, deps: seq<Item>, d: Item): seq<Item> {
    if deps == [] then []
    else Copies(x, deps[..|deps| - 1], d) + (if deps[|deps| - 1] == d then [x] else [])
  }

  // What names d, in the order of exploration.
  function Linked(g: Graph, order: seq<Item>, d: Item): seq<Item> {
    if order == [] then []
    else
      var x := order[|order| - 1];
      Linked(g, order[..|order| - 1], d) + Copies(x, Deps(g, x), d)
  }

  /** The items in the order in which they became ready: first the leaves as they were explored, then,
      for each item taken, what names it and has no other dependency left, as often as it names it. */
  ghost function Arrivals(g: Graph, order: seq<Item>, taken: seq<Item>): seq<Item> {
    if taken == [] then Filter(order, x => Leaf(g, x))
    else
      Arrivals(g, order, taken[..|taken| - 1])
      + Filter(Linked(g, order, taken[|taken| - 1]), x => Ready(g, taken, x))
  }

  // Of all arrivals that are not gone this one has the least priority, and is the last to have it.
  ghost predicate Latest(prio: Priorities, arrivals: seq<Item>, gone: seq<nat>, m: nat) {
    && m < |arrivals| && m !in gone
    && forall i: nat :: i < |arrivals| && i !in gone && i != m ==>
      Priority(prio, arrivals[m]) < Priority(prio, arrivals[i])
      || (Priority(prio, arrivals[m]) == Priority(prio, arrivals[i]) && i < m)
  }

  /** Each time the latest arrival of least priority is taken; at says which one that is. */
  ghost predicate TakenLatest(g: Graph, prio: Priorities, order: seq<Item>, taken: seq<Item>, at: seq<nat>) {
    && |at| == |taken|
    && forall k :: 0 <= k < |taken| ==> TakenAt(g, prio, order, taken, at, k)
  }

  ghost predicate TakenAt(g: Graph, prio: Priorities, order: seq<Item>, taken: seq<Item>, at: seq<nat>, k: nat)
    requires k < |taken| == |at|
  {
    var arrivals := Arrivals(g, order, taken[..k]);
    Latest(prio, arrivals, at[..k], at[k]) && arrivals[at[k]] == taken[k]
  }

  // The queue holds the arrivals that are not gone, least priority first and the latest first among equals.
  ghost predicate Marked(prio: Priorities, queue: seq<Entry>, marks: seq<nat>, arrivals: seq<Item>, gone: seq<nat>) {
    && |marks| == |queue|
    && (forall i :: 0 <= i < |queue| ==> Marks(prio, arrivals, marks[i], queue[i]))
    && InMarkOrder(queue, marks)
    && (forall k: nat :: k < |arrivals| ==> (k in marks <==> k !in gone))
    && (forall k: nat :: k in gone ==> k < |arrivals|)
  }

  predicate Marks(prio: Priorities, arrivals: seq<Item>, m: nat, e: Entry) {
    m < |arrivals| && e.item == arrivals[m] && e.priority == Priority(prio, arrivals[m])
  }

  predicate InMarkOrder(queue: seq<Entry>, marks: seq<nat>)
    requires |marks| == |queue|
  {
    forall i, j :: 0 <= i < j < |queue| ==> Precedes(queue[i].priority, marks[i], queue[j].priority, marks[j])
  }

  predicate Precedes(p: int, m: nat, q: int, n: nat) {
    p < q || (p == q && m > n)
  }

  // Where an entry goes: behind all of lower priority, and in front of all others.
  ghost predicate Inserted(queue: seq<Entry>, e: Entry, queue': seq<Entry>, n: nat) {
    && n <= |queue| && queue' == queue[..n] + [e] + queue[n..]
    && (forall i :: 0 <= i < n ==> queue[i].priority < e.priority)
    && (forall i :: n <= i < |queue| ==> queue[i].priority >= e.priority)
  }

  lemma {:induction false} InsertPlace(queue: seq<Entry>, e: Entry) returns (n: nat)
    requires Sorted(queue)
    ensures Inserted(queue, e, Insert(queue, e), n)
    decreases |queue|
  {
    if queue == [] || e.priority <= queue[0].priority {
      n := 0;
      assert queue[..0] + [e] + queue[0..] == [e] + queue;
    } else {
      var m := InsertPlace(queue[1..], e);
      n := m + 1;
      InsertBehind(queue, e, m);
    }
  }

  lemma InsertBehind(queue: seq<Entry>, e: Entry, m: nat)
    requires queue != [] && e.priority > queue[0].priority && Inserted(queue[1..], e, Insert(queue[1..], e), m)
    ensures Inserted(queue, e, Insert(queue, e), m + 1)
  {
    assert queue[..m + 1] == [queue[0]] + queue[1..][..m] && queue[m + 1..] == queue[1..][m..];
    forall i | 0 <= i < m + 1 ensures queue[i].priority < e.priority {
      if i > 0 { assert queue[i] == queue[1..][i - 1]; }
    }
    forall i | m + 1 <= i < |queue| ensures queue[i].priority >= e.priority {
      assert queue[i] == queue[1..][i - 1];
    }
  }

  lemma MarksMore(marks: seq<nat>, n: nat, last: nat, k: nat)
    requires n <= |marks|
    ensures k in marks[..n] + [last] + marks[n..] <==> k == last || k in marks
  {
    assert marks == marks[..n] + marks[n..];
    assert k in marks <==> k in marks[..n] || k in marks[n..];
  }

  lemma MarkOrderMore(queue: seq<Entry>, marks: seq<nat>, last: nat, e: Entry, n: nat, queue': seq<Entry>)
    requires |marks| == |queue| && InMarkOrder(queue, marks) && Inserted(queue, e, queue', n)
    requires forall i :: 0 <= i < |marks| ==> marks[i] < last
    ensures InMarkOrder(queue', marks[..n] + [last] + marks[n..])
  {
    var m := marks[..n] + [last] + marks[n..];
    forall i, j | 0 <= i < j < |queue'| ensures Precedes(queue'[i].priority, m[i], queue'[j].priority, m[j]) {
      var i', j' := if i < n then i else i - 1, if j < n then j else j - 1;
      if i != n && j != n { assert Precedes(queue[i'].priority, marks[i'], queue[j'].priority, marks[j']); }
    }
  }

  lemma MarkedMore(prio: Priorities, queue: seq<Entry>, marks: seq<nat>, arrivals: seq<Item>, gone: seq<nat>, x: Item,
                   n: nat, queue': seq<Entry>)
    requires Marked(prio, queue, marks, arrivals, gone)
    requires Inserted(queue, Entry(Priority(prio, x), x), queue', n)
    ensures Marked(prio, queue', marks[..n] + [|arrivals|] + marks[n..], arrivals + [x], gone)
  {
    var m, all := marks[..n] + [|arrivals|] + marks[n..], arrivals + [x];
    MarkOrderMore(queue, marks, |arrivals|, Entry(Priority(prio, x), x), n, queue');
    hide InMarkOrder, Priority;
    forall i | 0 <= i < |m| ensures Marks(prio, all, m[i], queue'[i]) {
      var i' := if i < n then i else i - 1;
      if i != n { assert Marks(prio, arrivals, marks[i'], queue[i']); }
    }
    forall k: nat | k < |all| ensures k in m <==> k !in gone { MarksMore(marks, n, |arrivals|, k); }
  }

  lemma MarkedNext(prio: Priorities, queue: seq<Entry>, marks: seq<nat>, arrivals: seq<Item>, gone: seq<nat>)
    requires queue != [] && Marked(prio, queue, marks, arrivals, gone)
    ensures Latest(prio, arrivals, gone, marks[0]) && arrivals[marks[0]] == queue[0].item
    ensures Marked(prio, queue[1..], marks[1..], arrivals, gone + [marks[0]])
  {
    hide Priority;
    var m := marks[0];
    assert Marks(prio, arrivals, m, queue[0]);
    forall i: nat | i < |arrivals| && i !in gone && i != m
      ensures Precedes(Priority(prio, arrivals[m]), m, Priority(prio, arrivals[i]), i)
    {
      var j :| 0 <= j < |marks| && marks[j] == i;
      assert Marks(prio, arrivals, i, queue[j]);
      assert Precedes(queue[0].priority, marks[0], queue[j].priority, marks[j]);
    }
    forall j | 0 < j < |marks| ensures marks[j] != m {
      assert Marks(prio, arrivals, marks[j], queue[j]);
      assert Precedes(queue[0].priority, marks[0], queue[j].priority, marks[j]);
    }
    assert marks == [m] + marks[1..];
    assert m in marks;
    assert m !in marks[1..];
    forall k: nat | k < |arrivals| ensures k in marks[1..] <==> k !in gone + [m] {
      assert k in marks <==> k == m || k in marks[1..];
    }
  }

  lemma MarkedNone(prio: Priorities)
    ensures Marked(prio, [], [], [], [])
  {
  }

  lemma TakenLatestMore(g: Graph, prio: Priorities, order: seq<Item>, taken: seq<Item>, at: seq<nat>, item: Item,
                        m: nat)
    requires TakenLatest(g, prio, order, taken, at)
    requires Latest(prio, Arrivals(g, order, taken), at, m) && Arrivals(g, order, taken)[m] == item
    ensures TakenLatest(g, prio, order, taken + [item], at + [m])
  {
    hide Latest, Arrivals;
    var t, a := taken + [item], at + [m];
    forall k | 0 <= k < |t| ensures TakenAt(g, prio, order, t, a, k) {
      if k < |taken| {
        assert t[..k] == taken[..k] && a[..k] == at[..k];
        assert TakenAt(g, prio, order, taken, at, k);
      } else {
        assert t[..k] == taken && a[..k] == at;
      }
    }
  }

  lemma NoArrivals(g: Graph, prio: Priorities, order: seq<Item>)
    ensures TakenLatest(g, prio, order, [], []) && Arrivals(g, order, []) == Filter(order, x => Leaf(g, x))
  {
  }

  lemma ArrivalsMore(g: Graph, order: seq<Item>, taken: seq<Item>, item: Item)
    ensures Arrivals(g, order, taken + [item])
         == Arrivals(g, order, taken) + Filter(Linked(g, order, item), x => Ready(g, taken + [item], x))
  {
    assert (taken + [item])[..|taken|] == taken;
  }

  lemma OccursConcat(a: seq<Item>, b: seq<Item>, x: Item)
    ensures Occurs(a + b, x) == Occurs(a, x) + Occurs(b, x)
  {
  }

  lemma InsertPriced(prio: Priorities, queue: seq<Entry>, x: Item)
    requires Priced(prio, queue)
    ensures Priced(prio, Insert(queue, Entry(Priority(prio, x), x)))
  {
    hide Priority;
    var e := Entry(Priority(prio, x), x);
    var r := Insert(queue, e);
    InsertMultiset(queue, e);
    hide Insert;
    forall i | 0 <= i < |r| ensures r[i].priority == Priority(prio, r[i].item) {
      assert r[i] in multiset(r);
      if r[i] != e { assert r[i] in queue; }
    }
  }

  lemma InsertQueuedAll(queue: seq<Entry>, e: Entry)
    ensures forall y :: Queued(Insert(queue, e), y) == Queued(queue, y) + (if e.item == y then 1 else 0)
  {
    hide Queued, Insert;
    forall y ensures Queued(Insert(queue, e), y) == Queued(queue, y) + (if e.item == y then 1 else 0) {
      InsertQueued(queue, e, y);
    }
  }

  lemma NoCopies(item: Item, a: map<Item, seq<Item>>)
    ensures forall d :: Get(a, d) == Get(a, d) + Copies(item, [], d)
  {
    forall d ensures Get(a, d) == Get(a, d) + Copies(item, [], d) { assert Copies(item, [], d) == []; }
  }

  // One more link.
  lemma LinkOne(a: map<Item, seq<Item>>, b: map<Item, seq<Item>>, item: Item, deps: seq<Item>, dep: Item)
    requires forall d :: Get(b, d) == Get(a, d) + Copies(item, deps, d)
    ensures forall d :: Get(b[dep := Get(b, dep) + [item]], d) == Get(a, d) + Copies(item, deps + [dep], d)
  {
    hide Copies;
    forall d ensures Get(b[dep := Get(b, dep) + [item]], d) == Get(a, d) + Copies(item, deps + [dep], d) {
      CopiesMore(item, deps, dep, d);
      if d == dep {
        assert Get(a, d) + Copies(item, deps, d) + [item] == Get(a, d) + (Copies(item, deps, d) + [item]);
      } else {
        assert Copies(item, deps, d) + [] == Copies(item, deps, d);
      }
    }
  }

  lemma CopiesMore(x: Item, deps: seq<Item>, y: Item, d: Item)
    ensures Copies(x, deps + [y], d) == Copies(x, deps, d) + (if y == d then [x] else [])
  {
    assert (deps + [y])[..|deps|] == deps;
  }

  lemma {:induction false} CopiesOccur(x: Item, deps: seq<Item>, d: Item, y: Item)
    ensures Occurs(Copies(x, deps, d), y) == if x == y then Occurs(deps, d) else 0
    decreases |deps|
  {
    if deps == [] {
      OccursIn([], y);
      OccursIn([], d);
    } else {
      var n := |deps| - 1;
      CopiesOccur(x, deps[..n], d, y);
      OccursAppend(deps[..n], deps[n], d);
      OccursAppend(Copies(x, deps[..n], d), x, y);
      assert deps == deps[..n] + [deps[n]];
      assert Copies(x, deps[..n], d) + [] == Copies(x, deps[..n], d);
    }
  }

  // One turn of the loop.
  lemma VisitedStep(g: Graph, u: set<Item>, list: seq<Item>, order: seq<Item>)
    requires list != [] && Closed(g, u) && Elements(list) <= u && Elements(order) <= u
    ensures list[0] in u && Elements(list[1..]) <= u && Elements(order + [list[0]]) <= u
    ensures Elements(Deps(g, list[0])) <= u
    ensures Visited(g, u, list, order)
         == if list[0] in order then Visited(g, u, list[1..], order)
            else Visited(g, u, list[1..], Visited(g, u, Deps(g, list[0]), order + [list[0]]))
  {
    assert list[0] in Elements(list);
    InClosed(g, u, list[0]);
  }

  lemma VisitedNone(g: Graph, u: set<Item>, order: seq<Item>)
    requires Closed(g, u) && Elements(order) <= u
    ensures Visited(g, u, [], order) == order
  {
  }

  // The links count how often dependencies are named.
  lemma LinksInvert(g: Graph, item: Item, explored: set<Item>, a: map<Item, seq<Item>>, b: map<Item, seq<Item>>)
    requires Inverted(g, explored, a) && item !in explored
    requires forall d :: Get(b, d) == Get(a, d) + Copies(item, Deps(g, item), d)
    ensures Inverted(g, explored + {item}, b)
  {
    hide Occurs;
    forall d, x ensures Occurs(Get(b, d), x) == if x in explored + {item} then Occurs(Deps(g, x), d) else 0 {
      OccursConcat(Get(a, d), Copies(item, Deps(g, item), d), x);
      CopiesOccur(item, Deps(g, item), d, x);
    }
  }

  lemma LinkedOn(g: Graph, order: seq<Item>, x: Item)
    ensures forall d :: Linked(g, order + [x], d) == Linked(g, order, d) + Copies(x, Deps(g, x), d)
    ensures Elements(order + [x]) == Elements(order) + {x}
  {
    forall d ensures Linked(g, order + [x], d) == Linked(g, order, d) + Copies(x, Deps(g, x), d) {
      LinkedMore(g, order, x, d);
    }
  }

  lemma LinkedMore(g: Graph, order: seq<Item>, x: Item, d: Item)
    ensures Linked(g, order + [x], d) == Linked(g, order, d) + Copies(x, Deps(g, x), d)
  {
    assert (order + [x])[..|order|] == order;
  }

  // The exploration goes through a list in its order, and meets an item before its dependencies.
  lemma {:induction false} VisitedParts(g: Graph, u: set<Item>, a: seq<Item>, b: seq<Item>, order: seq<Item>)
    requires Closed(g, u) && Elements(a + b) <= u && Elements(order) <= u
    ensures Elements(a) <= u && Elements(b) <= u
    ensures Visited(g, u, a + b, order) == Visited(g, u, b, Visited(g, u, a, order))
    ensures a != [] && a[0] !in order ==> order + [a[0]] <= Visited(g, u, a + b, order)
    decreases u - Elements(order), |a|
  {
    assert Elements(a) <= Elements(a + b) && Elements(b) <= Elements(a + b) by {
      forall x | x in a || x in b ensures x in a + b {}
    }
    if a == [] {
      assert a + b == b;
    } else {
      assert (a + b)[0] == a[0] && (a + b)[1..] == a[1..] + b;
      VisitedStep(g, u, a + b, order);
      VisitedStep(g, u, a, order);
      if a[0] in order {
        VisitedParts(g, u, a[1..], b, order);
      } else {
        var next := Visited(g, u, Deps(g, a[0]), order + [a[0]]);
        assert Elements(order) < Elements(next) by {
          assert order + [a[0]] <= next && Elements(order + [a[0]]) == Elements(order) + {a[0]};
          forall x | x in Elements(order + [a[0]]) ensures x in next {}
          assert a[0] !in Elements(order);
        }
        VisitedParts(g, u, a[1..], b, next);
      }
    }
  }

  lemma {:induction false} VisitedLeaves(g: Graph, u: set<Item>, list: seq<Item>, order: seq<Item>)
    requires Closed(g, u) && Elements(list) <= u && Elements(order) <= u
    requires Distinct(order + list) && forall x :: x in list ==> Deps(g, x) == []
    ensures Visited(g, u, list, order) == order + list
    decreases |list|
  {
    if list != [] {
      var next := order + [list[0]];
      VisitedStep(g, u, list, order);
      VisitedNone(g, u, next);
      assert list[0] !in order by {
        forall i | 0 <= i < |order| ensures order[i] != list[0] {
          assert (order + list)[i] != (order + list)[|order|];
        }
      }
      assert next + list[1..] == order + list;
      VisitedLeaves(g, u, list[1..], next);
    }
  }

  lemma {:induction false} LeavesUnlinked(g: Graph, order: seq<Item>, d: Item)
    requires forall x :: x in order ==> Deps(g, x) == []
    ensures Linked(g, order, d) == []
    decreases |order|
  {
    if order != [] {
      LeavesUnlinked(g, order[..|order| - 1], d);
      assert order[|order| - 1] in order;
      assert Copies(order[|order| - 1], [], d) == [];
    }
  }

  lemma {:induction false} LeavesArrive(g: Graph, order: seq<Item>, taken: seq<Item>)
    requires forall x :: x in order ==> Deps(g, x) == []
    ensures Arrivals(g, order, taken) == order
    decreases |taken|
  {
    if taken == [] {
      FilterAll(order, x => Leaf(g, x));
    } else {
      LeavesArrive(g, order, taken[..|taken| - 1]);
      LeavesUnlinked(g, order, taken[|taken| - 1]);
      assert Filter<Item>([], x => Ready(g, taken, x)) == [];
    }
  }

  lemma GoneBehind(at: seq<nat>, n: nat, k: nat, m: nat)
    requires k <= |at| && n - k <= m < n && forall j: nat :: j < k ==> at[j] == n - 1 - j
    ensures m in at[..k]
  {
    assert at[..k][n - 1 - m] == m;
  }

  // Of equals the last one that is left is taken each time.
  lemma {:induction false} LatestBackwards(prio: Priorities, list: seq<Item>, p: int, at: seq<nat>, k: nat)
    requires forall x :: x in list ==> Priority(prio, x) == p
    requires k < |at| && forall j: nat :: j <= k ==> Latest(prio, list, at[..j], at[j])
    ensures k < |list| && at[k] == |list| - 1 - k
    decreases k
  {
    forall j: nat | j < k ensures j < |list| && at[j] == |list| - 1 - j { LatestBackwards(prio, list, p, at, j); }
    assert Latest(prio, list, at[..k], at[k]);
    var m, n := at[k], |list|;
    if m > n - 1 - k { GoneBehind(at, n, k, m); }
    var i := n - 1 - k;
    assert i !in at[..k];
    assert Priority(prio, list[m]) == p && Priority(prio, list[i]) == p;
  }

  ghost predicate EqualLeaves(g: Graph, prio: Priorities, list: seq<Item>, p: int) {
    Distinct(list) && forall x :: x in list ==> Deps(g, x) == [] && Priority(prio, x) == p
  }

  /** Items without dependencies that are of one priority are returned in the order in which they were given. */
  lemma LeavesReturned(g: Graph, prio: Priorities, list: seq<Item>, p: int, resolve: bool, taken: seq<Item>,
                       at: seq<nat>)
    requires EqualLeaves(g, prio, list, p)
    requires TakenLatest(g, prio, Visited(g, Universe(g, list), list, []), taken, at)
    requires forall k: nat :: k < |Arrivals(g, Visited(g, Universe(g, list), list, []), taken)| ==> k in at
    ensures Returned(taken, resolve, list) == list
  {
    assert [] + list == list;
    VisitedLeaves(g, Universe(g, list), list, []);
    LeavesArrive(g, list, taken);
    LeavesTaken(g, prio, list, p, taken, at);
    hide Arrivals, Visited, Returned, Latest;
    ReturnedReversed(taken, resolve, list);
  }

  lemma LeavesTaken(g: Graph, prio: Priorities, list: seq<Item>, p: int, taken: seq<Item>, at: seq<nat>)
    requires forall x :: x in list ==> Deps(g, x) == [] && Priority(prio, x) == p
    requires TakenLatest(g, prio, list, taken, at) && forall k: nat :: k < |list| ==> k in at
    ensures |taken| == |list| && forall k :: 0 <= k < |taken| ==> taken[k] == list[|list| - 1 - k]
  {
    hide Deps, Priority, Arrivals;
    forall k: nat | k < |at| ensures Latest(prio, list, at[..k], at[k]) && list[at[k]] == taken[k] {
      assert TakenAt(g, prio, list, taken, at, k);
      LeavesArrive(g, list, taken[..k]);
    }
    forall k: nat | k < |at| ensures k < |list| && at[k] == |list| - 1 - k { LatestBackwards(prio, list, p, at, k); }
    if list != [] { assert 0 in at; }
    if at != [] { assert at[|at| - 1] == |list| - |at|; }
  }

  lemma ReturnedReversed(taken: seq<Item>, resolve: bool, list: seq<Item>)
    requires |taken| == |list| && forall k :: 0 <= k < |taken| ==> taken[k] == list[|list| - 1 - k]
    ensures Returned(taken, resolve, list) == list
  {
    ReturnedNone(resolve, list);
    ReturnedAll(taken, resolve, list);
    hide Returned;
    var r := Returned(taken, true, list);
    forall i: nat | i < |list| ensures |r| == |list| && r[i] == list[i] { ReturnedAt(taken, list, i); }
  }

  lemma {:induction false} ReturnedAll(taken: seq<Item>, resolve: bool, list: seq<Item>)
    requires forall x :: x in taken ==> x in list
    ensures Returned(taken, resolve, list) == Returned(taken, true, list)
    decreases |taken|
  {
    if taken != [] { ReturnedAll(taken[..|taken| - 1], resolve, list); }
  }

  ghost predicate Untouched(g: Graph, dependencies: map<Item, set<Item>>) {
    forall x :: x in dependencies ==> dependencies[x] == DepSet(g, x)
  }

  ghost predicate LeavesQueued(g: Graph, explored: set<Item>, queue: seq<Entry>) {
    forall x :: Queued(queue, x) == if x in explored && Leaf(g, x) then 1 else 0
  }

  lemma UntouchedMore(g: Graph, dependencies: map<Item, set<Item>>, item: Item, dset: set<Item>)
    requires Untouched(g, dependencies) && dset == Elements(Deps(g, item))
    ensures Untouched(g, dependencies[item := dset])
  {
  }

  lemma LeavesMore(g: Graph, explored: set<Item>, a: seq<Entry>, item: Item, b: seq<Entry>)
    requires LeavesQueued(g, explored, a) && item !in explored
    requires forall y :: Queued(b, y) == Queued(a, y) + (if item == y && Leaf(g, item) then 1 else 0)
    ensures LeavesQueued(g, explored + {item}, b)
  {
    hide Queued, Leaf;
  }

  /** What a search of the list adds: items with all their dependencies, and only what the list reaches. */
  ghost predicate Grown(g: Graph, list: seq<Item>, before: set<Item>, after: set<Item>) {
    (forall x :: x in after - before ==> DepSet(g, x) <= after)
    && (forall s :: Closed(g, s) && Elements(list) <= s ==> after <= before + s)
  }

  lemma GrownNone(g: Graph, list: seq<Item>, a: set<Item>)
    ensures Grown(g, list, a, a)
  {
  }

  lemma GrownMore(g: Graph, list: seq<Item>, a: set<Item>, b: set<Item>, item: Item, c: set<Item>)
    requires Grown(g, list, a, b) && Grown(g, Deps(g, item), b + {item}, c) && item in list
    requires b + {item} + DepSet(g, item) <= c
    ensures Grown(g, list, a, c)
  {
    forall s | Closed(g, s) && Elements(list) <= s ensures c <= a + s {
      assert item in Elements(list);
      InClosed(g, s, item);
    }
    forall x | x in c - a ensures DepSet(g, x) <= c {
      if x in b { assert x in b - a; } else if x != item { assert x in c - (b + {item}); }
    }
  }

  class DependencySorter {
    const depends: Graph
    const priority: Priorities
    var dependencies: map<Item, set<Item>>
    var dependees: map<Item, seq<Item>>
    var rootSet: seq<Entry>

    // The items in the order in which they were explored, and in which they became ready; which arrivals
    // the entries of the queue are, and which ones were taken.
    ghost var order: seq<Item>
    ghost var arrivals: seq<Item>
    ghost var marks: seq<nat>
    ghost var gone: seq<nat>

    constructor (depends: Graph, priority: Priorities)
      ensures this.depends == depends && this.priority == priority && Empty()
    {
      this.depends, this.priority := depends, priority;
      dependencies, dependees, rootSet := map[], map[], [];
      order, arrivals, marks, gone := [], [], [], [];
    }

    ghost predicate Empty()
      reads this
    {
      dependencies == map[] && dependees == map[] && rootSet == []
      && order == [] && arrivals == [] && marks == [] && gone == []
    }

    // The queue holds the arrivals that were not taken, in the order in which they will be.
    ghost predicate QueueMarked()
      reads this`rootSet, this`marks, this`arrivals, this`gone
    {
      Sorted(rootSet) && Priced(priority, rootSet) && Marked(priority, rootSet, marks, arrivals, gone)
    }

    ghost predicate InOrder()
      reads this`order, this`arrivals, this`gone, this`dependencies, this`dependees
    {
      Elements(order) == dependencies.Keys && arrivals == Filter(order, x => Leaf(depends, x)) && gone == []
      && forall d :: Get(dependees, d) == Linked(depends, order, d)
    }

    lemma InsertedAt(queue: seq<Entry>, e: Entry, queue': seq<Entry>, n: nat)
      requires Inserted(queue, e, queue', n) && Marked(priority, queue, marks, arrivals, gone)
      ensures n <= |marks|
    {
    }

    // The tables while the list is explored.
    ghost predicate Explored()
      reads this
    {
      Inverted(depends, dependencies.Keys, dependees) && Untouched(depends, dependencies)
      && LeavesQueued(depends, dependencies.Keys, rootSet) && QueueMarked() && InOrder()
    }

    /** The item goes behind all entries of lower priority and in front of all others. */
    method Enqueue(x: Item)
      requires QueueMarked()
      modifies this`rootSet, this`marks, this`arrivals
      ensures QueueMarked() && arrivals == old(arrivals) + [x]
      ensures rootSet == Insert(old(rootSet), Entry(Priority(priority, x), x))
      ensures exists n :: Inserted(old(rootSet), Entry(Priority(priority, x), x), rootSet, n)
      ensures forall y :: Queued(rootSet, y) == Queued(old(rootSet), y) + (if x == y then 1 else 0)
    {
      hide Marked, Inserted, Queued, Insert, Sorted, Priced, Priority;
      var e := Entry(Priority(priority, x), x);
      ghost var was := rootSet;
      InsertSorted(rootSet, e);
      InsertPriced(priority, rootSet, x);
      InsertQueuedAll(rootSet, e);
      ghost var n := InsertPlace(rootSet, e);
      rootSet := Insert(rootSet, e);
      MarkedMore(priority, was, marks, arrivals, gone, x, n, rootSet);
      InsertedAt(was, e, rootSet, n);
      marks := marks[..n] + [|arrivals|] + marks[n..];
      arrivals := arrivals + [x];
    }

    // Records the item with everything it depends on.
    method LinkAll(item: Item, deps: seq<Item>) returns (dset: set<Item>)
      modifies this`dependees
      ensures dset == Elements(deps)
      ensures forall d :: Get(dependees, d) == Get(old(dependees), d) + Copies(item, deps, d)
    {
      hide Copies, Get;
      dset := {};
      NoCopies(item, dependees);
      for i := 0 to |deps|
        invariant dset == Elements(deps[..i])
        invariant forall d :: Get(dependees, d) == Get(old(dependees), d) + Copies(item, deps[..i], d)
      {
        assert deps[..i + 1] == deps[..i] + [deps[i]];
        dset := dset + {deps[i]};
        LinkOne(old(dependees), dependees, item, deps[..i], deps[i]);
        dependees := dependees[deps[i] := Get(dependees, deps[i]) + [item]];
      }
      assert deps[..|deps|] == deps;
    }

    // The body of populateDeps() for one new item, up to the recursive call.
    method AddItem(item: Item) returns (deps: seq<Item>)
      requires Explored() && item !in dependencies
      modifies this
      ensures Explored() && dependencies.Keys == old(dependencies.Keys) + {item} && deps == Deps(depends, item)
      ensures order == old(order) + [item]
    {
      hide QueueMarked, InOrder, Queued, Insert, Inverted, Inserted, Linked, Filter, Copies, Untouched, LeavesQueued;
      InOrderIs();
      deps := Deps(depends, item);
      ghost var queue := rootSet;
      var dset: set<Item> := {};
      ghost var explored, links := dependencies.Keys, dependees;
      ghost var was := arrivals;
      if deps == [] {
        Enqueue(item);
        NoCopies(item, dependees);
      } else {
        dset := LinkAll(item, deps);
      }
      LinksInvert(depends, item, explored, links, dependees);
      LeavesMore(depends, explored, queue, item, rootSet);
      UntouchedMore(depends, dependencies, item, dset);
      dependencies := dependencies[item := dset];
      order := order + [item];
      InOrderMore(item, explored, links, was);
    }

    lemma InOrderIs()
      requires InOrder()
      ensures Elements(order) == dependencies.Keys && arrivals == Filter(order, x => Leaf(depends, x)) && gone == []
      ensures forall d :: Get(dependees, d) == Linked(depends, order, d)
    {
    }

    lemma InOrderMore(item: Item, explored: set<Item>, links: map<Item, seq<Item>>, was: seq<Item>)
      requires order != [] && order[|order| - 1] == item && gone == []
      requires var before := order[..|order| - 1];
        && Elements(before) == explored && dependencies.Keys == explored + {item}
        && (forall d :: Get(links, d) == Linked(depends, before, d))
        && was == Filter(before, x => Leaf(depends, x))
      requires arrivals == was + (if Leaf(depends, item) then [item] else [])
      requires forall d :: Get(dependees, d) == Get(links, d) + Copies(item, Deps(depends, item), d)
      ensures InOrder()
    {
      var before := order[..|order| - 1];
      assert order == before + [item];
      LinkedOn(depends, before, item);
      FilterAppend(before, [item], x => Leaf(depends, x));
      FilterOne(item, x => Leaf(depends, x));
    }

    method PopulateDeps(deps: seq<Item>, ghost u: set<Item>)
      requires Explored() && Closed(depends, u) && Elements(deps) <= u && Elements(order) <= u
      modifies this
      ensures Explored() && old(dependencies.Keys) + Elements(deps) <= dependencies.Keys
      ensures order == Visited(depends, u, deps, old(order))
      ensures Grown(depends, deps, old(dependencies.Keys), dependencies.Keys)
      decreases u - dependencies.Keys
    {
      hide Explored, Closed, Grown, Visited, Deps, DepSet;
      assert deps[0..] == deps;
      GrownNone(depends, deps, dependencies.Keys);
      for i := 0 to |deps|
        invariant Explored() && old(dependencies.Keys) + Elements(deps[..i]) <= dependencies.Keys
        invariant Elements(order) <= u && Elements(deps[i..]) <= u
        invariant Visited(depends, u, deps[i..], order) == Visited(depends, u, deps, old(order))
        invariant Grown(depends, deps, old(dependencies.Keys), dependencies.Keys)
      {
        var item := deps[i];
        assert Elements(deps[..i + 1]) == Elements(deps[..i]) + {item};
        VisitedStep(depends, u, deps[i..], order);
        assert deps[i..][0] == item && deps[i..][1..] == deps[i + 1..];
        ExploredElements();
        if item !in dependencies {
          ghost var before := dependencies.Keys;
          var dependsOn := AddItem(item);
          InClosed(depends, u, item);
          PopulateDeps(dependsOn, u);
          GrownMore(depends, deps, old(dependencies.Keys), before, item, dependencies.Keys);
        }
      }
      VisitedNone(depends, u, order);
      assert deps[..|deps|] == deps && deps[|deps|..] == [];
    }

    lemma ExploredElements()
      requires Explored()
      ensures Elements(order) == dependencies.Keys && forall x :: x in order <==> x in dependencies
    {
      forall x ensures x in order <==> x in Elements(order) {}
    }

    ghost predicate Draining(u: set<Item>, taken: seq<Item>)
      reads this
    {
      Tables(depends, u, taken, dependencies, dependees) && QueueMarked()
      && Queue(depends, u, taken, rootSet) && Greedy(depends, priority, u, taken)
    }

    // One dependee loses the item, and is queued if that was the last one missing.
    method ReleaseDependee(item: Item, dep: Item, ghost u: set<Item>, ghost taken: seq<Item>, ghost b: Bounds,
                           ghost done: seq<Item>, ghost start: seq<Entry>)
      requires dep in u && item in DepSet(depends, dep) && Loosened(depends, u, taken, item, done, dependencies)
      requires QueueMarked() && Released(depends, taken + [item], start, rootSet, done)
      requires Bounded(depends, u, b) && forall t :: t in taken + [item] ==> Resolvable(depends, t)
      modifies this`dependencies, this`rootSet, this`marks, this`arrivals
      ensures Loosened(depends, u, taken, item, done + [dep], dependencies)
      ensures QueueMarked() && arrivals == old(arrivals) + (if Ready(depends, taken + [item], dep) then [dep] else [])
      ensures Released(depends, taken + [item], start, rootSet, done + [dep])
      ensures Potential(depends, b, rootSet) <= Potential(depends, b, old(rootSet)) + Share(depends, b, item)
    {
      hide Sorted, Priced, Queued, Insert, Occurs, Weight, Share, Potential, Bounded, Resolvable, Rank, Loosened;
      hide Released, Ready, QueueMarked;
      ghost var now, before := taken + [item], rootSet;
      LoosenOne(depends, u, taken, item, done, dep, dependencies);
      var dset := dependencies[dep] - {item};
      dependencies := dependencies[dep := dset];
      if dset == {} {
        Enqueue(dep);
        InsertPotential(depends, b, before, Entry(Priority(priority, dep), dep));
        ReadyResolvable(depends, now, dep);
        BoundedRank(depends, u, b, dep);
        ShareBound(depends, b, dep, item);
      }
      ReleaseOne(depends, now, start, before, rootSet, done, dep);
    }

    // Takes the item out of the dependency sets of its dependees, and queues those that become ready.
    method Release(item: Item, ghost u: set<Item>, ghost taken: seq<Item>, ghost b: Bounds)
      requires Tables(depends, u, taken, dependencies, dependees) && QueueMarked()
      requires Bounded(depends, u, b) && forall t :: t in taken + [item] ==> Resolvable(depends, t)
      modifies this`dependencies, this`rootSet, this`marks, this`arrivals
      ensures Tables(depends, u, taken + [item], dependencies, dependees)
      ensures QueueMarked()
      ensures arrivals == old(arrivals) + Filter(Get(dependees, item), x => Ready(depends, taken + [item], x))
      ensures Released(depends, taken + [item], old(rootSet), rootSet, Get(dependees, item))
      ensures Potential(depends, b, rootSet)
           <= Potential(depends, b, old(rootSet)) + |Get(dependees, item)| * Share(depends, b, item)
    {
      hide Sorted, Priced, Queued, Insert, Occurs, Weight, Share, Potential, Bounded, Resolvable, Rank, Loosened;
      hide Released, Ready, QueueMarked;
      var list := Get(dependees, item);
      ghost var now := taken + [item];
      LoosenStart(depends, u, taken, item, dependencies, dependees);
      ReleaseStart(depends, now, rootSet);
      assert Filter(list[..0], x => Ready(depends, now, x)) == [];
      for i := 0 to |list|
        invariant Loosened(depends, u, taken, item, list[..i], dependencies)
        invariant QueueMarked() && arrivals == old(arrivals) + Filter(list[..i], x => Ready(depends, now, x))
        invariant Released(depends, now, old(rootSet), rootSet, list[..i])
        invariant Potential(depends, b, rootSet) <= Potential(depends, b, old(rootSet)) + i * Share(depends, b, item)
      {
        var dep := list[i];
        assert list[..i + 1] == list[..i] + [dep];
        DependeeOf(depends, u, item, dep, dependencies, dependees);
        ReleaseDependee(item, dep, u, taken, b, list[..i], old(rootSet));
        FilterAppend(list[..i], [dep], x => Ready(depends, now, x));
        FilterOne(dep, x => Ready(depends, now, x));
        SharesMore(i, Share(depends, b, item));
      }
      assert list[..|list|] == list;
      LoosenEnd(depends, u, taken, item, dependencies, dependees);
    }

    // populateDeps() from empty tables.
    method Explore(orgList: seq<Item>) returns (ghost u: set<Item>)
      requires Empty()
      modifies this
      ensures IsReach(depends, orgList, u) && Draining(u, []) && Accounted(depends, u, [], rootSet)
      ensures order == Visited(depends, Universe(depends, orgList), orgList, []) && InOrder()
    {
      hide Explored, Draining, Accounted, Visited, InOrder;
      StartExploring();
      PopulateDeps(orgList, Universe(depends, orgList));
      u := dependencies.Keys;
      WholeReach(orgList, u);
      StopExploring(u);
    }

    lemma StartExploring()
      requires Empty()
      ensures Explored() && order == [] && dependencies.Keys == {}
    {
      hide Queued, Occurs, Inverted, Sorted, Priced, Marked, Linked;
      NothingExplored(depends);
      SortedNone(priority);
      MarkedNone(priority);
      NothingLinked(depends);
    }

    lemma WholeReach(orgList: seq<Item>, u: set<Item>)
      requires Grown(depends, orgList, {}, u) && Elements(orgList) <= u
      ensures IsReach(depends, orgList, u)
    {
      forall x | x in u ensures DepSet(depends, x) <= u { assert x in u - {}; }
      forall s | Closed(depends, s) && Elements(orgList) <= s ensures u <= s { assert {} + s == s; }
    }

    lemma StopExploring(u: set<Item>)
      requires Explored() && u == dependencies.Keys && Closed(depends, u)
      ensures Draining(u, []) && Accounted(depends, u, [], rootSet) && InOrder()
    {
      hide Queued, Occurs, Inverted, Sorted, Priced, Marked, Linked;
      StartDraining(depends, priority, u, dependencies, dependees, rootSet);
      AccountedStart(depends, u, rootSet);
    }

    // What is taken next, and what the queue holds then.
    lemma PopMarked()
      requires QueueMarked() && rootSet != []
      ensures Sorted(rootSet) && Priced(priority, rootSet)
      ensures marks != [] && Latest(priority, arrivals, gone, marks[0]) && arrivals[marks[0]] == rootSet[0].item
      ensures Sorted(rootSet[1..]) && Priced(priority, rootSet[1..])
      ensures Marked(priority, rootSet[1..], marks[1..], arrivals, gone + [marks[0]])
    {
      MarkedNext(priority, rootSet, marks, arrivals, gone);
    }

    lemma MarkedAgain()
      requires Sorted(rootSet) && Priced(priority, rootSet) && Marked(priority, rootSet, marks, arrivals, gone)
      ensures QueueMarked()
    {
    }

    lemma AllGone()
      requires QueueMarked() && rootSet == []
      ensures forall k: nat :: k < |arrivals| ==> k in gone
    {
    }

    /** u is what the list reaches, and taken is the order in which items were taken out. */
    method Order(orgList: seq<Item>, resolve: bool) returns (ret: seq<Item>, ghost u: set<Item>, ghost taken: seq<Item>)
      requires Empty()
      modifies this
      ensures IsReach(depends, orgList, u)
      ensures Greedy(depends, priority, u, taken) && Exhausted(depends, u, taken)
      ensures order == Visited(depends, Universe(depends, orgList), orgList, [])
      ensures TakenLatest(depends, priority, order, taken, gone)
      ensures forall k: nat :: k < |Arrivals(depends, order, taken)| ==> k in gone
      ensures ret == Returned(taken, resolve, orgList)
      ensures forall p :: EqualLeaves(depends, priority, orgList, p) ==> ret == orgList
      ensures Counted(depends, u, taken)
      ensures Distinct(taken) <==> LastNamedOnce(depends, taken)
      ensures NoRepeats(depends, u) ==> Distinct(taken)
    {
      hide Queue, Greedy, Potential, Weight, Share, Returned, Released, Tables, Ready, Occurs, Queued, Sorted, Priced;
      hide Exhausted;
      hide IsReach, Inverted, Resolvable, Rank, Bounded, NoRepeats, Distinct, Accounted, Credits, Counted;
      hide LastNamedOnce, QueueMarked, TakenLatest, Arrivals, Linked, Visited, EqualLeaves;
      u := Explore(orgList);
      taken, ret := [], [];
      ReturnedNone(resolve, orgList);
      ghost var fixed := dependees;
      ghost var b := FindBounds(depends, u, fixed);
      NoArrivals(depends, priority, order);
      while rootSet != []
        invariant Draining(u, taken) && ret == Returned(taken, resolve, orgList)
        invariant Accounted(depends, u, taken, rootSet)
        invariant TakenLatest(depends, priority, order, taken, gone) && arrivals == Arrivals(depends, order, taken)
        invariant order == Visited(depends, Universe(depends, orgList), orgList, [])
        invariant forall d :: Get(fixed, d) == Linked(depends, order, d)
        invariant dependees == fixed && Bounded(depends, u, b) && forall d :: |Get(fixed, d)| <= b.fan
        decreases Potential(depends, b, rootSet)
      {
        ghost var before := rootSet;
        var item := rootSet[0].item;
        PopMarked();
        TakeNext(depends, priority, u, taken, rootSet);
        PopEntry(depends, priority, b, rootSet);
        TakenLatestMore(depends, priority, order, taken, gone, item, marks[0]);
        rootSet, marks, gone := rootSet[1..], marks[1..], gone + [marks[0]];
        MarkedAgain();
        if resolve || item in orgList { ret := [item] + ret; }
        ReturnedNext(taken, item, resolve, orgList);
        assert item in taken + [item];
        BoundedRank(depends, u, b, item);
        ShareWeight(depends, b, item, |Get(fixed, item)|);
        TablesInverted(depends, u, taken, dependencies, dependees);
        Release(item, u, taken, b);
        QueueNext(depends, priority, u, taken, item, before, rootSet, dependees);
        AccountedNext(depends, u, taken, item, before, rootSet, dependees);
        ArrivalsMore(depends, order, taken, item);
        taken := taken + [item];
      }
      AllGone();
      forall p | EqualLeaves(depends, priority, orgList, p) ensures ret == orgList {
        LeavesReturned(depends, priority, orgList, p, resolve, taken, gone);
      }
      NothingLeft(depends, u, taken);
      AccountedEnd(depends, u, taken);
      TakenOnceIff(depends, priority, u, taken);
      if NoRepeats(depends, u) { TakenOnce(depends, priority, u, taken); }
    }
  }

  lemma InClosed(g: Graph, s: set<Item>, x: Item)
    requires Closed(g, s) && x in s
    ensures Elements(Deps(g, x)) <= s && Elements(Deps(g, x)) == DepSet(g, x)
  {
  }
}
