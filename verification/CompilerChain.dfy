/** Bringing the extra compilers into the order of their inputs and outputs. */
module CompilerChain {
  import opened Basics

  // The outputs and inputs of every compiler; empty lists for variables that are not set.
  datatype Variables = Variables(outputs: string -> seq<string>, inputs: string -> seq<string>)

  // Some output of the first is an input of the second.
  predicate Feeds(v: Variables, producer: string, consumer: string) {
    exists i :: 0 <= i < |v.outputs(producer)| && v.outputs(producer)[i] in v.inputs(consumer)
  }

  /** No output of a compiler is an input of an earlier one, up to the given length. */
  predicate Chained(v: Variables, cs: seq<string>, n: nat)
    requires n <= |cs|
  {
    forall i, j :: 0 <= i < j < n ==> !Feeds(v, cs[j], cs[i])
  }

  // Some of the compilers take the output.
  predicate Taken(v: Variables, cs: seq<string>, output: string) {
    exists i :: 0 <= i < |cs| && output in v.inputs(cs[i])
  }

  // The first of the compilers in front of the limit that takes the output, or the limit.
  function FirstTaker(v: Variables, cs: seq<string>, output: string, from: nat, limit: nat): (k: nat)
    requires from <= limit <= |cs|
    ensures from <= k <= limit
    ensures k < limit ==> output in v.inputs(cs[k])
    ensures forall i :: from <= i < k ==> output !in v.inputs(cs[i])
    decreases limit - from
  {
    if from == limit || output in v.inputs(cs[from]) then from else FirstTaker(v, cs, output, from + 1, limit)
  }

  // Where the compiler at the limit has to go for the first output that is taken in front of it.
  function Target(v: Variables, cs: seq<string>, outputs: seq<string>, limit: nat): (k: nat)
    requires limit <= |cs|
    ensures k <= limit
  {
    if outputs == [] then limit
    else
      var k := FirstTaker(v, cs, outputs[0], 0, limit);
      if k < limit then k else Target(v, cs, outputs[1..], limit)
  }

  lemma {:induction false} TargetFeeds(v: Variables, cs: seq<string>, outputs: seq<string>, limit: nat)
    requires limit <= |cs|
    ensures var k := Target(v, cs, outputs, limit);
      && (k < limit ==> exists i ::
        0 <= i < |outputs| && outputs[i] in v.inputs(cs[k]) && !Taken(v, cs[..k], outputs[i]))
      && (k == limit ==> forall i, j :: 0 <= i < |outputs| && 0 <= j < limit ==> outputs[i] !in v.inputs(cs[j]))
    decreases |outputs|
  {
    if outputs != [] {
      var rest := outputs[1..];
      TargetFeeds(v, cs, rest, limit);
      var k := Target(v, cs, outputs, limit);
      if k == limit {
        forall i, j | 0 <= i < |outputs| && 0 <= j < limit ensures outputs[i] !in v.inputs(cs[j]) {
          assert i > 0 ==> outputs[i] == rest[i - 1];
        }
      } else if FirstTaker(v, cs, outputs[0], 0, limit) == limit {
        var i :| 0 <= i < |rest| && rest[i] in v.inputs(cs[k]) && !Taken(v, cs[..k], rest[i]);
        assert outputs[i + 1] in v.inputs(cs[k]) && !Taken(v, cs[..k], outputs[i + 1]);
      }
    }
  }

  function Moved(cs: seq<string>, from: nat, to: nat): seq<string>
    requires to < from < |cs|
  {
    cs[..to] + [cs[from]] + cs[to..from] + cs[from + 1..]
  }

  lemma MovedKeeps(cs: seq<string>, from: nat, to: nat)
    requires to < from < |cs|
    ensures multiset(Moved(cs, from, to)) == multiset(cs) && |Moved(cs, from, to)| == |cs|
    ensures Moved(cs, from, to)[..to] == cs[..to]
  {
    assert cs == cs[..to] + (cs[to..from] + ([cs[from]] + cs[from + 1..]));
  }

  // The list, the number of moves, and whether the count stopped it.
  datatype Result = Result(cs: seq<string>, moves: nat, stopped: bool)

  // The reordering from one position on.
  function Reordered(v: Variables, cs: seq<string>, at: nat, moves: nat): Result
    requires at <= |cs| && moves <= |cs| + 1
    decreases |cs| + 1 - moves, |cs| - at
  {
    if at == |cs| then Result(cs, moves, false)
    else if moves > |cs| then Result(cs, moves, true)
    else
      var k := Target(v, cs, v.outputs(cs[at]), at);
      if k == at then Reordered(v, cs, at + 1, moves) else Reordered(v, Moved(cs, at, k), k, moves + 1)
  }

  lemma ChainedPrefix(v: Variables, cs: seq<string>, ds: seq<string>, n: nat)
    requires n <= |cs| && n <= |ds| && cs[..n] == ds[..n] && Chained(v, cs, n)
    ensures Chained(v, ds, n)
  {
    assert forall i :: 0 <= i < n ==> cs[i] == cs[..n][i] && ds[i] == ds[..n][i];
  }

  /** There is at most one move more than there are compilers, the list keeps its members, and unless
      the count stops the reordering, no compiler's output is the input of an earlier one. */
  lemma {:induction false} ReorderChains(v: Variables, cs: seq<string>, at: nat, moves: nat)
    requires at <= |cs| && moves <= |cs| + 1 && Chained(v, cs, at)
    ensures var r := Reordered(v, cs, at, moves);
      && |r.cs| == |cs| && multiset(r.cs) == multiset(cs)
      && moves <= r.moves <= |cs| + 1 && (r.stopped ==> r.moves == |cs| + 1)
      && (!r.stopped ==> Chained(v, r.cs, |r.cs|))
    decreases |cs| + 1 - moves, |cs| - at
  {
    hide Target, Feeds, Moved;
    if at < |cs| && moves <= |cs| {
      var k := Target(v, cs, v.outputs(cs[at]), at);
      if k == at {
        NothingInFront(v, cs, at);
        ReorderChains(v, cs, at + 1, moves);
      } else {
        MovedKeeps(cs, at, k);
        ChainedPrefix(v, cs, Moved(cs, at, k), k);
        ReorderChains(v, Moved(cs, at, k), k, moves + 1);
      }
    }
  }

  lemma NothingInFront(v: Variables, cs: seq<string>, at: nat)
    requires at < |cs| && Chained(v, cs, at) && Target(v, cs, v.outputs(cs[at]), at) == at
    ensures Chained(v, cs, at + 1)
  {
    TargetFeeds(v, cs, v.outputs(cs[at]), at);
  }

  // The compilers can be brought into an order at all.
  ghost predicate Orderable(v: Variables, cs: seq<string>) {
    exists ds: seq<string> :: multiset(ds) == multiset(cs) && Chained(v, ds, |ds|)
  }

  /** Compilers that feed each other in a cycle always run into the count. */
  lemma CycleStops(v: Variables, cs: seq<string>)
    requires !Orderable(v, cs)
    ensures Reordered(v, cs, 0, 0).stopped && Reordered(v, cs, 0, 0).moves == |cs| + 1
  {
    ReorderChains(v, cs, 0, 0);
  }

  lemma ReorderedStep(v: Variables, cs: seq<string>, at: nat, moves: nat)
    requires at < |cs| && moves <= |cs|
    ensures var k := Target(v, cs, v.outputs(cs[at]), at);
      Reordered(v, cs, at, moves)
      == if k == at then Reordered(v, cs, at + 1, moves) else Reordered(v, Moved(cs, at, k), k, moves + 1)
  {
  }

  lemma ReorderedEnd(v: Variables, cs: seq<string>, at: nat, moves: nat)
    requires at <= |cs| && moves <= |cs| + 1 && (at == |cs| || moves > |cs|)
    ensures Reordered(v, cs, at, moves) == Result(cs, moves, at < |cs|)
  {
  }

  // Inserting and then removing moves the rest up.
  lemma TwoSteps(cs: seq<string>, from: nat, to: nat)
    requires to < from < |cs|
    ensures var ds := cs[..to] + [cs[from]] + cs[to..]; ds[..from + 1] + ds[from + 2..] == Moved(cs, from, to)
  {
  }

  lemma NoneChained(v: Variables, cs: seq<string>)
    ensures Chained(v, cs, 0)
  {
  }

  /* ---- when the count suffices ---- */

  // How much of a compiler's work comes too late for those in front of it: the number of compilers
  // that take from it, or the number of its outputs that are taken.
  datatype Measure = Takers | Outputs

  function TakersOf(v: Variables, front: seq<string>, c: string): nat {
    if front == [] then 0 else TakersOf(v, front[1..], c) + (if Feeds(v, c, front[0]) then 1 else 0)
  }

  function TakenOutputs(v: Variables, front: seq<string>, outputs: seq<string>): nat {
    if outputs == [] then 0
    else TakenOutputs(v, front, outputs[1..]) + (if Taken(v, front, outputs[0]) then 1 else 0)
  }

  // The most that one more compiler in front adds.
  function Cap(v: Variables, m: Measure, c: string): nat {
    match m
    case Takers => 1
    case Outputs => |v.outputs(c)|
  }

  function Late(v: Variables, m: Measure, front: seq<string>, c: string): nat {
    match m
    case Takers => TakersOf(v, front, c)
    case Outputs => TakenOutputs(v, front, v.outputs(c))
  }

  // What every compiler counts.
  type Weights = string -> nat

  // The weighted sum over the compilers in rest; by takers and with weights 1, the number of pairs in
  // the wrong order.
  function Disorder(v: Variables, m: Measure, w: Weights, front: seq<string>, rest: seq<string>): nat
    decreases |rest|
  {
    if rest == [] then 0
    else w(rest[0]) * Late(v, m, front, rest[0]) + Disorder(v, m, w, front + [rest[0]], rest[1..])
  }

  // A compiler that feeds another counts more than all the work that those that feed it can get
  // behind with when it moves in front of them.
  ghost predicate Dominates(v: Variables, m: Measure, w: Weights, cs: seq<string>) {
    && (forall c :: c in cs ==> w(c) > 0)
    && forall a, p, b :: a in cs && p in cs && b in cs && Feeds(v, a, p) && Feeds(v, p, b) ==>
      |cs| * (w(a) * Cap(v, m, a)) <= w(p)
  }

  lemma {:induction false} TakersAppend(v: Variables, a: seq<string>, b: seq<string>, c: string)
    ensures TakersOf(v, a + b, c) == TakersOf(v, a, c) + TakersOf(v, b, c)
    decreases |a|
  {
    if a == [] {
      assert a + b == b;
    } else {
      assert (a + b)[1..] == a[1..] + b;
      TakersAppend(v, a[1..], b, c);
    }
  }

  // What the outputs count depends on the members in front alone.
  lemma {:induction false} TakenOutputsWithin(v: Variables, a: seq<string>, b: seq<string>, outputs: seq<string>)
    requires forall o :: o in outputs && Taken(v, a, o) ==> Taken(v, b, o)
    ensures TakenOutputs(v, a, outputs) <= TakenOutputs(v, b, outputs)
    ensures (exists i :: 0 <= i < |outputs| && Taken(v, b, outputs[i]) && !Taken(v, a, outputs[i]))
        ==> TakenOutputs(v, a, outputs) < TakenOutputs(v, b, outputs)
    decreases |outputs|
  {
    if outputs != [] {
      var rest := outputs[1..];
      TakenOutputsWithin(v, a, b, rest);
      if i :| 0 <= i < |outputs| && Taken(v, b, outputs[i]) && !Taken(v, a, outputs[i]) {
        assert i > 0 ==> rest[i - 1] == outputs[i];
      }
    }
  }

  lemma TakenAppend(v: Variables, a: seq<string>, b: seq<string>, o: string)
    ensures Taken(v, a + b, o) <==> Taken(v, a, o) || Taken(v, b, o)
  {
    if i :| 0 <= i < |a| && o in v.inputs(a[i]) { assert (a + b)[i] == a[i]; }
    if i :| 0 <= i < |b| && o in v.inputs(b[i]) { assert (a + b)[|a| + i] == b[i]; }
  }

  lemma TakenInserted(v: Variables, a: seq<string>, p: string, b: seq<string>, o: string)
    ensures Taken(v, a + [p] + b, o) <==> Taken(v, a, o) || o in v.inputs(p) || Taken(v, b, o)
  {
    TakenAppend(v, a + [p], b, o);
    TakenAppend(v, a, [p], o);
    assert o in v.inputs(p) <==> Taken(v, [p], o) by { assert [p][0] == p; }
  }

  // Somebody in front who takes nothing from c does not count.
  lemma LateInserted(v: Variables, m: Measure, a: seq<string>, p: string, b: seq<string>, c: string)
    requires !Feeds(v, c, p)
    ensures Late(v, m, a + [p] + b, c) == Late(v, m, a + b, c)
  {
    hide Taken;
    TakersAppend(v, a + [p], b, c);
    TakersAppend(v, a, [p], c);
    TakersAppend(v, a, b, c);
    forall o | o in v.outputs(c) ensures Taken(v, a + [p] + b, o) <==> Taken(v, a + b, o) {
      TakenInserted(v, a, p, b, o);
      TakenAppend(v, a, b, o);
    }
    TakenOutputsWithin(v, a + [p] + b, a + b, v.outputs(c));
    TakenOutputsWithin(v, a + b, a + [p] + b, v.outputs(c));
  }

  lemma {:induction false} TakenOutputsAtMost(v: Variables, front: seq<string>, outputs: seq<string>)
    ensures TakenOutputs(v, front, outputs) <= |outputs|
    decreases |outputs|
  {
    if outputs != [] { TakenOutputsAtMost(v, front, outputs[1..]); }
  }

  lemma LateMore(v: Variables, m: Measure, a: seq<string>, p: string, b: seq<string>, c: string)
    ensures Late(v, m, a + [p] + b, c) <= Late(v, m, a + b, c) + Cap(v, m, c)
  {
    TakersAppend(v, a + [p], b, c);
    TakersAppend(v, a, [p], c);
    TakersAppend(v, a, b, c);
    TakenOutputsAtMost(v, a + [p] + b, v.outputs(c));
  }

  // The order of those in front does not count.
  lemma LateSwapped(v: Variables, m: Measure, a: seq<string>, p: string, b: seq<string>, x: seq<string>, c: string)
    ensures Late(v, m, a + [p] + b + x, c) == Late(v, m, a + b + [p] + x, c)
  {
    hide Taken;
    TakersAppend(v, a + [p] + b, x, c);
    TakersAppend(v, a + [p], b, c);
    TakersAppend(v, a, [p], c);
    TakersAppend(v, a + b + [p], x, c);
    TakersAppend(v, a + b, [p], c);
    TakersAppend(v, a, b, c);
    forall o ensures Taken(v, a + [p] + b + x, o) <==> Taken(v, a + b + [p] + x, o) {
      TakenInserted(v, a, p, b, o);
      TakenAppend(v, a + [p] + b, x, o);
      TakenInserted(v, a + b, p, x, o);
      TakenAppend(v, a, b, o);
    }
    TakenOutputsWithin(v, a + [p] + b + x, a + b + [p] + x, v.outputs(c));
    TakenOutputsWithin(v, a + b + [p] + x, a + [p] + b + x, v.outputs(c));
  }

  lemma {:induction false} DisorderAppend(v: Variables, m: Measure, w: Weights, front: seq<string>, a: seq<string>,
                                          b: seq<string>)
    ensures Disorder(v, m, w, front, a + b) == Disorder(v, m, w, front, a) + Disorder(v, m, w, front + a, b)
    decreases |a|
  {
    hide Late;
    if a == [] {
      assert a + b == b && front + a == front;
    } else {
      assert (a + b)[1..] == a[1..] + b && front + [a[0]] + a[1..] == front + a;
      DisorderAppend(v, m, w, front + [a[0]], a[1..], b);
    }
  }

  // One more compiler in front: no step of the sum grows by more than a share of the given size.
  lemma {:induction false} DisorderGrows(v: Variables, m: Measure, w: Weights, a: seq<string>, p: string,
                                         b: seq<string>, rest: seq<string>, n: nat, size: nat)
    requires forall c :: c in rest && Feeds(v, c, p) ==> n * (w(c) * Cap(v, m, c)) <= size
    ensures n * Disorder(v, m, w, a + [p] + b, rest) <= n * Disorder(v, m, w, a + b, rest) + |rest| * size
    decreases |rest|
  {
    hide Late, Feeds, Cap;
    if rest != [] {
      var c := rest[0];
      var x, y := Late(v, m, a + [p] + b, c), Late(v, m, a + b, c);
      if Feeds(v, c, p) {
        LateMore(v, m, a, p, b, c);
        Share(n, w(c), x, y, Cap(v, m, c), size);
      } else {
        LateInserted(v, m, a, p, b, c);
      }
      assert n * (w(c) * x) <= n * (w(c) * y) + size;
      assert a + [p] + b + [c] == a + [p] + (b + [c]) && a + b + [c] == a + (b + [c]);
      DisorderGrows(v, m, w, a, p, b + [c], rest[1..], n, size);
      MulSum(n, w(c) * x, Disorder(v, m, w, a + [p] + b + [c], rest[1..]));
      MulSum(n, w(c) * y, Disorder(v, m, w, a + b + [c], rest[1..]));
      MulSum(size, 1, |rest| - 1);
    }
  }

  lemma Share(n: nat, w: nat, x: nat, y: nat, cap: nat, size: nat)
    requires x <= y + cap && n * (w * cap) <= size
    ensures n * (w * x) <= n * (w * y) + size
  {
    MulMonotone(w, x, y + cap);
    MulSum(w, y, cap);
    MulMonotone(n, w * x, w * y + w * cap);
    MulSum(n, w * y, w * cap);
  }

  lemma {:induction false} DisorderSwapped(v: Variables, m: Measure, w: Weights, a: seq<string>, p: string,
                                           b: seq<string>, x: seq<string>, rest: seq<string>)
    ensures Disorder(v, m, w, a + [p] + b + x, rest) == Disorder(v, m, w, a + b + [p] + x, rest)
    decreases |rest|
  {
    hide Late;
    if rest != [] {
      LateSwapped(v, m, a, p, b, x, rest[0]);
      assert a + [p] + b + x + [rest[0]] == a + [p] + b + (x + [rest[0]]);
      assert a + b + [p] + x + [rest[0]] == a + b + [p] + (x + [rest[0]]);
      DisorderSwapped(v, m, w, a, p, b, x + [rest[0]], rest[1..]);
    }
  }

  lemma DisorderOne(v: Variables, m: Measure, w: Weights, front: seq<string>, c: string)
    ensures Disorder(v, m, w, front, [c]) == w(c) * Late(v, m, front, c)
  {
    assert Disorder(v, m, w, front + [c], [c][1..]) == 0;
  }

  // The sum before and after a move, part by part.
  lemma DisorderMoved(v: Variables, m: Measure, w: Weights, cs: seq<string>, from: nat, to: nat)
    requires to < from < |cs|
    ensures var a, p, b, c := cs[..to], cs[from], cs[to..from], cs[from + 1..];
      var kept := Disorder(v, m, w, [], a) + Disorder(v, m, w, a + b + [p], c);
      && Disorder(v, m, w, [], cs) == kept + Disorder(v, m, w, a, b) + w(p) * Late(v, m, cs[..from], p)
      && Disorder(v, m, w, [], Moved(cs, from, to))
         == kept + Disorder(v, m, w, a + [p], b) + w(p) * Late(v, m, cs[..to], p)
  {
    hide Late, Disorder, Feeds;
    var a, p, b, c := cs[..to], cs[from], cs[to..from], cs[from + 1..];
    assert Moved(cs, from, to) == a + ([p] + (b + c)) && cs == a + (b + ([p] + c)) && [] + a == a;
    assert cs[..from] == a + b;
    DisorderAppend(v, m, w, [], a, [p] + (b + c));
    DisorderAppend(v, m, w, a, [p], b + c);
    DisorderAppend(v, m, w, a + [p], b, c);
    DisorderAppend(v, m, w, [], a, b + ([p] + c));
    DisorderAppend(v, m, w, a, b, [p] + c);
    DisorderAppend(v, m, w, a + b, [p], c);
    DisorderOne(v, m, w, a, p);
    DisorderOne(v, m, w, a + b, p);
    DisorderSwapped(v, m, w, a, p, b, [], c);
    assert a + [p] + b + [] == a + [p] + b && a + b + [p] + [] == a + b + [p];
  }

  // A move takes more off the disorder than it can add.
  lemma MoveOrders(v: Variables, m: Measure, w: Weights, cs: seq<string>, from: nat, to: nat)
    requires to < from < |cs| && Late(v, m, cs[..to], cs[from]) < Late(v, m, cs[..from], cs[from])
    requires w(cs[from]) > 0
    requires forall c :: c in cs && Feeds(v, c, cs[from]) ==> |cs| * (w(c) * Cap(v, m, c)) <= w(cs[from])
    ensures Disorder(v, m, w, [], Moved(cs, from, to)) < Disorder(v, m, w, [], cs)
  {
    hide Late, Disorder, Feeds, Cap, Moved;
    var a, p, b := cs[..to], cs[from], cs[to..from];
    DisorderMoved(v, m, w, cs, from, to);
    assert a + [p] + [] == a + [p] && a + [] == a;
    assert forall c :: c in b ==> c in cs;
    DisorderGrows(v, m, w, a, p, [], b, |cs|, w(p));
    Less(|cs|, Disorder(v, m, w, a + [p], b), Disorder(v, m, w, a, b), |b|, w(p));
    MulMonotone(w(p), Late(v, m, cs[..to], p) + 1, Late(v, m, cs[..from], p));
    MulSum(w(p), Late(v, m, cs[..to], p), 1);
  }

  lemma Less(n: nat, x: nat, y: nat, k: nat, w: nat)
    requires n * x <= n * y + k * w && k < n && w > 0
    ensures x < y + w
  {
    MulSum(n, y, w);
    MulSum(w, k, n - k);
    MulMonotone(w, 1, n - k);
    if x >= y + w { MulMonotone(n, y + w, x); }
  }

  // Nothing in front of the place a compiler moves to takes the output it moves for.
  lemma TargetEarlier(v: Variables, m: Measure, cs: seq<string>, at: nat)
    requires at < |cs| && Target(v, cs, v.outputs(cs[at]), at) < at
    ensures var k := Target(v, cs, v.outputs(cs[at]), at);
      Feeds(v, cs[at], cs[k]) && Late(v, m, cs[..k], cs[at]) < Late(v, m, cs[..at], cs[at])
  {
    var c := cs[at];
    TargetFeeds(v, cs, v.outputs(c), at);
    hide Target;
    var k := Target(v, cs, v.outputs(c), at);
    var i :| 0 <= i < |v.outputs(c)| && v.outputs(c)[i] in v.inputs(cs[k]) && !Taken(v, cs[..k], v.outputs(c)[i]);
    assert cs[..at] == cs[..k] + cs[k..at];
    TakersAppend(v, cs[..k], cs[k..at], c);
    assert Feeds(v, c, cs[k]) && cs[k..at][0] == cs[k];
    assert cs[..at][k] == cs[k];
    assert Taken(v, cs[..at], v.outputs(c)[i]);
    forall o | Taken(v, cs[..k], o) ensures Taken(v, cs[..at], o) { TakenAppend(v, cs[..k], cs[k..at], o); }
    TakenOutputsWithin(v, cs[..k], cs[..at], v.outputs(c));
  }

  lemma DominatesMoved(v: Variables, m: Measure, w: Weights, cs: seq<string>, from: nat, to: nat)
    requires to < from < |cs| && Dominates(v, m, w, cs)
    ensures Dominates(v, m, w, Moved(cs, from, to))
  {
    MovedKeeps(cs, from, to);
    hide Moved, Feeds, Cap;
    forall x | x in Moved(cs, from, to) ensures x in cs { assert x in multiset(Moved(cs, from, to)); }
  }

  lemma DominatesFed(v: Variables, m: Measure, w: Weights, cs: seq<string>, i: nat, j: nat)
    requires i < |cs| && j < |cs| && Dominates(v, m, w, cs) && Feeds(v, cs[i], cs[j])
    ensures w(cs[i]) > 0
    ensures forall c :: c in cs && Feeds(v, c, cs[i]) ==> |cs| * (w(c) * Cap(v, m, c)) <= w(cs[i])
  {
    hide Feeds, Cap;
  }

  // Every move takes something off the disorder that is left.
  lemma {:induction false} MovesBounded(v: Variables, m: Measure, w: Weights, cs: seq<string>, at: nat, moves: nat)
    requires at <= |cs| && moves <= |cs| + 1 && Dominates(v, m, w, cs)
    ensures Reordered(v, cs, at, moves).moves <= moves + Disorder(v, m, w, [], cs)
    decreases |cs| + 1 - moves, |cs| - at
  {
    hide Target, Moved, Late, Disorder, Feeds, Dominates, Cap;
    if at < |cs| && moves <= |cs| {
      var k := Target(v, cs, v.outputs(cs[at]), at);
      if k == at {
        MovesBounded(v, m, w, cs, at + 1, moves);
      } else {
        TargetEarlier(v, m, cs, at);
        DominatesFed(v, m, w, cs, at, k);
        MoveOrders(v, m, w, cs, at, k);
        MovedKeeps(cs, at, k);
        DominatesMoved(v, m, w, cs, at, k);
        MovesBounded(v, m, w, Moved(cs, at, k), k, moves + 1);
      }
    }
  }

  /** There are at most as many moves as the disorder of the list, in either measure and for any
      dominating weights; if that is at most the number of compilers, the count suffices. */
  lemma CountSuffices(v: Variables, m: Measure, w: Weights, cs: seq<string>)
    requires Dominates(v, m, w, cs)
    ensures var r := Reordered(v, cs, 0, 0);
      && r.moves <= Disorder(v, m, w, [], cs)
      && (Disorder(v, m, w, [], cs) <= |cs| ==> !r.stopped && Chained(v, r.cs, |r.cs|))
  {
    hide Target, Moved, Late, Disorder, Feeds, Reordered, Dominates;
    MovesBounded(v, m, w, cs, 0, 0);
    NoneChained(v, cs);
    ReorderChains(v, cs, 0, 0);
  }

  // Compilers only feed such of a higher rank.
  ghost predicate Ranked(v: Variables, cs: seq<string>, rank: string -> nat) {
    forall a, b :: a in cs && b in cs && Feeds(v, a, b) ==> rank(a) < rank(b)
  }

  /** Whenever compilers have ranks, powers of a base that covers them all dominate. */
  lemma RanksDominate(v: Variables, m: Measure, cs: seq<string>, rank: string -> nat, base: nat)
    requires Ranked(v, cs, rank) && base > 0 && forall c :: c in cs ==> |cs| * Cap(v, m, c) <= base
    ensures Dominates(v, m, c => Pow(base, rank(c)), cs)
  {
    hide Feeds, Cap, Pow;
    forall c ensures Pow(base, rank(c)) > 0 { PowMonotone(base, rank(c), rank(c)); }
    forall a, p, b | a in cs && p in cs && b in cs && Feeds(v, a, p) && Feeds(v, p, b)
      ensures |cs| * (Pow(base, rank(a)) * Cap(v, m, a)) <= Pow(base, rank(p))
    {
      var x, n, k := Pow(base, rank(a)), |cs|, Cap(v, m, a);
      assert n * (x * k) == x * (n * k);
      MulMonotone(x, n * k, base);
      PowStep(base, rank(a));
      PowMonotone(base, rank(a) + 1, rank(p));
    }
  }

  lemma PowStep(b: nat, n: nat)
    ensures Pow(b, n) * b == Pow(b, n + 1)
  {
  }

  // No compiler that feeds another is fed itself.
  ghost predicate Flat(v: Variables, cs: seq<string>) {
    forall a, b, c :: a in cs && b in cs && c in cs && Feeds(v, a, b) ==> !Feeds(v, c, a)
  }

  const ONE: Weights := c => 1

  /** If no compiler that feeds another is fed itself, there are at most as many moves as pairs in the
      wrong order, and at most as many as outputs that come too late. */
  lemma FlatSuffices(v: Variables, m: Measure, cs: seq<string>)
    requires Flat(v, cs)
    ensures var r := Reordered(v, cs, 0, 0);
      && r.moves <= Disorder(v, m, ONE, [], cs)
      && (Disorder(v, m, ONE, [], cs) <= |cs| ==> !r.stopped && Chained(v, r.cs, |r.cs|))
  {
    hide Disorder, Reordered, Chained;
    assert Dominates(v, m, ONE, cs) by { hide Feeds, Cap; }
    CountSuffices(v, m, ONE, cs);
  }

  lemma {:induction false} OneOutputLate(v: Variables, front: seq<string>, rest: seq<string>)
    requires forall c :: c in rest ==> |v.outputs(c)| <= 1
    ensures Disorder(v, Outputs, ONE, front, rest) <= |rest|
    decreases |rest|
  {
    if rest != [] {
      OneOutputLate(v, front + [rest[0]], rest[1..]);
      var o := v.outputs(rest[0]);
      if o != [] { assert TakenOutputs(v, front, o[1..]) == 0; }
    }
  }

  /** Compilers with at most one output each, none of which feeds another and is fed itself, are always
      brought into order. */
  lemma OneOutputSuffices(v: Variables, cs: seq<string>)
    requires Flat(v, cs) && forall c :: c in cs ==> |v.outputs(c)| <= 1
    ensures var r := Reordered(v, cs, 0, 0); !r.stopped && Chained(v, r.cs, |r.cs|)
  {
    hide Reordered, Flat, Chained;
    OneOutputLate(v, [], cs);
    FlatSuffices(v, Outputs, cs);
  }

  /* ---- exactly when it suffices ---- */

  // The outputs that are taken further in front than all outputs listed before them.
  function Records(v: Variables, front: seq<string>, outputs: seq<string>): nat
    decreases |outputs|
  {
    if outputs == [] then 0
    else
      var k := FirstTaker(v, front, outputs[0], 0, |front|);
      (if k < |front| then 1 else 0) + Records(v, front[..k], outputs[1..])
  }

  // The sum over the compilers in rest.
  function Needed(v: Variables, front: seq<string>, rest: seq<string>): nat
    decreases |rest|
  {
    if rest == [] then 0 else Records(v, front, v.outputs(rest[0])) + Needed(v, front + [rest[0]], rest[1..])
  }

  // Where the first taker is when somebody else stands in front.
  lemma FirstInserted(v: Variables, f: seq<string>, p: string, g: seq<string>, o: string)
    requires o !in v.inputs(p)
    ensures var k := FirstTaker(v, f + g, o, 0, |f + g|);
      FirstTaker(v, f + [p] + g, o, 0, |f + [p] + g|) == if k < |f| then k else k + 1
  {
    var with, without := f + [p] + g, f + g;
    var k := FirstTaker(v, without, o, 0, |without|);
    assert forall i :: 0 <= i < |f| ==> with[i] == f[i] == without[i];
    assert with[|f|] == p;
    assert forall i :: |f| < i < |with| ==> with[i] == without[i - 1];
    SameFirst(v, with, o, FirstTaker(v, with, o, 0, |with|), if k < |f| then k else k + 1);
  }

  // Somebody in front who takes none of the outputs does not count.
  lemma {:induction false} RecordsInserted(v: Variables, f: seq<string>, p: string, g: seq<string>,
                                           outputs: seq<string>)
    requires forall i :: 0 <= i < |outputs| ==> outputs[i] !in v.inputs(p)
    ensures Records(v, f + [p] + g, outputs) == Records(v, f + g, outputs)
    decreases |outputs|
  {
    if outputs != [] {
      hide FirstTaker;
      FirstInserted(v, f, p, g, outputs[0]);
      var k := FirstTaker(v, f + g, outputs[0], 0, |f + g|);
      if k < |f| {
        assert (f + [p] + g)[..k] == (f + g)[..k];
      } else {
        assert (f + [p] + g)[..k + 1] == f + [p] + g[..k - |f|] && (f + g)[..k] == f + g[..k - |f|];
        RecordsInserted(v, f, p, g[..k - |f|], outputs[1..]);
      }
    }
  }

  lemma SameFirst(v: Variables, cs: seq<string>, o: string, k: nat, j: nat)
    requires k == FirstTaker(v, cs, o, 0, |cs|) && j <= |cs|
    requires (j < |cs| ==> o in v.inputs(cs[j])) && forall i :: 0 <= i < j ==> o !in v.inputs(cs[i])
    ensures k == j
  {
  }

  // A move passes the first output that is taken in front.
  lemma {:induction false} RecordsTarget(v: Variables, cs: seq<string>, outputs: seq<string>, limit: nat)
    requires limit <= |cs|
    ensures var k := Target(v, cs, outputs, limit);
      Records(v, cs[..limit], outputs) == if k < limit then 1 + Records(v, cs[..k], outputs) else 0
    decreases |outputs|
  {
    if outputs != [] {
      var o, rest, front := outputs[0], outputs[1..], cs[..limit];
      var k := FirstTaker(v, cs, o, 0, limit);
      SameFirst(v, front, o, FirstTaker(v, front, o, 0, limit), k);
      assert front[..k] == cs[..k] && cs[..k][..k] == cs[..k];
      if k < limit {
        SameFirst(v, cs[..k], o, FirstTaker(v, cs[..k], o, 0, k), k);
      } else {
        RecordsTarget(v, cs, rest, limit);
        var t := Target(v, cs, rest, limit);
        SameFirst(v, cs[..t], o, FirstTaker(v, cs[..t], o, 0, t), t);
        assert cs[..t][..t] == cs[..t];
      }
    }
  }

  lemma {:induction false} NeededAppend(v: Variables, front: seq<string>, a: seq<string>, b: seq<string>)
    ensures Needed(v, front, a + b) == Needed(v, front, a) + Needed(v, front + a, b)
    decreases |a|
  {
    hide Records;
    if a == [] {
      assert a + b == b && front + a == front;
    } else {
      assert (a + b)[1..] == a[1..] + b && front + [a[0]] + a[1..] == front + a;
      NeededAppend(v, front + [a[0]], a[1..], b);
    }
  }

  lemma {:induction false} NeededInserted(v: Variables, a: seq<string>, p: string, b: seq<string>, rest: seq<string>)
    requires forall c :: c in rest ==> !Feeds(v, c, p)
    ensures Needed(v, a + [p] + b, rest) == Needed(v, a + b, rest)
    decreases |rest|
  {
    hide Records;
    if rest != [] {
      assert !Feeds(v, rest[0], p);
      RecordsInserted(v, a, p, b, v.outputs(rest[0]));
      hide Feeds;
      assert a + [p] + b + [rest[0]] == a + [p] + (b + [rest[0]]) && a + b + [rest[0]] == a + (b + [rest[0]]);
      NeededInserted(v, a, p, b + [rest[0]], rest[1..]);
    }
  }

  lemma NeededOne(v: Variables, front: seq<string>, c: string)
    ensures Needed(v, front, [c]) == Records(v, front, v.outputs(c))
  {
    assert Needed(v, front + [c], [c][1..]) == 0;
  }

  // The sum before and after a move, part by part.
  lemma NeededParts(v: Variables, a: seq<string>, p: string, b: seq<string>, c: seq<string>)
    ensures Needed(v, [], a + (b + ([p] + c)))
         == Needed(v, [], a) + Needed(v, a, b) + Records(v, a + b, v.outputs(p)) + Needed(v, a + b + [p], c)
    ensures Needed(v, [], a + ([p] + (b + c)))
         == Needed(v, [], a) + Records(v, a, v.outputs(p)) + Needed(v, a + [p], b) + Needed(v, a + [p] + b, c)
  {
    hide Records, Needed;
    assert [] + a == a;
    NeededAppend(v, [], a, [p] + (b + c));
    NeededAppend(v, a, [p], b + c);
    NeededAppend(v, a + [p], b, c);
    NeededAppend(v, [], a, b + ([p] + c));
    NeededAppend(v, a, b, [p] + c);
    NeededAppend(v, a + b, [p], c);
    NeededOne(v, a, p);
    NeededOne(v, a + b, p);
  }

  // Somebody who is not fed does not count where he is.
  lemma NeededUnfed(v: Variables, a: seq<string>, p: string, b: seq<string>, c: seq<string>)
    requires (forall x :: x in b ==> !Feeds(v, x, p)) && forall x :: x in c ==> !Feeds(v, x, p)
    ensures Needed(v, a + [p], b) == Needed(v, a, b) && Needed(v, a + [p] + b, c) == Needed(v, a + b + [p], c)
  {
    hide Needed, Feeds;
    NeededInserted(v, a, p, [], b);
    NeededInserted(v, a, p, b, c);
    NeededInserted(v, a + b, p, [], c);
    assert a + [p] + [] == a + [p] && a + [] == a && a + b + [p] + [] == a + b + [p] && a + b + [] == a + b;
  }

  lemma MovedParts(cs: seq<string>, from: nat, to: nat)
    requires to < from < |cs|
    ensures var a, p, b, c := cs[..to], cs[from], cs[to..from], cs[from + 1..];
      && cs == a + (b + ([p] + c)) && Moved(cs, from, to) == a + ([p] + (b + c)) && cs[..from] == a + b
      && (forall x :: x in b ==> x in cs) && (forall x :: x in c ==> x in cs)
  {
  }

  // Every move does one of what is needed.
  lemma NeededMoved(v: Variables, cs: seq<string>, at: nat)
    requires at < |cs| && Target(v, cs, v.outputs(cs[at]), at) < at
    requires forall c :: c in cs ==> !Feeds(v, c, cs[at])
    ensures Needed(v, [], cs) == 1 + Needed(v, [], Moved(cs, at, Target(v, cs, v.outputs(cs[at]), at)))
  {
    hide Records, Needed, Feeds, Target, Moved;
    var k := Target(v, cs, v.outputs(cs[at]), at);
    RecordsTarget(v, cs, v.outputs(cs[at]), at);
    var a, p, b, c := cs[..k], cs[at], cs[k..at], cs[at + 1..];
    MovedParts(cs, at, k);
    NeededParts(v, a, p, b, c);
    NeededUnfed(v, a, p, b, c);
  }

  lemma {:induction false} NoRecords(v: Variables, front: seq<string>, outputs: seq<string>)
    ensures Records(v, front, outputs) == 0
      <==> forall i, j :: 0 <= i < |outputs| && 0 <= j < |front| ==> outputs[i] !in v.inputs(front[j])
    decreases |outputs|
  {
    if outputs != [] {
      var k, rest := FirstTaker(v, front, outputs[0], 0, |front|), outputs[1..];
      if k == |front| {
        assert front[..k] == front;
        NoRecords(v, front, rest);
        assert forall i :: 0 < i < |outputs| ==> outputs[i] == rest[i - 1];
        assert forall i :: 0 <= i < |rest| ==> rest[i] == outputs[i + 1];
      }
    }
  }

  lemma {:induction false} NothingNeeded(v: Variables, front: seq<string>, rest: seq<string>)
    requires Chained(v, front, |front|)
    ensures Needed(v, front, rest) == 0 <==> Chained(v, front + rest, |front + rest|)
    decreases |rest|
  {
    hide Records;
    if rest == [] {
      assert front + rest == front;
    } else {
      var next, all := front + [rest[0]], front + rest;
      assert all == next + rest[1..] && all[|front|] == rest[0];
      NoRecords(v, front, v.outputs(rest[0]));
      assert forall j :: 0 <= j < |front| ==> all[j] == front[j] == next[j];
      if Records(v, front, v.outputs(rest[0])) == 0 {
        NothingNeeded(v, next, rest[1..]);
      } else {
        var i, j :| 0 <= i < |v.outputs(rest[0])| && 0 <= j < |front| && v.outputs(rest[0])[i] in v.inputs(front[j]);
        assert Feeds(v, all[|front|], all[j]);
      }
    }
  }

  lemma FlatMoved(v: Variables, cs: seq<string>, from: nat, to: nat)
    requires to < from < |cs| && Flat(v, cs)
    ensures Flat(v, Moved(cs, from, to))
  {
    MovedKeeps(cs, from, to);
    hide Moved, Feeds;
    forall x | x in Moved(cs, from, to) ensures x in cs { assert x in multiset(Moved(cs, from, to)); }
  }

  lemma FlatFed(v: Variables, cs: seq<string>, i: nat, j: nat)
    requires i < |cs| && j < |cs| && Flat(v, cs) && Feeds(v, cs[i], cs[j])
    ensures forall c :: c in cs ==> !Feeds(v, c, cs[i])
  {
    hide Feeds;
  }

  lemma {:induction false} FlatMoves(v: Variables, cs: seq<string>, at: nat, moves: nat)
    requires at <= |cs| && moves <= |cs| + 1 && (at == |cs| ==> moves <= |cs|) && Flat(v, cs) && Chained(v, cs, at)
    ensures var r, total := Reordered(v, cs, at, moves), moves + Needed(v, [], cs);
      && (r.stopped <==> total > |cs|)
      && r.moves == (if total > |cs| then |cs| + 1 else total)
      && |r.cs| == |cs| && (Chained(v, r.cs, |cs|) <==> total <= |cs| + 1)
    decreases |cs| + 1 - moves, |cs| - at
  {
    hide Target, Needed, Feeds, Moved, Flat, Late;
    if at == |cs| || moves > |cs| {
      NoneChained(v, []);
      NothingNeeded(v, [], cs);
      assert [] + cs == cs;
    } else {
      var k := Target(v, cs, v.outputs(cs[at]), at);
      if k == at {
        NothingInFront(v, cs, at);
        FlatMoves(v, cs, at + 1, moves);
      } else {
        TargetEarlier(v, Takers, cs, at);
        FlatFed(v, cs, at, k);
        NeededMoved(v, cs, at);
        MovedKeeps(cs, at, k);
        FlatMoved(v, cs, at, k);
        ChainedPrefix(v, cs, Moved(cs, at, k), k);
        FlatMoves(v, Moved(cs, at, k), k, moves + 1);
      }
    }
  }

  /** If no compiler that feeds another is fed itself, each one moves once for every record among its
      outputs. The count stops the reordering exactly if these are more than there are compilers, and the
      list is then chained exactly if they are one more. */
  lemma FlatExactly(v: Variables, cs: seq<string>)
    requires Flat(v, cs)
    ensures var r, total := Reordered(v, cs, 0, 0), Needed(v, [], cs);
      && (r.stopped <==> total > |cs|)
      && r.moves == (if total > |cs| then |cs| + 1 else total)
      && |r.cs| == |cs| && (Chained(v, r.cs, |cs|) <==> total <= |cs| + 1)
  {
    NoneChained(v, cs);
    if cs == [] { hide Needed; }
    FlatMoves(v, cs, 0, 0);
  }

  /* ---- when it does not ---- */

  // Two generators make what four other compilers take, one each; the largest output comes first.
  ghost predicate Generators(v: Variables, c: string, d: string, y: seq<string>, o: seq<string>) {
    && |y| == |o| == 4 && (forall i, j :: 0 <= i < j < 4 ==> o[i] != o[j])
    && v.outputs(c) == v.outputs(d) == [o[3], o[2], o[1], o[0]] && v.inputs(c) == v.inputs(d) == []
    && forall i :: 0 <= i < 4 ==> v.inputs(y[i]) == [o[i]] && v.outputs(y[i]) == []
  }

  // The compilers in front take nothing or one of the first outputs, and the nearest takes the last
  // of these, so the generator goes in front of it.
  lemma MoveOne(v: Variables, cs: seq<string>, at: nat, moves: nat, n: nat, c: string, d: string, y: seq<string>,
                o: seq<string>)
    requires Generators(v, c, d, y, o) && 0 < at < |cs| && moves <= |cs| && n < 4 && cs[at] in [c, d]
    requires cs[at - 1] == y[n] && forall i :: 0 <= i < at - 1 ==> cs[i] == c || cs[i] in y[..n]
    ensures Reordered(v, cs, at, moves) == Reordered(v, cs[at - 1 := cs[at]][at := cs[at - 1]], at - 1, moves + 1)
  {
    hide Target, Reordered, Moved;
    ReorderedStep(v, cs, at, moves);
    NearestTarget(v, cs, at, n, c, d, y, o);
    MovedNext(cs, at);
  }

  lemma MovedNext(cs: seq<string>, at: nat)
    requires 0 < at < |cs|
    ensures Moved(cs, at, at - 1) == cs[at - 1 := cs[at]][at := cs[at - 1]]
  {
  }

  // An output that nothing in front of the nearest compiler takes.
  lemma NotTaken(v: Variables, cs: seq<string>, at: nat, n: nat, k: nat, c: string, d: string, y: seq<string>,
                 o: seq<string>)
    requires Generators(v, c, d, y, o) && 0 < at < |cs| && n <= k < 4
    requires cs[at - 1] == y[n] && forall i :: 0 <= i < at - 1 ==> cs[i] == c || cs[i] in y[..n]
    ensures FirstTaker(v, cs, o[k], 0, at) == if k == n then at - 1 else at
  {
    forall i | 0 <= i < at - 1 ensures o[k] !in v.inputs(cs[i]) {}
  }

  lemma TargetFound(v: Variables, cs: seq<string>, first: string, rest: seq<string>, limit: nat)
    requires limit <= |cs| && FirstTaker(v, cs, first, 0, limit) < limit
    ensures Target(v, cs, [first] + rest, limit) == FirstTaker(v, cs, first, 0, limit)
  {
  }

  lemma NearestTarget(v: Variables, cs: seq<string>, at: nat, n: nat, c: string, d: string, y: seq<string>,
                      o: seq<string>)
    requires Generators(v, c, d, y, o) && 0 < at < |cs| && n < 4
    requires cs[at - 1] == y[n] && forall i :: 0 <= i < at - 1 ==> cs[i] == c || cs[i] in y[..n]
    ensures Target(v, cs, [o[3], o[2], o[1], o[0]], at) == at - 1
  {
    hide Target;
    forall k | n <= k < 4 ensures FirstTaker(v, cs, o[k], 0, at) == if k == n then at - 1 else at {
      NotTaken(v, cs, at, n, k, c, d, y, o);
    }
    var t0, t1, t2, t3 := [o[0]], [o[1], o[0]], [o[2], o[1], o[0]], [o[3], o[2], o[1], o[0]];
    assert t0 == [o[0]] + [] && t1 == [o[1]] + t0 && t2 == [o[2]] + t1 && t3 == [o[3]] + t2;
    TargetFound(v, cs, o[n], if n == 0 then [] else if n == 1 then t0 else if n == 2 then t1 else t2, at);
    if n < 1 { TargetSkips(v, cs, o[1], t0, at); }
    if n < 2 { TargetSkips(v, cs, o[2], t1, at); }
    if n < 3 { TargetSkips(v, cs, o[3], t2, at); }
  }

  lemma TargetSkips(v: Variables, cs: seq<string>, first: string, rest: seq<string>, limit: nat)
    requires limit <= |cs| && FirstTaker(v, cs, first, 0, limit) == limit
    ensures Target(v, cs, [first] + rest, limit) == Target(v, cs, rest, limit)
  {
    assert ([first] + rest)[1..] == rest;
  }

  // A compiler without outputs, or with none in front, stays.
  lemma Stays(v: Variables, cs: seq<string>, at: nat, moves: nat)
    requires at < |cs| && moves <= |cs| && (at == 0 || v.outputs(cs[at]) == [])
    ensures Reordered(v, cs, at, moves) == Reordered(v, cs, at + 1, moves)
  {
    ReorderedStep(v, cs, at, moves);
  }

  lemma StillBehind(v: Variables, c: string, d: string, y: seq<string>, o: seq<string>)
    requires Generators(v, c, d, y, o)
    ensures !Chained(v, [c, y[0], d, y[1], y[2], y[3]], 6)
  {
    var r := [c, y[0], d, y[1], y[2], y[3]];
    assert v.outputs(d)[3] in v.inputs(y[0]);
    assert Feeds(v, r[2], r[1]);
  }

  lemma SameMembers(a: seq<string>, b: seq<string>)
    ensures multiset(a + b) == multiset(b + a)
  {
  }

  lemma FirstFeedsNone(v: Variables, c: string, d: string, y: seq<string>, o: seq<string>, i: nat, j: nat)
    requires Generators(v, c, d, y, o) && i < j < 6
    ensures !Feeds(v, ([c, d] + y)[j], ([c, d] + y)[i])
  {
    var ds := [c, d] + y;
    if j >= 2 {
      assert ds[j] == y[j - 2] && v.outputs(ds[j]) == [];
    } else {
      assert ds[i] == c && v.inputs(ds[i]) == [];
    }
  }

  lemma FourTakers(v: Variables, c: string, d: string, y: seq<string>, o: seq<string>)
    requires Generators(v, c, d, y, o)
    ensures |y| == 4
  {
  }

  lemma BothFirst(v: Variables, c: string, d: string, y: seq<string>, o: seq<string>)
    requires Generators(v, c, d, y, o)
    ensures Orderable(v, y + [c, d])
  {
    hide Feeds, Generators;
    var ds := [c, d] + y;
    SameMembers([c, d], y);
    FourTakers(v, c, d, y, o);
    forall i, j | 0 <= i < j < |ds| ensures !Feeds(v, ds[j], ds[i]) {
      FirstFeedsNone(v, c, d, y, o, i, j);
    }
    assert Chained(v, ds, |ds|);
  }

  /** The count also stops reorderings that could be finished: of these six compilers the second
      generator is left behind one that takes its output, though putting both first would do. */
  lemma CountStopsTooEarly(v: Variables, c: string, d: string, y: seq<string>, o: seq<string>)
    requires Generators(v, c, d, y, o)
    ensures var r := [c, y[0], d, y[1], y[2], y[3]];
      && Reordered(v, y + [c, d], 0, 0) == Result(r, 7, true)
      && !Chained(v, r, 6) && Orderable(v, y + [c, d])
  {
    hide Target, Reordered, Chained, Orderable;
    FirstGenerator(v, c, d, y, o);
    SecondGenerator(v, c, d, y, o);
    ReorderedEnd(v, [c, y[0], d, y[1], y[2], y[3]], 2, 7);
    StillBehind(v, c, d, y, o);
    BothFirst(v, c, d, y, o);
  }

  lemma FirstGenerator(v: Variables, c: string, d: string, y: seq<string>, o: seq<string>)
    requires Generators(v, c, d, y, o)
    ensures Reordered(v, y + [c, d], 0, 0) == Reordered(v, [c, y[0], y[1], y[2], y[3], d], 0, 4)
  {
    hide Target, Reordered;
    var s := y + [c, d];
    Stays(v, s, 0, 0);
    Stays(v, s, 1, 0);
    Stays(v, s, 2, 0);
    Stays(v, s, 3, 0);
    MoveOne(v, s, 4, 0, 3, c, d, y, o);
    assert s[3 := s[4]][4 := s[3]] == [y[0], y[1], y[2], c, y[3], d];
    MoveOne(v, [y[0], y[1], y[2], c, y[3], d], 3, 1, 2, c, d, y, o);
    assert [y[0], y[1], y[2], c, y[3], d][2 := c][3 := y[2]] == [y[0], y[1], c, y[2], y[3], d];
    MoveOne(v, [y[0], y[1], c, y[2], y[3], d], 2, 2, 1, c, d, y, o);
    assert [y[0], y[1], c, y[2], y[3], d][1 := c][2 := y[1]] == [y[0], c, y[1], y[2], y[3], d];
    MoveOne(v, [y[0], c, y[1], y[2], y[3], d], 1, 3, 0, c, d, y, o);
    assert [y[0], c, y[1], y[2], y[3], d][0 := c][1 := y[0]] == [c, y[0], y[1], y[2], y[3], d];
  }

  lemma SecondGenerator(v: Variables, c: string, d: string, y: seq<string>, o: seq<string>)
    requires Generators(v, c, d, y, o)
    ensures Reordered(v, [c, y[0], y[1], y[2], y[3], d], 0, 4) == Reordered(v, [c, y[0], d, y[1], y[2], y[3]], 2, 7)
  {
    hide Target, Reordered;
    var s := [c, y[0], y[1], y[2], y[3], d];
    Stays(v, s, 0, 4);
    Stays(v, s, 1, 4);
    Stays(v, s, 2, 4);
    Stays(v, s, 3, 4);
    Stays(v, s, 4, 4);
    MoveOne(v, s, 5, 4, 3, c, d, y, o);
    assert s[4 := d][5 := y[3]] == [c, y[0], y[1], y[2], d, y[3]];
    MoveOne(v, [c, y[0], y[1], y[2], d, y[3]], 4, 5, 2, c, d, y, o);
    assert [c, y[0], y[1], y[2], d, y[3]][3 := d][4 := y[2]] == [c, y[0], y[1], d, y[2], y[3]];
    MoveOne(v, [c, y[0], y[1], d, y[2], y[3]], 3, 6, 1, c, d, y, o);
    assert [c, y[0], y[1], d, y[2], y[3]][2 := d][3 := y[1]] == [c, y[0], d, y[1], y[2], y[3]];
  }

  // There are such compilers.
  lemma GeneratorsExist() returns (v: Variables, y: seq<string>)
    ensures Generators(v, "c", "d", y, y)
  {
    y := ["1", "2", "3", "4"];
    v := Variables(
      n => if n == "c" || n == "d" then ["4", "3", "2", "1"] else [],
      n => if n == "c" || n == "d" then [] else [n]);
  }

  class ExtraCompilers {
    const v: Variables
    var quc: seq<string>

    constructor (v: Variables, quc: seq<string>)
      ensures this.v == v && this.quc == quc
    {
      this.v := v;
      this.quc := quc;
    }

    // The two nested loops over the outputs and over the other compilers.
    method FindTarget(compOut: nat) returns (k: nat)
      requires compOut < |quc|
      ensures k == Target(v, quc, v.outputs(quc[compOut]), compOut)
    {
      var outputs := v.outputs(quc[compOut]);
      var out := 0;
      assert outputs[0..] == outputs;
      while out < |outputs|
        invariant 0 <= out <= |outputs|
        invariant Target(v, quc, outputs[out..], compOut) == Target(v, quc, outputs, compOut)
      {
        var compIn := 0;
        while compIn < |quc|
          invariant 0 <= compIn <= |quc|
          invariant forall i :: 0 <= i < compIn && i < compOut ==> outputs[out] !in v.inputs(quc[i])
        {
          if compIn != compOut {
            var inputs := v.inputs(quc[compIn]);
            var i := 0;
            while i < |inputs|
              invariant 0 <= i <= |inputs|
              invariant compIn < compOut ==> outputs[out] !in inputs[..i]
            {
              if inputs[i] == outputs[out] && compOut > compIn { return compIn; }
              i := i + 1;
            }
            assert inputs[..i] == inputs;
          }
          compIn := compIn + 1;
        }
        assert outputs[out..][1..] == outputs[out + 1..];
        out := out + 1;
      }
      assert outputs[out..] == [];
      return compOut;
    }

    method Move(from: nat, to: nat)
      requires to < from < |quc|
      modifies this
      ensures quc == Moved(old(quc), from, to) && |quc| == |old(quc)|
    {
      MovedKeeps(quc, from, to);
      TwoSteps(quc, from, to);
      quc := quc[..to] + [quc[from]] + quc[to..];
      quc := quc[..from + 1] + quc[from + 2..];
    }

    method Reorder() returns (moves: nat, stopped: bool)
      modifies this
      ensures Result(quc, moves, stopped) == Reordered(v, old(quc), 0, 0)
      ensures |quc| == |old(quc)| && multiset(quc) == multiset(old(quc)) && moves <= |quc| + 1
      ensures !stopped ==> Chained(v, quc, |quc|)
    {
      hide Target, Chained, Reordered, Moved;
      ghost var was := quc;
      NoneChained(v, was);
      ReorderChains(v, was, 0, 0);
      var compOut, jumpCount := 0, 0;
      while compOut < |quc|
        invariant |quc| == |was| && 0 <= compOut <= |quc| && 0 <= jumpCount <= |quc| + 1
        invariant Reordered(v, quc, compOut, jumpCount) == Reordered(v, was, 0, 0)
        decreases |quc| + 1 - jumpCount, |quc| - compOut
      {
        if jumpCount > |quc| {
          ReorderedEnd(v, quc, compOut, jumpCount);
          return jumpCount, true;
        }
        ReorderedStep(v, quc, compOut, jumpCount);
        var compIn := FindTarget(compOut);
        if compIn < compOut {
          jumpCount := jumpCount + 1;
          Move(compOut, compIn);
          compOut := compIn;
        } else {
          compOut := compOut + 1;
        }
      }
      ReorderedEnd(v, quc, compOut, jumpCount);
      return jumpCount, false;
    }
  }
}
