/** The event loop of the Go port: a queue under a mutex, a wakeup channel that holds one token, and
    a quit channel that every start replaces. Any number of goroutines post, start and stop; each
    critical section and each channel operation is one step, and steps interleave freely. */
module EventLoop {
  import opened Basics

  // One posted task: the how-manieth of which call. Emit posts one for each listener, in order.
  datatype Event = Event(poster: nat, index: nat)

  // A goroutine in Post or Emit: sending says that a task is appended and its wakeup is not sent yet.
  datatype Poster = Poster(total: nat, next: nat, sending: bool)

  datatype Phase = AtSelect | Received | Batch(tasks: seq<Event>) | Returned

  // A goroutine in Run, past the check of the running flag.
  datatype Runner = Runner(quit: nat, phase: Phase)

  // posted and executed record the order of the appends and of the calls of what was posted.
  datatype State = State(
    queue: seq<Event>,
    wakeup: bool,
    running: bool,
    quit: nat,
    closed: set<nat>,
    channels: nat,
    runners: seq<Runner>,
    posters: seq<Poster>,
    posted: seq<Event>,
    executed: seq<Event>)

  const INITIAL := State([], false, false, 0, {}, 1, [], [], [], [])

  datatype Step =
    | Call(total: nat)      // Post is Call(1); Emit is Call(number of listeners)
    | Append(p: nat)
    | Send(p: nat)
    | Start
    | Stop
    | Quit(r: nat)
    | Receive(r: nat)
    | Swap(r: nat)
    | Execute(r: nat)
    | Resume(r: nat)

  predicate Enabled(s: State, step: Step) {
    match step
    case Call(_) => true
    case Append(p) => p < |s.posters| && !s.posters[p].sending && s.posters[p].next < s.posters[p].total
    case Send(p) => p < |s.posters| && s.posters[p].sending
    case Start => true
    case Stop => true
    case Quit(r) => r < |s.runners| && s.runners[r].phase.AtSelect? && s.runners[r].quit in s.closed
    case Receive(r) => r < |s.runners| && s.runners[r].phase.AtSelect? && s.wakeup
    case Swap(r) => r < |s.runners| && s.runners[r].phase.Received?
    case Execute(r) => r < |s.runners| && s.runners[r].phase.Batch? && s.runners[r].phase.tasks != []
    case Resume(r) => r < |s.runners| && s.runners[r].phase == Batch([])
  }

  function WithPhase(s: State, r: nat, phase: Phase): State
    requires r < |s.runners|
  {
    s.(runners := s.runners[r := s.runners[r].(phase := phase)])
  }

  function Next(s: State, step: Step): State
    requires Enabled(s, step)
  {
    match step
    case Call(total) => s.(posters := s.posters + [Poster(total, 0, false)])
    case Append(p) =>
      var e := Event(p, s.posters[p].next);
      s.(queue := s.queue + [e], posted := s.posted + [e],
         posters := s.posters[p := Poster(s.posters[p].total, s.posters[p].next + 1, true)])
    case Send(p) =>
      // A full channel drops the token.
      s.(wakeup := true, posters := s.posters[p := s.posters[p].(sending := false)])
    case Start =>
      if s.running then s
      else s.(running := true, quit := s.channels, channels := s.channels + 1,
              runners := s.runners + [Runner(s.channels, AtSelect)])
    case Stop =>
      if !s.running then s else s.(running := false, closed := s.closed + {s.quit})
    case Quit(r) => WithPhase(s, r, Returned)
    case Receive(r) => WithPhase(s.(wakeup := false), r, Received)
    case Swap(r) => WithPhase(s.(queue := []), r, Batch(s.queue))
    case Execute(r) =>
      var tasks := s.runners[r].phase.tasks;
      WithPhase(s.(executed := s.executed + [tasks[0]]), r, Batch(tasks[1..]))
    case Resume(r) => WithPhase(s, r, AtSelect)
  }

  // Is a schedule possible from s, and where does it lead?
  predicate Possible(s: State, steps: seq<Step>)
    decreases |steps|
  {
    steps == [] || (Enabled(s, steps[0]) && Possible(Next(s, steps[0]), steps[1..]))
  }

  function After(s: State, steps: seq<Step>): State
    requires Possible(s, steps)
    decreases |steps|
  {
    if steps == [] then s else After(Next(s, steps[0]), steps[1..])
  }

  /* ---- tasks in the hands of runners ---- */

  function Tasks(r: Runner): seq<Event> {
    if r.phase.Batch? then r.phase.tasks else []
  }

  function Hands(runners: seq<Runner>): seq<Event> {
    if runners == [] then [] else Tasks(runners[0]) + Hands(runners[1..])
  }

  function Pending(s: State): seq<Event> {
    Hands(s.runners) + s.queue
  }

  function Count(events: seq<Event>, e: Event): nat {
    multiset(events)[e]
  }

  lemma CountAppend(a: seq<Event>, b: seq<Event>, e: Event)
    ensures Count(a + b, e) == Count(a, e) + Count(b, e)
  {
  }

  lemma {:induction false} HandsUpdate(runners: seq<Runner>, r: nat, x: Runner, e: Event)
    requires r < |runners|
    ensures Count(Hands(runners[r := x]), e) + Count(Tasks(runners[r]), e)
      == Count(Hands(runners), e) + Count(Tasks(x), e)
    decreases |runners|
  {
    hide Count, Tasks;
    var updated := runners[r := x];
    CountAppend(Tasks(updated[0]), Hands(updated[1..]), e);
    CountAppend(Tasks(runners[0]), Hands(runners[1..]), e);
    if r == 0 {
      assert updated[1..] == runners[1..];
    } else {
      HandsUpdate(runners[1..], r - 1, x, e);
      assert updated[1..] == runners[1..][r - 1 := x];
    }
  }

  lemma {:induction false} HandsAppend(runners: seq<Runner>, x: Runner)
    ensures Hands(runners + [x]) == Hands(runners) + Tasks(x)
    decreases |runners|
  {
    if runners == [] {
      assert Hands([]) == [];
    } else {
      assert (runners + [x])[1..] == runners[1..] + [x];
      HandsAppend(runners[1..], x);
    }
  }

  // If nobody else holds tasks, the hands are those of one runner.
  lemma {:induction false} HandsOfOne(runners: seq<Runner>, r: nat)
    requires r < |runners| && forall i :: 0 <= i < |runners| && i != r ==> Tasks(runners[i]) == []
    ensures Hands(runners) == Tasks(runners[r])
    decreases |runners|
  {
    if r == 0 { HandsOfNone(runners[1..]); }
    else { HandsOfOne(runners[1..], r - 1); }
  }

  lemma {:induction false} HandsOfNone(runners: seq<Runner>)
    requires forall i :: 0 <= i < |runners| ==> Tasks(runners[i]) == []
    ensures Hands(runners) == []
    decreases |runners|
  {
    if runners != [] { HandsOfNone(runners[1..]); }
  }

  /* ---- the invariant of every interleaving ---- */

  // A queued task has a token on the way: in the channel, about to be sent, or just received.
  predicate Noticed(s: State) {
    s.queue != [] ==>
      s.wakeup || (exists p :: 0 <= p < |s.posters| && s.posters[p].sending)
      || (exists r :: 0 <= r < |s.runners| && s.runners[r].phase.Received?)
  }

  // Nothing is lost and nothing is done twice.
  ghost predicate Conserved(s: State) {
    forall e :: Count(s.posted, e) == Count(s.executed, e) + Count(Hands(s.runners), e) + Count(s.queue, e)
  }

  // The events of a call are posted once each, in order, as far as the call has come.
  predicate InOrder(s: State) {
    (forall i :: 0 <= i < |s.posted| ==>
      s.posted[i].poster < |s.posters| && s.posted[i].index < s.posters[s.posted[i].poster].next)
    && (forall p :: 0 <= p < |s.posters| ==> s.posters[p].next <= s.posters[p].total)
    && (forall i, j :: 0 <= i < j < |s.posted| && s.posted[i].poster == s.posted[j].poster ==>
      s.posted[i].index < s.posted[j].index)
  }

  predicate Live(r: Runner) {
    !r.phase.Returned?
  }

  // While the loop is running its quit channel is open and one live runner listens to it; every
  // other live runner listens to a closed channel.
  predicate Channels(s: State) {
    (forall c :: c in s.closed ==> c < s.channels) && s.quit < s.channels
    && (s.running ==> s.quit !in s.closed && exists r ::
      0 <= r < |s.runners| && s.runners[r].quit == s.quit && Live(s.runners[r]))
    && (forall r :: 0 <= r < |s.runners| ==> s.runners[r].quit < s.channels)
    && (forall r :: 0 <= r < |s.runners| && s.runners[r].quit !in s.closed ==> s.running && s.runners[r].quit == s.quit)
    && (forall q, r :: 0 <= q < r < |s.runners| ==> s.runners[q].quit != s.runners[r].quit)
  }

  ghost predicate Inv(s: State) {
    Noticed(s) && Conserved(s) && InOrder(s) && Channels(s)
  }

  lemma NoticedStep(s: State, step: Step)
    requires Noticed(s) && Enabled(s, step)
    ensures Noticed(Next(s, step))
  {
    var t := Next(s, step);
    match step
    case Call(_) => assert forall p :: 0 <= p < |s.posters| ==> t.posters[p] == s.posters[p];
    case Append(p) => assert t.posters[p].sending;
    case Send(_) =>
    case Start => assert forall r :: 0 <= r < |s.runners| ==> t.runners[r] == s.runners[r];
    case Stop =>
    case Receive(r) => assert t.runners[r].phase.Received?;
    case Swap(_) =>
    case Quit(r) => assert forall i :: 0 <= i < |s.runners| && i != r ==> t.runners[i] == s.runners[i];
    case Execute(r) => assert forall i :: 0 <= i < |s.runners| && i != r ==> t.runners[i] == s.runners[i];
    case Resume(r) => assert forall i :: 0 <= i < |s.runners| && i != r ==> t.runners[i] == s.runners[i];
  }

  lemma ConservedPlain(s: State, step: Step)
    requires Conserved(s) && Enabled(s, step) && (step.Call? || step.Send? || step.Stop?)
    ensures Conserved(Next(s, step))
  {
    hide Hands, Count;
  }

  lemma ConservedAppend(s: State, p: nat)
    requires Conserved(s) && Enabled(s, Append(p))
    ensures Conserved(Next(s, Append(p)))
  {
    hide Hands, Count;
    var t := Next(s, Append(p));
    var one := [Event(p, s.posters[p].next)];
    forall e ensures Count(t.posted, e) == Count(t.executed, e) + Count(Hands(t.runners), e) + Count(t.queue, e) {
      CountAppend(s.posted, one, e);
      CountAppend(s.queue, one, e);
    }
  }

  lemma ConservedStart(s: State)
    requires Conserved(s)
    ensures Conserved(Next(s, Start))
  {
    hide Hands, Count;
    if !s.running {
      HandsAppend(s.runners, Runner(s.channels, AtSelect));
      assert Hands(s.runners) + [] == Hands(s.runners);
    }
  }

  // A step of one runner.
  lemma ConservedRun(s: State, step: Step, r: nat)
    requires Conserved(s) && Enabled(s, step)
    requires step == Quit(r) || step == Receive(r) || step == Swap(r) || step == Execute(r) || step == Resume(r)
    ensures Conserved(Next(s, step))
  {
    hide Conserved;
    ConservedRunner(s, Next(s, step), r, if step.Execute? then [s.runners[r].phase.tasks[0]] else []);
  }

  lemma ConservedStep(s: State, step: Step)
    requires Conserved(s) && Enabled(s, step)
    ensures Conserved(Next(s, step))
  {
    hide Hands, Count, Next, Conserved;
    match step
    case Call(_) => ConservedPlain(s, step);
    case Append(p) => ConservedAppend(s, p);
    case Send(_) => ConservedPlain(s, step);
    case Start => ConservedStart(s);
    case Stop => ConservedPlain(s, step);
    case Quit(r) => ConservedRun(s, step, r);
    case Receive(r) => ConservedRun(s, step, r);
    case Swap(r) => ConservedRun(s, step, r);
    case Execute(r) => ConservedRun(s, step, r);
    case Resume(r) => ConservedRun(s, step, r);
  }

  // A runner's step moves tasks from the queue to its hands, or from its hands to the executed ones.
  lemma ConservedRunner(s: State, t: State, r: nat, done: seq<Event>)
    requires Conserved(s) && r < |s.runners| && |t.runners| == |s.runners| && t.runners == s.runners[r := t.runners[r]]
    requires t.posted == s.posted && t.executed == s.executed + done
    requires Tasks(s.runners[r]) + s.queue == done + Tasks(t.runners[r]) + t.queue
    ensures Conserved(t)
  {
    hide Hands, Count, Tasks;
    forall e ensures Count(t.posted, e) == Count(t.executed, e) + Count(Hands(t.runners), e) + Count(t.queue, e) {
      HandsUpdate(s.runners, r, t.runners[r], e);
      CountAppend(s.executed, done, e);
      CountAppend(Tasks(s.runners[r]), s.queue, e);
      CountAppend(done + Tasks(t.runners[r]), t.queue, e);
      CountAppend(done, Tasks(t.runners[r]), e);
    }
  }

  lemma InOrderStep(s: State, step: Step)
    requires InOrder(s) && Enabled(s, step)
    ensures InOrder(Next(s, step))
  {
  }

  lemma SameLoop(s: State, t: State)
    requires Channels(s) && t.closed == s.closed && t.quit == s.quit && t.running == s.running
    requires t.channels == s.channels && t.runners == s.runners
    ensures Channels(t)
  {
  }

  lemma ChannelsStart(s: State)
    requires Channels(s)
    ensures Channels(Next(s, Start))
  {
    var t := Next(s, Start);
    if !s.running { assert t.runners[|s.runners|].quit == t.quit && Live(t.runners[|s.runners|]); }
  }

  lemma ChannelsStop(s: State)
    requires Channels(s)
    ensures Channels(Next(s, Stop))
  {
  }

  lemma ChannelsStep(s: State, step: Step)
    requires Channels(s) && Enabled(s, step)
    ensures Channels(Next(s, step))
  {
    var t := Next(s, step);
    hide Channels;
    match step
    case Call(_) => SameLoop(s, t);
    case Append(_) => SameLoop(s, t);
    case Send(_) => SameLoop(s, t);
    case Start => ChannelsStart(s);
    case Stop => ChannelsStop(s);
    case Quit(r) => RunnerStays(s, t, r);
    case Receive(r) => RunnerStays(s, t, r);
    case Swap(r) => RunnerStays(s, t, r);
    case Execute(r) => RunnerStays(s, t, r);
    case Resume(r) => RunnerStays(s, t, r);
  }

  lemma RunnerStays(s: State, t: State, r: nat)
    requires Channels(s) && r < |s.runners| && t.closed == s.closed && t.quit == s.quit && t.running == s.running
    requires t.channels == s.channels && |t.runners| == |s.runners| && t.runners[r].quit == s.runners[r].quit
    requires forall i :: 0 <= i < |s.runners| && i != r ==> t.runners[i] == s.runners[i]
    requires Live(t.runners[r]) || s.runners[r].quit in s.closed
    ensures Channels(t)
  {
    if s.running {
      var q :| 0 <= q < |s.runners| && s.runners[q].quit == s.quit && Live(s.runners[q]);
      assert t.runners[q].quit == t.quit && Live(t.runners[q]);
    }
  }

  lemma InvStep(s: State, step: Step)
    requires Inv(s) && Enabled(s, step)
    ensures Inv(Next(s, step))
  {
    NoticedStep(s, step);
    ConservedStep(s, step);
    InOrderStep(s, step);
    ChannelsStep(s, step);
  }

  /** In every interleaving of any number of posters, starts and stops the invariant holds. */
  lemma {:induction false} InvAlways(s: State, steps: seq<Step>)
    requires Inv(s) && Possible(s, steps)
    ensures Inv(After(s, steps))
    decreases |steps|
  {
    if steps != [] {
      InvStep(s, steps[0]);
      InvAlways(Next(s, steps[0]), steps[1..]);
    }
  }

  lemma InvInitially()
    ensures Inv(INITIAL)
  {
  }

  /** On no schedule is a channel closed twice: whenever a stop would close one, it is still open. */
  lemma NoDoubleClose(steps: seq<Step>)
    requires Possible(INITIAL, steps)
    ensures var s := After(INITIAL, steps); s.running ==>
      s.quit !in s.closed && Next(s, Stop).closed == s.closed + {s.quit}
  {
    hide After, Possible;
    InvAlways(INITIAL, steps);
  }

  /* ---- each task at most once ---- */

  lemma {:induction false} OnceIfDistinct(events: seq<Event>, e: Event)
    requires Distinct(events)
    ensures Count(events, e) <= 1
    decreases |events|
  {
    if events != [] {
      var n := |events| - 1;
      assert events == events[..n] + [events[n]];
      OnceIfDistinct(events[..n], e);
    }
  }

  lemma DistinctIfOnce(events: seq<Event>)
    requires forall e :: Count(events, e) <= 1
    ensures Distinct(events)
  {
    hide Count;
    forall i, j | 0 <= i < j < |events| ensures events[i] != events[j] {
      var e := events[i];
      CountAppend(events[..j], events[j..], e);
      assert events == events[..j] + events[j..];
      CountIn(events[..j], e);
      CountIn(events[j..], e);
      assert e in events[..j];
      assert events[j] in events[j..];
    }
  }

  lemma CountIn(events: seq<Event>, e: Event)
    ensures Count(events, e) > 0 <==> e in events
  {
  }

  /** In every reachable state: what was executed was posted, no task was executed twice, and every
      posted task is executed, in some runner's hands or queued, and only one of these. */
  lemma AtMostOnce(s: State)
    requires Inv(s)
    ensures Distinct(s.posted) && Distinct(s.executed) && Distinct(Pending(s))
    ensures forall e :: e in s.posted <==> e in s.executed || e in Pending(s)
    ensures forall e :: e in s.executed ==> e !in Pending(s)
  {
    assert Distinct(s.posted);
    hide Count, Hands, Channels, Noticed, Distinct;
    forall e ensures Count(s.posted, e) <= 1 { OnceIfDistinct(s.posted, e); }
    forall e ensures Count(s.executed, e) + Count(Pending(s), e) == Count(s.posted, e) {
      CountAppend(Hands(s.runners), s.queue, e);
    }
    DistinctIfOnce(s.executed);
    DistinctIfOnce(Pending(s));
    forall e ensures (e in s.posted <==> e in s.executed || e in Pending(s)) && (e in s.executed ==> e !in Pending(s)) {
      CountIn(s.posted, e);
      CountIn(s.executed, e);
      CountIn(Pending(s), e);
    }
  }

  /* ---- first in, first out ---- */

  // At most one runner has tasks in its hands.
  predicate OneBatch(s: State) {
    forall q, r :: 0 <= q < r < |s.runners| ==> Tasks(s.runners[q]) == [] || Tasks(s.runners[r]) == []
  }

  predicate Ordered(s: State) {
    s.posted == s.executed + Pending(s)
  }

  lemma OrderedSwap(s: State, t: State, r: nat)
    requires Ordered(s) && Enabled(s, Swap(r)) && t == Next(s, Swap(r)) && OneBatch(t)
    ensures Ordered(t)
  {
    hide Hands;
    if s.queue == [] {
      SameHands(s, t, r);
    } else {
      assert Tasks(t.runners[r]) == s.queue;
      forall i | 0 <= i < |s.runners| && i != r ensures Tasks(s.runners[i]) == [] && t.runners[i] == s.runners[i] {
      assert t.runners[i] == s.runners[i];
    }
      HandsOfOne(s.runners, r);
      HandsOfOne(t.runners, r);
    }
  }

  lemma OrderedExecute(s: State, t: State, r: nat)
    requires Ordered(s) && Enabled(s, Execute(r)) && t == Next(s, Execute(r)) && OneBatch(s)
    ensures Ordered(t)
  {
    hide Hands;
    var tasks := s.runners[r].phase.tasks;
    assert Tasks(s.runners[r]) == tasks && Tasks(t.runners[r]) == tasks[1..] && tasks == [tasks[0]] + tasks[1..];
    forall i | 0 <= i < |s.runners| && i != r ensures Tasks(s.runners[i]) == [] && t.runners[i] == s.runners[i] {
        assert t.runners[i] == s.runners[i];
      }
    HandsOfOne(s.runners, r);
    HandsOfOne(t.runners, r);
    assert s.executed + (tasks + s.queue) == t.executed + (tasks[1..] + s.queue);
  }

  lemma OrderedStep(s: State, step: Step)
    requires Ordered(s) && Enabled(s, step) && OneBatch(s) && OneBatch(Next(s, step))
    ensures Ordered(Next(s, step))
  {
    var t := Next(s, step);
    hide Hands;
    match step
    case Call(_) =>
    case Append(_) =>
    case Send(_) =>
    case Start => if !s.running { HandsAppend(s.runners, Runner(s.channels, AtSelect)); }
    case Stop =>
    case Quit(r) => SameHands(s, t, r);
    case Receive(r) => SameHands(s, t, r);
    case Resume(r) => SameHands(s, t, r);
    case Swap(r) => OrderedSwap(s, t, r);
    case Execute(r) => OrderedExecute(s, t, r);
  }

  lemma {:induction false} SameTasks(a: seq<Runner>, b: seq<Runner>)
    requires |a| == |b| && forall i :: 0 <= i < |a| ==> Tasks(a[i]) == Tasks(b[i])
    ensures Hands(a) == Hands(b)
    decreases |a|
  {
    if a != [] { SameTasks(a[1..], b[1..]); }
  }

  lemma SameHands(s: State, t: State, r: nat)
    requires r < |s.runners| && |t.runners| == |s.runners| && Tasks(t.runners[r]) == Tasks(s.runners[r])
    requires forall i :: 0 <= i < |s.runners| && i != r ==> t.runners[i] == s.runners[i]
    ensures Hands(t.runners) == Hands(s.runners)
  {
    SameTasks(t.runners, s.runners);
  }

  // Every state on the way has at most one batch in hand.
  predicate OneBatchThroughout(s: State, steps: seq<Step>)
    requires Possible(s, steps)
    decreases |steps|
  {
    OneBatch(s) && (steps != [] ==> OneBatchThroughout(Next(s, steps[0]), steps[1..]))
  }

  /** Tasks are executed in the order in which they were posted, as long as no two runners have
      tasks in their hands at once; in particular with a single runner. */
  lemma {:induction false} Fifo(s: State, steps: seq<Step>)
    requires Ordered(s) && Possible(s, steps) && OneBatchThroughout(s, steps)
    ensures var t := After(s, steps); Ordered(t) && t.executed <= t.posted
    decreases |steps|
  {
    if steps != [] {
      OrderedStep(s, steps[0]);
      Fifo(Next(s, steps[0]), steps[1..]);
    }
  }

  // The listeners of one signal run in the order in which they were connected.
  lemma EmitOrder(s: State, i: nat, j: nat)
    requires Inv(s) && s.executed <= s.posted && i < j < |s.executed| && s.executed[i].poster == s.executed[j].poster
    ensures s.executed[i].index < s.executed[j].index
  {
    assert s.posted[i] == s.executed[i] && s.posted[j] == s.executed[j];
  }

  lemma {:induction false} HeldBy(runners: seq<Runner>, r: nat, e: Event)
    requires r < |runners| && e in Tasks(runners[r])
    ensures Count(Hands(runners), e) >= 1
    decreases |runners|
  {
    hide Tasks;
    if r > 0 { HeldBy(runners[1..], r - 1, e); }
    CountAppend(Tasks(runners[0]), Hands(runners[1..]), e);
    CountIn(Tasks(runners[0]), e);
  }

  lemma {:induction false} HeldTwice(runners: seq<Runner>, q: nat, r: nat, e: Event)
    requires q < r < |runners| && e in Tasks(runners[q]) && e in Tasks(runners[r])
    ensures Count(Hands(runners), e) >= 2
    decreases |runners|
  {
    hide Tasks;
    CountAppend(Tasks(runners[0]), Hands(runners[1..]), e);
    if q > 0 {
      HeldTwice(runners[1..], q - 1, r - 1, e);
    } else {
      HeldBy(runners[1..], r - 1, e);
      CountIn(Tasks(runners[0]), e);
    }
  }

  // This step would execute a task before one that was posted earlier.
  predicate Overtakes(s: State, step: Step) {
    Enabled(s, step) && !(Next(s, step).executed <= Next(s, step).posted)
  }

  lemma OvertakesNext(s: State, r: nat)
    requires s.executed <= s.posted && r < |s.runners| && Tasks(s.runners[r]) != []
    ensures var n, e := |s.executed|, Tasks(s.runners[r])[0];
      Overtakes(s, Execute(r)) <==> !(n < |s.posted| && s.posted[n] == e)
  {
    var e := Tasks(s.runners[r])[0];
    assert Next(s, Execute(r)).executed == s.executed + [e];
    assert (s.executed + [e])[|s.executed|] == e;
  }

  lemma HeldOnce(s: State, q: nat, r: nat)
    requires Inv(s) && q < r < |s.runners| && Tasks(s.runners[q]) != [] && Tasks(s.runners[r]) != []
    ensures Tasks(s.runners[q])[0] != Tasks(s.runners[r])[0]
  {
    hide Noticed, Channels, Hands, Count;
    var e := Tasks(s.runners[q])[0];
    if e == Tasks(s.runners[r])[0] {
      HeldTwice(s.runners, q, r, e);
      OnceIfDistinct(s.posted, e);
    }
  }

  // Two runners hold different tasks, and only one of these is next in posting order.
  lemma TwoBatches(s: State)
    requires Inv(s) && s.executed <= s.posted && !OneBatch(s)
    ensures exists r :: Overtakes(s, Execute(r))
  {
    var q, r :| 0 <= q < r < |s.runners| && Tasks(s.runners[q]) != [] && Tasks(s.runners[r]) != [];
    hide Inv, Tasks, Overtakes, OneBatch;
    HeldOnce(s, q, r);
    OvertakesNext(s, q);
    OvertakesNext(s, r);
  }

  /** In posting order so far, the next step can break the order exactly if two runners hold tasks. */
  lemma OvertakesIff(s: State)
    requires Inv(s) && Ordered(s)
    ensures (exists step :: Overtakes(s, step)) <==> !OneBatch(s)
  {
    if step :| Overtakes(s, step) {
      if step.Execute? && OneBatch(s) { OrderedExecute(s, Next(s, step), step.r); }
    }
    if !OneBatch(s) {
      hide Inv, Ordered;
      TwoBatches(s);
      var r :| Overtakes(s, Execute(r));
    }
  }

  // The loop is started only while it runs, or after every earlier run has returned.
  predicate StartedInTurn(s: State, steps: seq<Step>)
    requires Possible(s, steps)
    decreases |steps|
  {
    steps != [] ==>
      (steps[0].Start? ==> s.running || forall r :: 0 <= r < |s.runners| ==> !Live(s.runners[r]))
      && StartedInTurn(Next(s, steps[0]), steps[1..])
  }

  predicate OneLive(s: State) {
    forall q, r :: 0 <= q < r < |s.runners| ==> !Live(s.runners[q]) || !Live(s.runners[r])
  }

  lemma {:induction false} OneLiveThroughout(s: State, steps: seq<Step>)
    requires OneLive(s) && Possible(s, steps) && StartedInTurn(s, steps)
    ensures OneBatchThroughout(s, steps)
    decreases |steps|
  {
    if steps != [] {
      OneLiveStep(s, steps[0]);
      OneLiveThroughout(Next(s, steps[0]), steps[1..]);
    }
  }

  lemma OneLiveStep(s: State, step: Step)
    requires OneLive(s) && Enabled(s, step)
    requires step.Start? ==> s.running || forall r :: 0 <= r < |s.runners| ==> !Live(s.runners[r])
    ensures OneLive(Next(s, step))
  {
  }

  /** On every schedule that starts the loop only after the earlier runs have returned, tasks are
      executed in the order in which they were posted. */
  lemma FifoInTurn(steps: seq<Step>)
    requires Possible(INITIAL, steps) && StartedInTurn(INITIAL, steps)
    ensures After(INITIAL, steps).executed <= After(INITIAL, steps).posted
  {
    hide Possible, After, StartedInTurn, OneBatchThroughout;
    OneLiveThroughout(INITIAL, steps);
    assert Pending(INITIAL) == [];
    Fifo(INITIAL, steps);
  }

  lemma {:induction false} Extend(s: State, steps: seq<Step>, step: Step)
    requires Possible(s, steps) && Enabled(After(s, steps), step)
    ensures Possible(s, steps + [step]) && After(s, steps + [step]) == Next(After(s, steps), step)
    decreases |steps|
  {
    if steps == [] {
      assert [step][1..] == [];
    } else {
      assert (steps + [step])[1..] == steps[1..] + [step];
      Extend(Next(s, steps[0]), steps[1..], step);
    }
  }

  // A stop and a restart while the old runner still works on a batch.
  function OvertakeStart(): seq<Step> {
    [Start, Call(1), Append(0), Send(0), Receive(0), Swap(0), Stop, Start]
  }

  function OvertakeEnd(): seq<Step> {
    [Call(1), Append(1), Send(1), Receive(1), Swap(1), Execute(1), Execute(0)]
  }

  lemma OvertakeFirst() returns (s: State)
    ensures Possible(INITIAL, OvertakeStart()) && s == After(INITIAL, OvertakeStart())
    ensures s == State([], false, true, 2, {1}, 3, [Runner(1, Batch([Event(0, 0)])), Runner(2, AtSelect)],
                       [Poster(1, 1, false)], [Event(0, 0)], [])
  {
    var steps := OvertakeStart();
    s := INITIAL;
    for i := 0 to |steps|
      invariant Possible(INITIAL, steps[..i]) && s == After(INITIAL, steps[..i])
      invariant i == 0 ==> s == INITIAL
      invariant i == 1 ==> s == INITIAL.(running := true, quit := 1, channels := 2, runners := [Runner(1, AtSelect)])
      invariant i == 2 ==> s == State([], false, true, 1, {}, 2, [Runner(1, AtSelect)], [Poster(1, 0, false)], [], [])
      invariant i == 3 ==> s == State([Event(0, 0)], false, true, 1, {}, 2, [Runner(1, AtSelect)],
        [Poster(1, 1, true)], [Event(0, 0)], [])
      invariant i == 4 ==> s == State([Event(0, 0)], true, true, 1, {}, 2, [Runner(1, AtSelect)],
        [Poster(1, 1, false)], [Event(0, 0)], [])
      invariant i == 5 ==> s == State([Event(0, 0)], false, true, 1, {}, 2, [Runner(1, Received)],
        [Poster(1, 1, false)], [Event(0, 0)], [])
      invariant i == 6 ==> s == State([], false, true, 1, {}, 2, [Runner(1, Batch([Event(0, 0)]))],
        [Poster(1, 1, false)], [Event(0, 0)], [])
      invariant i == 7 ==> s == State([], false, false, 1, {1}, 2, [Runner(1, Batch([Event(0, 0)]))],
        [Poster(1, 1, false)], [Event(0, 0)], [])
      invariant i == 8 ==> s == State([], false, true, 2, {1}, 3,
        [Runner(1, Batch([Event(0, 0)])), Runner(2, AtSelect)], [Poster(1, 1, false)], [Event(0, 0)], [])
    {
      hide Possible, After;
      Extend(INITIAL, steps[..i], steps[i]);
      assert steps[..i + 1] == steps[..i] + [steps[i]];
      s := Next(s, steps[i]);
    }
    assert steps[..|steps|] == steps;
  }

  lemma OvertakeSecond(s: State) returns (t: State)
    requires s == State([], false, true, 2, {1}, 3, [Runner(1, Batch([Event(0, 0)])), Runner(2, AtSelect)],
                        [Poster(1, 1, false)], [Event(0, 0)], [])
    ensures Possible(s, OvertakeEnd()) && t == After(s, OvertakeEnd())
    ensures t.posted == [Event(0, 0), Event(1, 0)] && t.executed == [Event(1, 0), Event(0, 0)]
  {
    var steps := OvertakeEnd();
    var first := Runner(1, Batch([Event(0, 0)]));
    var posted := [Event(0, 0), Event(1, 0)];
    var done := [Poster(1, 1, false), Poster(1, 1, false)];
    t := s;
    assert [Event(1, 0)][1..] == [] && [Event(0, 0)][1..] == [];
    for i := 0 to |steps|
      invariant Possible(s, steps[..i]) && t == After(s, steps[..i])
      invariant i == 0 ==> t == s
      invariant i == 1 ==> t == s.(posters := [Poster(1, 1, false), Poster(1, 0, false)])
      invariant i == 2 ==> t == s.(posters := [Poster(1, 1, false), Poster(1, 1, true)], queue := [Event(1, 0)],
        posted := posted)
      invariant i == 3 ==> t == s.(posters := done, queue := [Event(1, 0)], posted := posted, wakeup := true)
      invariant i == 4 ==> t == s.(posters := done, queue := [Event(1, 0)], posted := posted,
        runners := [first, Runner(2, Received)])
      invariant i == 5 ==> t == s.(posters := done, posted := posted,
        runners := [first, Runner(2, Batch([Event(1, 0)]))])
      invariant i == 6 ==> t == s.(posters := done, posted := posted, runners := [first, Runner(2, Batch([]))],
        executed := [Event(1, 0)])
      invariant i == 7 ==> t.posted == posted && t.executed == [Event(1, 0), Event(0, 0)]
    {
      hide Possible, After;
      Extend(s, steps[..i], steps[i]);
      assert steps[..i + 1] == steps[..i] + [steps[i]];
      t := Next(t, steps[i]);
    }
    assert steps[..|steps|] == steps;
  }

  lemma {:induction false} Compose(s: State, a: seq<Step>, b: seq<Step>)
    requires Possible(s, a) && Possible(After(s, a), b)
    ensures Possible(s, a + b) && After(s, a + b) == After(After(s, a), b)
    decreases |a|
  {
    if a == [] {
      assert a + b == b;
    } else {
      assert (a + b)[1..] == a[1..] + b;
      Compose(Next(s, a[0]), a[1..], b);
    }
  }

  predicate Overtaken(s: State) {
    s.posted == [Event(0, 0), Event(1, 0)] && s.executed == [Event(1, 0), Event(0, 0)]
  }

  /** The new runner overtakes the old one: with a restart in between, tasks can run in another
      order than they were posted. */
  lemma RestartOvertakes()
    ensures exists steps :: Possible(INITIAL, steps) && Overtaken(After(INITIAL, steps))
  {
    var s := OvertakeFirst();
    var t := OvertakeSecond(s);
    Compose(INITIAL, OvertakeStart(), OvertakeEnd());
    var steps := OvertakeStart() + OvertakeEnd();
    assert Possible(INITIAL, steps) && After(INITIAL, steps) == t;
  }

  /* ---- what a waiting Run may do ---- */

  lemma {:induction false} ServeBatch(s: State, r: nat) returns (steps: seq<Step>)
    requires r < |s.runners| && s.runners[r].phase.Batch?
    ensures Possible(s, steps)
    ensures After(s, steps) == WithPhase(s.(executed := s.executed + s.runners[r].phase.tasks), r, Batch([]))
    decreases |s.runners[r].phase.tasks|
  {
    var tasks := s.runners[r].phase.tasks;
    if tasks == [] {
      steps := [];
      assert s.executed + [] == s.executed && s.runners[r := s.runners[r]] == s.runners;
    } else {
      var next := Next(s, Execute(r));
      var rest := ServeBatch(next, r);
      steps := [Execute(r)] + rest;
      assert steps[1..] == rest;
      assert s.executed + [tasks[0]] + tasks[1..] == s.executed + tasks;
      assert next.runners[r := Runner(s.runners[r].quit, Batch([]))]
          == s.runners[r := Runner(s.runners[r].quit, Batch([]))];
    }
  }

  lemma OneStep(s: State, step: Step)
    requires Enabled(s, step)
    ensures Possible(s, [step]) && After(s, [step]) == Next(s, step)
  {
    hide Enabled, Next;
    assert [step][1..] == [];
    assert Possible(Next(s, step), []);
  }

  lemma Taken(s: State, r: nat) returns (t: State)
    requires r < |s.runners| && s.runners[r].phase == AtSelect && s.wakeup
    ensures Possible(s, [Receive(r)] + [Swap(r)]) && t == After(s, [Receive(r)] + [Swap(r)])
    ensures t == WithPhase(s.(wakeup := false, queue := []), r, Batch(s.queue))
  {
    t := Next(Next(s, Receive(r)), Swap(r));
    OneStep(s, Receive(r));
    OneStep(Next(s, Receive(r)), Swap(r));
    hide Possible, After;
    Compose(s, [Receive(r)], [Swap(r)]);
    assert t.runners == s.runners[r := Runner(s.runners[r].quit, Batch(s.queue))];
  }

  /** Whether the loop is running or stopped, a Run that waits while there is a token may take the whole
      queue, execute it in order and wait again. */
  lemma MayServe(s: State, r: nat)
    requires r < |s.runners| && s.runners[r].phase == AtSelect && s.wakeup
    ensures exists steps ::
      Possible(s, steps) && After(s, steps) == s.(wakeup := false, queue := [], executed := s.executed + s.queue)
  {
    var taken := Taken(s, r);
    var batch := ServeBatch(taken, r);
    hide Possible, After;
    Compose(s, [Receive(r)] + [Swap(r)], batch);
    var served := After(taken, batch);
    OneStep(served, Resume(r));
    Compose(s, [Receive(r)] + [Swap(r)] + batch, [Resume(r)]);
    var last := Next(served, Resume(r));
    assert last.runners == s.runners;
    assert last == s.(wakeup := false, queue := [], executed := s.executed + s.queue);
  }

  /* ---- no wakeup is lost ---- */

  predicate Internal(step: Step) {
    !step.Call? && !step.Start? && !step.Stop?
  }

  // No goroutine can take another step on its own.
  ghost predicate Quiet(s: State) {
    forall step :: Internal(step) ==> !Enabled(s, step)
  }

  lemma QuietHands(s: State)
    requires Quiet(s)
    ensures Hands(s.runners) == []
  {
    forall i | 0 <= i < |s.runners| ensures Tasks(s.runners[i]) == [] {
      assert !Enabled(s, Execute(i));
    }
    HandsOfNone(s.runners);
  }

  /** When everything has come to rest, every Run whose channel is closed has returned: once the loop
      is stopped all of them have, and while it runs all but the current one. */
  lemma StoppedReturn(s: State)
    requires Inv(s) && Quiet(s)
    ensures forall r :: 0 <= r < |s.runners| && s.runners[r].quit in s.closed ==> !Live(s.runners[r])
    ensures forall r :: 0 <= r < |s.runners| && Live(s.runners[r]) ==> s.running && s.runners[r].quit == s.quit
  {
    hide Noticed, Conserved, InOrder;
    forall r | 0 <= r < |s.runners| && s.runners[r].quit in s.closed ensures !Live(s.runners[r]) {
      assert !Enabled(s, Quit(r)) && !Enabled(s, Swap(r)) && !Enabled(s, Execute(r)) && !Enabled(s, Resume(r));
    }
  }

  lemma OneLiveLeft(s: State, q: nat, r: nat)
    requires Inv(s) && Quiet(s) && q < |s.runners| && Live(s.runners[q]) && r < |s.runners| && Live(s.runners[r])
    ensures q == r && s.running
  {
    hide Noticed, Conserved, InOrder, Quiet;
    StoppedReturn(s);
  }

  lemma LastOfNone()
    ensures LastSwitch([]) == Stop
  {
  }

  /** Behind every schedule, once all is at rest: a Run that has not returned is the only one, and the
      loop has not been stopped since it was started. */
  lemma OneRunLeft(steps: seq<Step>, q: nat, r: nat)
    requires Possible(INITIAL, steps) && Quiet(After(INITIAL, steps))
    requires var s := After(INITIAL, steps);
      q < |s.runners| && Live(s.runners[q]) && r < |s.runners| && Live(s.runners[r])
    ensures q == r && After(INITIAL, steps).running && steps != [] && LastSwitch(steps) == Start
  {
    hide Possible, After, Inv, Quiet, LastSwitch;
    InvAlways(INITIAL, steps);
    OneLiveLeft(After(INITIAL, steps), q, r);
    SwitchRuns(INITIAL, steps);
    if steps == [] { LastOfNone(); }
  }

  // The last start or stop.
  function LastSwitch(steps: seq<Step>): Step
    decreases |steps|
  {
    if steps == [] then Stop
    else
      var last := steps[|steps| - 1];
      if last.Start? || last.Stop? then last else LastSwitch(steps[..|steps| - 1])
  }

  // The loop runs exactly if it was started last.
  lemma {:induction false} SwitchRuns(s: State, steps: seq<Step>)
    requires Possible(s, steps) && !s.running
    ensures After(s, steps).running <==> LastSwitch(steps) == Start
    decreases |steps|
  {
    if steps != [] {
      var n := |steps| - 1;
      Prefix(s, steps, n);
      SwitchRuns(s, steps[..n]);
    }
  }

  lemma {:induction false} Prefix(s: State, steps: seq<Step>, n: nat)
    requires Possible(s, steps) && n < |steps|
    ensures Possible(s, steps[..n]) && (n + 1 == |steps| ==> Enabled(After(s, steps[..n]), steps[n]))
    ensures n + 1 == |steps| ==> After(s, steps) == Next(After(s, steps[..n]), steps[n])
    decreases n
  {
    if n == 0 {
      if |steps| == 1 { assert steps[1..] == []; }
    } else {
      Prefix(Next(s, steps[0]), steps[1..], n - 1);
      assert steps[..n][1..] == steps[1..][..n - 1];
    }
  }

  lemma CallsComplete(s: State)
    requires InOrder(s)
    ensures forall p :: 0 <= p < |s.posters| && s.posters[p].next >= s.posters[p].total ==>
      s.posters[p].next == s.posters[p].total
  {
  }

  /** When everything has come to rest and the loop is running, every posted task has been executed
      and every call has posted all its tasks; when it is stopped, queued tasks keep a token, so that
      the next start will find them. */
  lemma NoLostWakeup(s: State)
    requires Inv(s) && Quiet(s)
    ensures forall p :: 0 <= p < |s.posters| ==> s.posters[p].next == s.posters[p].total
    ensures s.running ==> s.queue == [] && (forall e :: e in s.posted <==> e in s.executed)
    ensures s.queue != [] ==> s.wakeup
  {
    hide Conserved, Hands, InOrder;
    forall p | 0 <= p < |s.posters| ensures !s.posters[p].sending && s.posters[p].next >= s.posters[p].total {
      assert !Enabled(s, Send(p)) && !Enabled(s, Append(p));
    }
    forall r | 0 <= r < |s.runners| ensures !s.runners[r].phase.Received? {
      assert !Enabled(s, Swap(r));
    }
    CallsComplete(s);
    QuietHands(s);
    if s.running {
      var r :| 0 <= r < |s.runners| && s.runners[r].quit == s.quit && Live(s.runners[r]);
      assert !Enabled(s, Receive(r)) && !Enabled(s, Resume(r)) && !Enabled(s, Execute(r)) && !Enabled(s, Swap(r));
      AtMostOnce(s);
    }
  }

  // The work that is left, if nothing new is called.
  function PosterWork(posters: seq<Poster>): nat {
    if posters == [] then 0
    else OneWork(posters[0]) + PosterWork(posters[1..])
  }

  function OneWork(p: Poster): nat {
    6 * (if p.next < p.total then p.total - p.next else 0) + (if p.sending then 4 else 0)
  }

  function PhaseWork(phase: Phase): nat {
    match phase
    case AtSelect => 1
    case Received => 3
    case Batch(tasks) => 2 + |tasks|
    case Returned => 0
  }

  function RunnerWork(runners: seq<Runner>): nat {
    if runners == [] then 0 else PhaseWork(runners[0].phase) + RunnerWork(runners[1..])
  }

  function Work(s: State): nat {
    PosterWork(s.posters) + (if s.wakeup then 3 else 0) + |s.queue| + RunnerWork(s.runners)
  }

  lemma {:induction false} PosterUpdate(posters: seq<Poster>, p: nat, x: Poster)
    requires p < |posters|
    ensures PosterWork(posters[p := x]) + PosterWork([posters[p]]) == PosterWork(posters) + PosterWork([x])
    decreases |posters|
  {
    var updated := posters[p := x];
    assert [x][1..] == [] && [posters[p]][1..] == [];
    if p == 0 { assert updated[1..] == posters[1..]; }
    else {
      PosterUpdate(posters[1..], p - 1, x);
      assert updated[1..] == posters[1..][p - 1 := x];
    }
  }

  lemma {:induction false} RunnerUpdate(runners: seq<Runner>, r: nat, x: Runner)
    requires r < |runners|
    ensures RunnerWork(runners[r := x]) + PhaseWork(runners[r].phase) == RunnerWork(runners) + PhaseWork(x.phase)
    decreases |runners|
  {
    var updated := runners[r := x];
    if r == 0 { assert updated[1..] == runners[1..]; }
    else {
      RunnerUpdate(runners[1..], r - 1, x);
      assert updated[1..] == runners[1..][r - 1 := x];
    }
  }

  lemma WorkStep(s: State, step: Step)
    requires Enabled(s, step) && Internal(step)
    ensures Work(Next(s, step)) < Work(s)
  {
    var t := Next(s, step);
    match step
    case Append(p) => OnePoster(s.posters, p, t.posters[p]);
    case Send(p) => OnePoster(s.posters, p, t.posters[p]);
    case Quit(r) => RunnerUpdate(s.runners, r, t.runners[r]);
    case Receive(r) => RunnerUpdate(s.runners, r, t.runners[r]);
    case Swap(r) => RunnerUpdate(s.runners, r, t.runners[r]);
    case Execute(r) => RunnerUpdate(s.runners, r, t.runners[r]);
    case Resume(r) => RunnerUpdate(s.runners, r, t.runners[r]);
  }

  lemma OnePoster(posters: seq<Poster>, p: nat, x: Poster)
    requires p < |posters|
    ensures PosterWork(posters[p := x]) + PosterWork([posters[p]]) == PosterWork(posters) + PosterWork([x])
    ensures PosterWork([x]) == OneWork(x) && PosterWork([posters[p]]) == OneWork(posters[p])
  {
    PosterUpdate(posters, p, x);
    assert [x][1..] == [] && [posters[p]][1..] == [];
  }

  /** From every state, any schedule of the goroutines' own steps comes to rest: it has at most
      Work(s) steps. */
  lemma {:induction false} ComesToRest(s: State, steps: seq<Step>)
    requires Possible(s, steps) && forall i :: 0 <= i < |steps| ==> Internal(steps[i])
    ensures |steps| + Work(After(s, steps)) <= Work(s)
    decreases |steps|
  {
    hide Work;
    if steps != [] {
      WorkStep(s, steps[0]);
      forall i | 0 <= i < |steps[1..]| ensures Internal(steps[1..][i]) { assert steps[1..][i] == steps[i + 1]; }
      ComesToRest(Next(s, steps[0]), steps[1..]);
    }
  }
}
