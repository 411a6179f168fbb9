/** What loops do: their body once for each value of a plain list. */
module QmakeLoops {
  import opened Basics
  import opened QmakeProgram
  import opened QmakeValues
  import opened QmakeSemantics
  import opened QmakeScoping
  import opened QmakeUpdates
  import opened QmakeCalls

  // The outcome of the turns, and whether none of them left the loop.
  datatype Turned = Turned(outcome: Outcome, whole: bool)

  /** One turn for each value: next ends the turn, break the loop, and any other code that is no truth
      value ends the loop with that code. */
  function Each(env: Env, loop: Item, variable: Option<Key>, values: StrList, last: Code, st: State, fuel: nat): Turned
    requires loop.ForLoop?
    decreases |values|
  {
    if values == [] then Turned(Outcome(last, st), true)
    else
      var r := EvalItems(env, loop.body, START, TurnState(st, variable, values[0]), fuel);
      if r.code == ReturnTrue || r.code == ReturnFalse then Each(env, loop, variable, values[1..], r.code, r.st, fuel)
      else if r.code == ReturnNext then Each(env, loop, variable, values[1..], ReturnTrue, r.st, fuel)
      else if r.code == ReturnBreak then Turned(Outcome(ReturnTrue, r.st), false)
      else Turned(r, false)
  }

  function TurnState(st: State, variable: Option<Key>, value: Str): State {
    match variable
    case None => st
    case Some(key) => SetLoopVar(st, key, value)
  }

  lemma {:induction false} ListTurns(env: Env, loop: Item, variable: Key, list: StrList, index: nat, last: Code,
                                     st: State, fuel: nat)
    requires loop.ForLoop? && index <= |list|
    ensures Iterate(env, loop, variable, false, list, index, last, st, fuel)
         == Each(env, loop, Some(variable), Filter(list[index..], NotEmpty), last, st, fuel).outcome
    decreases |list| - index
  {
    hide EvalItems, SetLoopVar;
    if index == |list| {
      assert list[index..] == [];
    } else {
      FilterStep(list[index..], NotEmpty);
      assert list[index..][1..] == list[index + 1..];
      if list[index] == [] {
        assert Filter(list[index..], NotEmpty) == Filter(list[index + 1..], NotEmpty);
        ListTurns(env, loop, variable, list, index + 1, last, st, fuel);
      } else {
        var values := Filter(list[index..], NotEmpty);
        assert values[0] == list[index] && values[1..] == Filter(list[index + 1..], NotEmpty);
        hide Filter;
        IterateTurn(env, loop, variable, false, list, index, last, st, fuel);
        var r := EvalItems(env, loop.body, START, SetLoopVar(st, variable, list[index]), fuel);
        if AfterBody(r.code).Again? {
          ListTurns(env, loop, variable, list, index + 1, AfterBody(r.code).code, r.st, fuel);
        }
      }
    }
  }

  // The numbers a forever loop counts through, from one of them on.
  function Numbers(from: nat): StrList
    requires from <= 1000
  {
    seq(1000 - from, i requires 0 <= i < 1000 - from => Number(from + i))
  }

  lemma {:induction false} ForeverTurns(env: Env, loop: Item, variable: Key, list: StrList, index: nat, last: Code,
                                        st: State, fuel: nat)
    requires loop.ForLoop? && index <= 1000
    ensures var r := Each(env, loop, if variable == [] then None else Some(variable), Numbers(index), last, st, fuel);
      Iterate(env, loop, variable, true, list, index, last, st, fuel)
      == if r.whole && variable != []
         then Outcome(r.outcome.code, SetLoopVar(r.outcome.st, variable, Number(1000))) else r.outcome
    decreases 1000 - index
  {
    hide EvalItems, SetLoopVar, Number;
    if index == 1000 {
      IterateEnd(env, loop, variable, true, list, last, st, fuel);
    } else {
      assert Numbers(index)[1..] == Numbers(index + 1) && Numbers(index)[0] == Number(index);
      hide Numbers;
      IterateTurn(env, loop, variable, true, list, index, last, st, fuel);
      var st' := if variable == [] then st else SetLoopVar(st, variable, Number(index));
      var r := EvalItems(env, loop.body, START, st', fuel);
      if AfterBody(r.code).Again? {
        ForeverTurns(env, loop, variable, list, index + 1, AfterBody(r.code).code, r.st, fuel);
      }
    }
  }

  lemma RangeNotEmpty(env: Env, s: Str)
    ensures Filter(Range(env, s), NotEmpty) == Range(env, s)
  {
    FirstDots(s, 0);
    RangeLists(env, s);
    hide Range;
    var list, i := Range(env, s), IndexOfDots(s, 0);
    if i != -1 {
      var a, b := env.toInt(s[..i]), env.toInt(s[i + 2..]);
      assert IsRange(list, a, b);
      forall j | 0 <= j < |list| ensures NotEmpty(list[j]) {
        assert list[j] == Number(if a.value <= b.value then a.value + j else a.value - j);
      }
    }
    FilterAll(list, NotEmpty);
  }

  /** What a loop goes over: the elements of the named variable that are not empty, in order; if it has none,
      the numbers of the range that the name gives, or, for forever, the numbers below a thousand, behind
      the last of which the variable is a thousand. */
  function GoneOver(env: Env, loop: Item, variable: Key, name: Str, st: State, fuel: nat): Outcome
    requires loop.ForLoop?
  {
    var named := Values(st.stack, name);
    if named != [] then Each(env, loop, Some(variable), Filter(named, NotEmpty), ReturnTrue, st, fuel).outcome
    else if name != Text("forever") then
      Each(env, loop, Some(variable), Range(env, name), ReturnTrue, st, fuel).outcome
    else
      var r := Each(env, loop, if variable == [] then None else Some(variable), Numbers(0), ReturnTrue, st, fuel);
      if r.whole && variable != [] then Outcome(r.outcome.code, SetLoopVar(r.outcome.st, variable, Number(1000)))
      else r.outcome
  }

  // Behind the loop its variable has the value from before, in the top frame.
  function Restored(r: Outcome, variable: Key, list: StrList): Outcome {
    if variable == [] then r else Outcome(r.code, r.st.(stack := SetTop(r.st.stack, variable, list)))
  }

  /** A loop over a name, and one without a variable, which has to be over ever. */
  lemma LoopRuns(env: Env, loop: Item, st: State, fuel: nat)
    requires loop.ForLoop?
    ensures var e := EvalVarRefs(env, loop.list, [], true, st, fuel);
      var anonymous := loop.variable.text == [];
      var variable := if anonymous then [] else Alias(env, loop.variable.text);
      var r := EvalLoop(env, loop, st, fuel);
      && (e.code != ReturnTrue ==> r == Outcome(e.code, e.st))
      && (e.code == ReturnTrue && anonymous && e.words[0] != Text("ever") ==> r == Outcome(ReturnFalse, e.st))
      && (e.code == ReturnTrue && (anonymous ==> e.words[0] == Text("ever")) ==>
        && (var name := if anonymous then Text("forever") else e.words[0];
            r == Restored(GoneOver(env, loop, variable, name, e.st, fuel), variable, Values(e.st.stack, variable)))
        && (variable != [] ==> Values(r.st.stack, variable) == Values(e.st.stack, variable)))
  {
    hide EvalVarRefs, Iterate, Each, Range, Filter, Numbers, Values, SetTop;
    var e := EvalVarRefs(env, loop.list, [], true, st, fuel);
    var anonymous := loop.variable.text == [];
    if e.code == ReturnTrue && (anonymous ==> e.words[0] == Text("ever")) {
      var variable := if anonymous then [] else Alias(env, loop.variable.text);
      var name := if anonymous then Text("forever") else e.words[0];
      CourseRuns(env, loop, variable, name, e.st, fuel);
      SetTopLookup(GoneOver(env, loop, variable, name, e.st, fuel).st.stack, variable, Values(e.st.stack, variable));
    }
  }

  // The turns of a loop over that name.
  lemma CourseRuns(env: Env, loop: Item, variable: Key, name: Str, st: State, fuel: nat)
    requires loop.ForLoop?
    ensures var named := Values(st.stack, name);
      var infinite := named == [] && name == Text("forever");
      var list := if named == [] && !infinite then Range(env, name) else named;
      Iterate(env, loop, variable, infinite, list, 0, ReturnTrue, st, fuel)
      == GoneOver(env, loop, variable, name, st, fuel)
  {
    hide Iterate, Each, Range, Filter, Numbers, Values, SetLoopVar;
    var named := Values(st.stack, name);
    if named == [] && name == Text("forever") {
      ForeverTurns(env, loop, variable, named, 0, ReturnTrue, st, fuel);
    } else {
      var list := if named == [] then Range(env, name) else named;
      ListTurns(env, loop, variable, list, 0, ReturnTrue, st, fuel);
      RangeNotEmpty(env, name);
      assert list[0..] == list;
    }
  }
}
