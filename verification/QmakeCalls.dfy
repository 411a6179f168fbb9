/** What a called function finds in its frame, what its return value means, and what loops count. */
module QmakeCalls {
  import opened Basics
  import opened QmakeProgram
  import opened QmakeValues
  import opened QmakeSemantics
  import opened QmakeScoping

  /* ---- numbers ---- */

  // The number that a row of decimal digits denotes.
  function Decimal(s: Str): int {
    if s == [] then 0 else 10 * Decimal(s[..|s| - 1]) + s[|s| - 1] - 0x30
  }

  /** Numbers are written in decimal digits, without leading zeros, and with a minus sign if negative. */
  lemma {:induction false} NumberReadsBack(n: nat)
    ensures Decimal(Number(n)) == n
    ensures IsFunctParam(Number(n)) && (n > 0 ==> Number(n)[0] != 0x30) && (n == 0 ==> Number(n) == [0x30])
    ensures n > 0 ==> Number(-(n as int)) == [0x2d] + Number(n)
    decreases n
  {
    if n >= 10 {
      NumberReadsBack(n / 10);
      var s := Digits(n / 10);
      assert Digits(n) == s + [0x30 + n % 10] && Digits(n)[..|s|] == s;
    } else {
      assert Decimal([]) == 0;
      assert Digits(n)[..0] == [];
    }
  }

  lemma NumbersDiffer(m: nat, n: nat)
    ensures Number(m) == Number(n) ==> m == n
    ensures Number(m) != Text("ARGS") && Number(m) != Text("ARGC")
  {
    NumberReadsBack(m);
    NumberReadsBack(n);
  }

  /* ---- the frame of a call ---- */

  lemma {:induction false} FlattenChars(args: seq<StrList>)
    ensures Flatten(args) == Chars(args)
    decreases |args|
  {
    if args != [] {
      var n := |args| - 1;
      FlattenChars(args[..n]);
      CharsAppend(args[..n], [args[n]]);
      CharsOne(args[n]);
      assert args == args[..n] + [args[n]];
    }
  }

  lemma {:induction false} NumberedHolds(args: seq<StrList>, i: nat)
    ensures if 0 < i <= |args| then Number(i) in Numbered(args) && Numbered(args)[Number(i)] == Vals(args[i - 1])
            else Number(i) !in Numbered(args)
    decreases |args|
  {
    if args != [] {
      NumbersDiffer(i, |args|);
      NumberedHolds(args[..|args| - 1], i);
    }
  }

  lemma {:induction false} NumberedOnly(args: seq<StrList>, key: Key)
    requires forall i :: 1 <= i <= |args| ==> key != Number(i)
    ensures key !in Numbered(args)
    decreases |args|
  {
    if args != [] { NumberedOnly(args[..|args| - 1], key); }
  }

  /** A function finds its arguments under 1, 2, ..., all of them in one list under ARGS, and how many there
      are under ARGC. Under any other number it finds nothing, whatever its caller has there; under any
      other name it finds what its caller does. */
  lemma ArgumentsFound(stack: Stack, args: seq<StrList>, key: Key)
    ensures var inner := stack + [CallFrame(args)];
      && (forall i :: 0 <= i < |args| ==> Values(inner, Number(i + 1)) == args[i])
      && Values(inner, Text("ARGS")) == Chars(args) && Values(inner, Text("ARGC")) == [Number(|args|)]
      && (key != Text("ARGS") && key != Text("ARGC") && (forall i :: 1 <= i <= |args| ==> key != Number(i)) ==>
            Values(inner, key) == if IsFunctParam(key) then [] else Values(stack, key))
  {
    var inner := stack + [CallFrame(args)];
    forall i | 0 <= i < |args| ensures Values(inner, Number(i + 1)) == args[i] { ArgumentFound(stack, args, i); }
    ListsFound(stack, args);
    if key != Text("ARGS") && key != Text("ARGC") && forall i :: 1 <= i <= |args| ==> key != Number(i) {
      OthersFound(stack, args, key);
    }
  }

  lemma FoundOnTop(stack: Stack, frame: Frame, key: Key, list: StrList)
    requires key in frame && frame[key] == Vals(list)
    ensures Values(stack + [frame], key) == list
  {
  }

  lemma ArgumentFound(stack: Stack, args: seq<StrList>, i: nat)
    requires i < |args|
    ensures Values(stack + [CallFrame(args)], Number(i + 1)) == args[i]
  {
    NumberedHolds(args, i + 1);
    NumbersDiffer(i + 1, 0);
    hide Number, Numbered, Values, Text;
    FoundOnTop(stack, CallFrame(args), Number(i + 1), args[i]);
  }

  lemma ListsFound(stack: Stack, args: seq<StrList>)
    ensures Values(stack + [CallFrame(args)], Text("ARGS")) == Chars(args)
    ensures Values(stack + [CallFrame(args)], Text("ARGC")) == [Number(|args|)]
  {
    FlattenChars(args);
    assert Text("ARGS")[3] != Text("ARGC")[3];
    hide Number, Numbered, Values, Text;
    FoundOnTop(stack, CallFrame(args), Text("ARGS"), Chars(args));
    FoundOnTop(stack, CallFrame(args), Text("ARGC"), [Number(|args|)]);
  }

  lemma OthersFound(stack: Stack, args: seq<StrList>, key: Key)
    requires key != Text("ARGS") && key != Text("ARGC") && forall i :: 1 <= i <= |args| ==> key != Number(i)
    ensures Values(stack + [CallFrame(args)], key) == if IsFunctParam(key) then [] else Values(stack, key)
  {
    NumberedOnly(args, key);
    hide Number, Numbered, IsFunctParam, Text;
    var inner := stack + [CallFrame(args)];
    assert inner[|stack|] == CallFrame(args) && key !in CallFrame(args);
    if !IsFunctParam(key) {
      BelowFrame(stack, inner, key, |stack| - 1);
    }
  }

  lemma {:induction false} BelowFrame(stack: Stack, inner: Stack, key: Key, i: nat)
    requires stack <= inner && i < |stack|
    ensures FindFrom(inner, key, i) == FindFrom(stack, key, i)
  {
    if i > 0 { BelowFrame(stack, inner, key, i - 1); }
  }

  // Positional parameters are the names that hold nothing but digits.
  lemma ParameterNames(c: Ushort, key: Key)
    ensures IsFunctParam([])
    ensures IsFunctParam([c] + key) <==> 0x30 <= c <= 0x39 && IsFunctParam(key)
  {
    var name := [c] + key;
    assert name[0] == c;
    if IsFunctParam(name) {
      forall i | 0 <= i < |key| ensures 0x30 <= key[i] <= 0x39 { assert name[i + 1] == key[i]; }
    }
  }

  /** A call of a user function fails without running anything if there are a hundred frames, and runs the
      body in a frame for its arguments if there are fewer; a call of an unknown one fails. */
  lemma CallsNest(env: Env, name: Key, args: Args, st: State, fuel: nat)
    ensures var a := EvalCallArgs(env, args, st, fuel);
      name !in env.testBuiltins && name in st.testDefs && a.code == ReturnTrue ==>
        if |a.st.stack| >= 100 then EvalTest(env, name, args, st, fuel) == Outcome(ReturnError, a.st)
        else
          var r := EvalBody(env, a.st.testDefs[name], a.args, a.st, fuel);
          && EvalTest(env, name, args, st, fuel).st == r.st
          && EvalTest(env, name, args, st, fuel).code
             == if r.code == ReturnTrue then TestResult(env, r.words) else r.code
    ensures var a := EvalCallArgs(env, args, st, fuel);
      name !in env.expands && name in st.replaceDefs && a.code == ReturnTrue ==>
        EvalExpand(env, name, args, st, fuel)
        == if |a.st.stack| >= 100 then ExprOutcome(ReturnError, [], a.st)
           else EvalBody(env, a.st.replaceDefs[name], a.args, a.st, fuel)
    ensures name !in env.testBuiltins && name !in st.testDefs ==>
      EvalTest(env, name, args, st, fuel) == Outcome(ReturnFalse, SkipArgs(st, args))
    ensures name !in env.expands && name !in st.replaceDefs ==>
      EvalExpand(env, name, args, st, fuel) == ExprOutcome(ReturnFalse, [], SkipArgs(st, args))
  {
    hide EvalCallArgs, EvalBody, TestResult, SkipArgs, EvalVarRefs;
  }

  /* ---- tests that change variables ---- */

  // What the state is but for the variables, and what was exported.
  predicate OnlyVariables(st: State, st': State) {
    && st'.testDefs == st.testDefs && st'.replaceDefs == st.replaceDefs && st'.cur == st.cur
    && st'.retval == st.retval && st'.history.calls == st.history.calls
  }

  /** export, clear and unset take one name that is not empty, and otherwise fail. clear and unset fail too
      if a lookup finds no variable of that name, and change no other; behind clear the name is there and
      has no value, behind unset it is not there. export always succeeds. All other tests change nothing. */
  lemma VariableTests(env: Env, name: Key, args: StrList, st: State)
    requires name in env.testBuiltins && args != []
    ensures var test, r := env.testBuiltins[name], Builtin(env, name, args, st);
      var stack := r.st.stack;
      && OnlyVariables(st, r.st)
      && (test == OtherTest ==> r.st == st)
      && (test != OtherTest && (|args| != 1 || args[0] == []) ==> r == Outcome(ReturnFalse, st))
      && (test != OtherTest && |args| == 1 && args[0] != [] ==>
        var key := Alias(env, args[0]);
        var found := FindFrame(st.stack, key) != -1;
        && (test == ExportVar ==> r.code == ReturnTrue && stack == Export(st.stack, key))
        && (test != ExportVar && !found ==> r == Outcome(ReturnFalse, st))
        && (test != ExportVar && found ==>
          && r.code == ReturnTrue && Values(stack, key) == []
          && (FindFrame(stack, key) != -1 <==> test == ClearVar)
          && forall k :: k != key ==> Values(stack, k) == Values(st.stack, k)))
  {
    hide FindFrame, Values, Export, SetTop, Unset;
    if |args| == 1 && args[0] != [] {
      var key := Alias(env, args[0]);
      SetTopLookup(st.stack, key, []);
      UnsetLookup(st.stack, key);
      UnsetNotFound(st.stack, key);
    }
  }

  lemma UnsetNotFound(stack: Stack, key: Key)
    ensures FindFrame(Unset(stack, key), key) == -1
  {
  }

  /* ---- return values and conditions ---- */

  /** A test function succeeds if it returns nothing, true, or a number other than zero. */
  lemma TestSucceeds(env: Env, ret: StrList)
    ensures TestResult(env, ret) == ReturnTrue || TestResult(env, ret) == ReturnFalse
    ensures ret == [] || ret[0] == Text("true") ==> TestResult(env, ret) == ReturnTrue
    ensures ret != [] && ret[0] == Text("false") ==> TestResult(env, ret) == ReturnFalse
    ensures ret != [] && ret[0] != Text("true") && ret[0] != Text("false") ==>
      (TestResult(env, ret) == ReturnTrue <==> exists n :: n != 0 && env.toInt(ret[0]) == Some(n))
  {
    assert Text("true")[0] == 0x74 && Text("false")[0] == 0x66;
  }

  // The words that hold or fail whatever the configuration is.
  predicate Magic(config: Str) {
    config == Text("true") || config == Text("false") || config == Text("host_build")
  }

  predicate HasWildcard(config: Str) {
    exists i :: 0 <= i < |config| && (config[i] == '*' as int || config[i] == '?' as int)
  }

  /** A condition names or matches the spec or a member of CONFIG, unless it is one of three magic words. */
  lemma ConditionHolds(env: Env, config: Str, values: StrList)
    ensures IsActiveConfig(env, Text("true"), values) && !IsActiveConfig(env, Text("false"), values)
    ensures IsActiveConfig(env, Text("host_build"), values) == env.hostBuild
    ensures !Magic(config) ==>
      (IsActiveConfig(env, config, values) <==>
       exists name :: name in [env.specName] + values
         && if HasWildcard(config) then env.wildcard(config, name) else name == config)
  {
    assert Text("true")[0] == 0x74 && Text("false")[0] == 0x66 && Text("host_build")[0] == 0x68;
    if !Magic(config) {
      assert HasWildcard(config) <==> '*' as int in config || '?' as int in config;
      assert env.specName in [env.specName] + values;
      forall i | 0 <= i < |values| ensures values[i] in [env.specName] + values {}
    }
  }

  /* ---- ranges ---- */

  // Two dots stand at this position.
  predicate DotsAt(s: Str, i: nat) {
    i + 1 < |s| && s[i] == '.' as int && s[i + 1] == '.' as int
  }

  lemma {:induction false} FirstDots(s: Str, from: nat)
    requires from <= |s|
    ensures var i := IndexOfDots(s, from);
      if i == -1 then forall j: nat :: from <= j ==> !DotsAt(s, j)
      else DotsAt(s, i) && forall j: nat :: from <= j < i ==> !DotsAt(s, j)
    decreases |s| - from
  {
    if from + 2 <= |s| && !DotsAt(s, from) { FirstDots(s, from + 1); }
  }

  lemma {:induction false} UpLists(a: int, b: int)
    requires a <= b + 1
    ensures |Up(a, b)| == b - a + 1 && forall i :: 0 <= i < |Up(a, b)| ==> Up(a, b)[i] == Number(a + i)
    decreases b - a
  {
    if a <= b { UpLists(a + 1, b); }
  }

  lemma {:induction false} DownLists(a: int, b: int)
    requires b <= a + 1
    ensures |Down(a, b)| == a - b + 1 && forall i :: 0 <= i < |Down(a, b)| ==> Down(a, b)[i] == Number(a - i)
    decreases a - b
  {
    if b <= a { DownLists(a - 1, b); }
  }

  /** What is split by its first two dots into two numbers stands for all numbers from the one to the other,
      both included, in either direction. Nothing else is a range. */
  lemma RangeLists(env: Env, s: Str)
    ensures (forall i: nat :: !DotsAt(s, i)) ==> Range(env, s) == []
    ensures forall i: nat :: DotsAt(s, i) && (forall j: nat :: j < i ==> !DotsAt(s, j)) ==>
      IsRange(Range(env, s), env.toInt(s[..i]), env.toInt(s[i + 2..]))
  {
    hide Number;
    FirstDots(s, 0);
    var i := IndexOfDots(s, 0);
    if i != -1 {
      var a, b := env.toInt(s[..i]), env.toInt(s[i + 2..]);
      if a.Some? && b.Some? {
        if a.value < b.value { UpLists(a.value, b.value); } else { DownLists(a.value, b.value); }
      }
    }
  }

  ghost predicate IsRange(list: StrList, a: Option<int>, b: Option<int>) {
    if a.None? || b.None? then list == []
    else
      var up := a.value <= b.value;
      && |list| == (if up then b.value - a.value else a.value - b.value) + 1
      && forall i :: 0 <= i < |list| ==> list[i] == Number(if up then a.value + i else a.value - i)
  }
}
