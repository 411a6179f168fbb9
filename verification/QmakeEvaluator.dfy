/** The evaluator as the program runs it: a position in the token stream that moves forward, and
    fields that change. Each method is proved against the structural semantics; the ghost
    arguments name the syntax that the tokens encode, and a fuel that suffices for it. */
module QmakeEvaluator {
  import opened QmakeProgram
  import opened QmakeValues
  import opened QmakeSemantics
  import opened QmakeStream

  // Where the body of a user function starts.
  datatype FuncPos = FuncPos(pro: nat, offset: nat)

  // The first atom of an argument list, and the list behind it.
  lemma FirstAtom(toks: Str, p: nat, args: Args, terminator: Ushort, line: Ushort)
    requires args.arg.ECons? && FitsArgs(args) && At(toks, p, EncodeArgs(args, terminator))
    ensures var a := args.arg.atom;
      var next := WithArg(args, args.arg.rest);
      && p < |toks| && toks[p] == AtomToken(a) && At(toks, p + 1, AtomPayload(a)) && FitsAtom(a)
      && At(toks, p + 1 + |AtomPayload(a)|, EncodeArgs(next, terminator)) && FitsArgs(next)
      && |EncodeArgs(args, terminator)| == 1 + |AtomPayload(a)| + |EncodeArgs(next, terminator)|
      && LineAfterArgs(args, line) == LineAfterArgs(next, LineAfterAtom(a, line))
  {
    ArgsAtom(args, terminator);
    AtomAt(toks, p, args.arg.atom, EncodeArgs(WithArg(args, args.arg.rest), terminator));
  }

  // An argument list whose first argument is used up.
  lemma NoAtom(toks: Str, p: nat, args: Args, terminator: Ushort, line: Ushort)
    requires args.arg.ENil? && FitsArgs(args) && At(toks, p, EncodeArgs(args, terminator))
    ensures p < |toks| && toks[p] == if args.Last? then terminator else TOK_ARG_SEPARATOR
    ensures args.Last? ==> |EncodeArgs(args, terminator)| == 1 && LineAfterArgs(args, line) == line
    ensures args.More? ==>
      && At(toks, p + 1, EncodeArgs(args.more, terminator)) && FitsArgs(args.more)
      && |EncodeArgs(args, terminator)| == 1 + |EncodeArgs(args.more, terminator)|
      && LineAfterArgs(args, line) == LineAfterArgs(args.more, line)
  {
    ArgsAt(toks, p, args, terminator);
    if args.More? { TailAt(toks, p, args, terminator); }
  }

  lemma CallPayload(toks: Str, p: nat, a: Atom)
    requires a.FuncCall? && FitsAtom(a) && At(toks, p, AtomPayload(a))
    ensures At(toks, p, EncodeName(a.name)) && FitsStr(a.name.text) && FitsArgs(a.args)
    ensures At(toks, p + |EncodeName(a.name)|, EncodeArgs(a.args, TOK_FUNC_TERMINATOR))
    ensures |AtomPayload(a)| == |EncodeName(a.name)| + |EncodeArgs(a.args, TOK_FUNC_TERMINATOR)|
  {
    Split(toks, p, EncodeName(a.name), EncodeArgs(a.args, TOK_FUNC_TERMINATOR));
  }

  // With no arguments the terminator comes first, and only then.
  lemma NoArgs(toks: Str, p: nat, args: Args)
    requires FitsArgs(args) && At(toks, p, EncodeArgs(args, TOK_FUNC_TERMINATOR))
    ensures p < |toks| && (toks[p] == TOK_FUNC_TERMINATOR <==> args == Last(ENil))
    ensures args == Last(ENil) ==> |EncodeArgs(args, TOK_FUNC_TERMINATOR)| == 1
  {
    if args.arg.ENil? { NoAtom(toks, p, args, TOK_FUNC_TERMINATOR, 0); }
    else { FirstAtom(toks, p, args, TOK_FUNC_TERMINATOR, 0); }
  }

  ghost predicate Holds(pros: seq<Str>, pos: FuncPos, def: Def) {
    pos.pro == def.pro < |pros| && FitsItems(def.body) && At(pros[pos.pro], pos.offset, EncodeItems(def.body))
  }

  // The recorded positions are those of the recorded bodies.
  ghost predicate Tabled(pros: seq<Str>, table: map<Key, FuncPos>, bodies: map<Key, Def>) {
    table.Keys == bodies.Keys && forall k :: k in table ==> Holds(pros, table[k], bodies[k])
  }

  lemma ItemsNotEmpty(b: Block)
    ensures EncodeBlock(b) == [] <==> b.Absent?
  {
    if b.Present? && b.items.Then? { EveryItemHasCode(b.items); }
  }

  lemma EveryItemHasCode(items: Items)
    ensures EncodeItems(items) != []
  {
    if items.Then? { EveryItemHasCode(items.rest); }
  }

  lemma PassEmpty(env: Env, loop: Item, variable: Key, list: StrList, i: nat, j: nat, last: Code, st: State, fuel: nat)
    requires loop.ForLoop? && i <= j <= |list| && forall k :: i <= k < j ==> list[k] == []
    ensures Iterate(env, loop, variable, false, list, i, last, st, fuel)
         == Iterate(env, loop, variable, false, list, j, last, st, fuel)
    decreases j - i
  {
    hide EvalItems;
    if i < j { PassEmpty(env, loop, variable, list, i + 1, j, last, st, fuel); }
  }

  function OpOf(tok: Ushort): AssignOp
    requires TOK_ASSIGN <= tok <= TOK_REPLACE
  {
    if tok == TOK_ASSIGN then OpAssign
    else if tok == TOK_APPEND then OpAppend
    else if tok == TOK_APPEND_UNIQUE then OpAppendUnique
    else if tok == TOK_REMOVE then OpRemove
    else OpReplace
  }

  method CountUp(start: int, end: int) returns (list: StrList)
    ensures list == Up(start, end)
  {
    hide Number;
    list := [];
    var i := start;
    while i <= end
      invariant start <= i && (i <= end + 1 || i == start)
      invariant list + Up(i, end) == Up(start, end)
    {
      ghost var was := list;
      list := list + [Number(i)];
      i := i + 1;
      assert was + ([Number(i - 1)] + Up(i, end)) == list + Up(i, end);
    }
  }

  method CountDown(start: int, end: int) returns (list: StrList)
    ensures list == Down(start, end)
  {
    hide Number;
    list := [];
    var i := start;
    while i >= end
      invariant start >= i && (i >= end - 1 || i == start)
      invariant list + Down(i, end) == Down(start, end)
    {
      ghost var was := list;
      list := list + [Number(i)];
      i := i - 1;
      assert was + ([Number(i + 1)] + Down(i, end)) == list + Down(i, end);
    }
  }

  predicate Consumes(i: Item) {
    i.Assign? || i.Condition? || i.TestCall? || i.Return? || i.Break? || i.Next?
  }

  predicate Nests(i: Item) {
    i.Branch? || i.ForLoop? || i.Bypass? || i.TestDef? || i.ReplaceDef?
  }

  lemma ArgFits(args: Args)
    requires FitsArgs(args)
    ensures FitsExpr(args.arg) && (args.More? ==> FitsArgs(args.more))
  {
  }

  // One argument, and the rest.
  lemma VarRefsStep(env: Env, args: Args, words: StrList, joined: bool, st: State, fuel: nat)
    ensures var r := EvalExpr(env, args.arg, Start(words, joined), joined, st, fuel);
      EvalVarRefs(env, args, words, joined, st, fuel)
      == if args.Last? || Stops(r.code) then r else EvalVarRefs(env, args.more, r.words, joined, r.st, fuel)
  {
    hide EvalExpr;
  }

  lemma ListArgsStep(env: Env, args: Args, done: seq<StrList>, st: State, fuel: nat)
    ensures var r := EvalExpr(env, args.arg, Start([], false), false, st, fuel);
      EvalListArgs(env, args, done, st, fuel)
      == if Stops(r.code) then ArgsOutcome(r.code, done, r.st)
         else if args.Last? then ArgsOutcome(ReturnTrue, done + [r.words], r.st)
         else EvalListArgs(env, args.more, done + [r.words], r.st, fuel)
  {
    hide EvalExpr;
  }

  class Evaluator {
    const env: Env
    const pros: seq<Str>

    var valuemapStack: seq<Frame>
    var testFunctions: map<Key, FuncPos>
    var replaceFunctions: map<Key, FuncPos>
    var current: Location
    var locationStack: seq<Location>
    var returnValue: StrList

    // The syntax behind the function positions.
    ghost var testBodies: map<Key, Def>
    ghost var replaceBodies: map<Key, Def>

    ghost var history: History

    ghost predicate Valid()
      reads this
    {
      |valuemapStack| > 0 && current.pro < |pros|
      && Tabled(pros, testFunctions, testBodies) && Tabled(pros, replaceFunctions, replaceBodies)
    }

    ghost function St(): State
      reads this
      requires Valid()
    {
      State(valuemapStack, testBodies, replaceBodies, current, returnValue, history)
    }

    function Toks(): Str
      reads this
      requires current.pro < |pros|
    {
      pros[current.pro]
    }

    constructor (env: Env, pros: seq<Str>)
      requires |pros| > 0
      ensures Valid() && this.env == env && this.pros == pros && locationStack == []
      ensures St() == State([map[]], map[], map[], Location(0, 0), [], History(0, []))
    {
      this.env, this.pros := env, pros;
      valuemapStack := [map[]];
      testFunctions, replaceFunctions := map[], map[];
      current, locationStack, returnValue := Location(0, 0), [], [];
      testBodies, replaceBodies, history := map[], map[], History(0, []);
    }

    /* ---- variables ---- */

    method LookUp(key: Key) returns (list: StrList)
      requires Valid()
      ensures list == Values(valuemapStack, key)
    {
      var i := |valuemapStack|;
      var first := true;
      while true
        invariant 1 <= i <= |valuemapStack| && first == (i == |valuemapStack|)
        invariant !first ==> key !in valuemapStack[|valuemapStack| - 1] && !IsFunctParam(key)
        invariant !first ==> FindFrom(valuemapStack, key, |valuemapStack| - 1) == FindFrom(valuemapStack, key, i - 1)
        decreases i
      {
        i := i - 1;
        if key in valuemapStack[i] {
          return if valuemapStack[i][key].Fake? then [] else valuemapStack[i][key].list;
        }
        if i == 0 { return []; }
        if first && IsFunctParam(key) { return []; }
        first := false;
      }
    }

    // valuesRef(): makes the visible value the top frame's own entry, and gives its list.
    method ValuesRef(key: Key) returns (list: StrList)
      requires Valid()
      modifies this`valuemapStack
      ensures list == Values(old(valuemapStack), key)
      ensures valuemapStack == SetTop(old(valuemapStack), key, list)
    {
      var n := |valuemapStack|;
      var top := valuemapStack[n - 1];
      if key in top {
        list := if top[key].Fake? then [] else top[key].list;
        valuemapStack := SetTop(valuemapStack, key, list);
        return;
      }
      if !IsFunctParam(key) {
        var i := n - 1;
        while i > 0
          invariant 0 <= i <= n - 1 && valuemapStack == old(valuemapStack)
          invariant FindFrom(valuemapStack, key, n - 1) == FindFrom(valuemapStack, key, i)
          invariant key !in valuemapStack[i]
        {
          i := i - 1;
          if key in valuemapStack[i] {
            list := if valuemapStack[i][key].Fake? then [] else valuemapStack[i][key].list;
            valuemapStack := SetTop(valuemapStack, key, list);
            return;
          }
        }
      }
      list := [];
      valuemapStack := SetTop(valuemapStack, key, list);
    }

    method ExportVariable(key: Key)
      requires Valid()
      modifies this`valuemapStack
      ensures valuemapStack == Export(old(valuemapStack), key)
    {
      var n := |valuemapStack|;
      ghost var was := valuemapStack;
      var i := n - 1;
      while i != 0
        invariant 0 <= i < n && valuemapStack == was
        invariant ExportSource(was, key, n - 1) == ExportSource(was, key, i)
      {
        if key in valuemapStack[i] {
          var value := if valuemapStack[i][key].Fake? then Vals([]) else valuemapStack[i][key];
          ghost var src := i;
          valuemapStack := valuemapStack[0 := valuemapStack[0][key := value]];
          valuemapStack := valuemapStack[i := valuemapStack[i] - {key}];
          i := i - 1;
          while i != 0
            invariant 0 <= i < src && |valuemapStack| == n
            invariant valuemapStack[0] == was[0][key := value]
            invariant forall j :: 0 < j <= i ==> valuemapStack[j] == was[j]
            invariant forall j :: i < j <= src ==> valuemapStack[j] == was[j] - {key}
            invariant forall j :: src < j < n ==> valuemapStack[j] == was[j]
          {
            valuemapStack := valuemapStack[i := valuemapStack[i] - {key}];
            i := i - 1;
          }
          forall j | src < j < n ensures was[j] - {key} == was[j] {
          }
          assert valuemapStack == Export(was, key);
          return;
        }
        i := i - 1;
      }
    }

    method FindValues(key: Key) returns (i: int)
      requires Valid()
      ensures i == FindFrame(valuemapStack, key)
    {
      i := |valuemapStack|;
      var first := true;
      while true
        invariant 1 <= i <= |valuemapStack| && first == (i == |valuemapStack|)
        invariant !first ==> key !in valuemapStack[|valuemapStack| - 1] && !IsFunctParam(key)
        invariant !first ==> FindFrom(valuemapStack, key, |valuemapStack| - 1) == FindFrom(valuemapStack, key, i - 1)
        decreases i
      {
        i := i - 1;
        if key in valuemapStack[i] {
          if valuemapStack[i][key].Fake? { return -1; }
          return;
        }
        if i == 0 { return -1; }
        if first && IsFunctParam(key) { return -1; }
        first := false;
      }
    }

    method EvaluateBuiltinConditional(name: Key, args: StrList) returns (ret: Code)
      requires Valid() && name in env.testBuiltins && args != []
      modifies this`valuemapStack, this`history
      ensures Valid() && var r := Builtin(env, name, args, old(St())); ret == r.code && St() == r.st
    {
      match env.testBuiltins[name]
      case OtherTest =>
        ret := env.otherTest(name, args, View(valuemapStack, testFunctions.Keys, replaceFunctions.Keys, current));
      case ExportVar =>
        if !NeedsOneArg(args) { return ReturnFalse; }
        ExportVariable(Alias(env, args[0]));
        history := history.(exported := history.exported + [Alias(env, args[0])]);
        ret := ReturnTrue;
      case ClearVar =>
        if !NeedsOneArg(args) { return ReturnFalse; }
        var i := FindValues(Alias(env, args[0]));
        if i == -1 { return ReturnFalse; }
        valuemapStack := SetTop(valuemapStack, Alias(env, args[0]), []);
        ret := ReturnTrue;
      case UnsetVar =>
        if !NeedsOneArg(args) { return ReturnFalse; }
        var var_ := Alias(env, args[0]);
        var i := FindValues(var_);
        if i == -1 { return ReturnFalse; }
        if |valuemapStack| == 1 {
          valuemapStack := valuemapStack[i := valuemapStack[i] - {var_}];
        } else {
          valuemapStack := SetAt(valuemapStack, |valuemapStack| - 1, valuemapStack[|valuemapStack| - 1][var_ := Fake]);
        }
        ret := ReturnTrue;
    }

    method IsActive(config: Str) returns (active: bool)
      requires Valid()
      ensures active == IsActiveConfig(env, config, Values(valuemapStack, Text("CONFIG")))
    {
      if config == Text("true") { return true; }
      if config == Text("false") { return false; }
      if config == Text("host_build") { return env.hostBuild; }
      var values := LookUp(Text("CONFIG"));
      if '*' as int in config || '?' as int in config {
        if env.wildcard(config, env.specName) { return true; }
        for i := 0 to |values|
          invariant forall j :: 0 <= j < i ==> !env.wildcard(config, values[j])
        {
          if env.wildcard(config, values[i]) { return true; }
        }
      } else {
        if env.specName == config || config in values { return true; }
      }
      return false;
    }

    /* ---- the token stream ---- */

    // Behind its length starts the code that has this length.
    method GetBlockLen(tokPtr: nat, ghost code: Str) returns (len: nat, p: nat)
      requires current.pro < |pros| && FitsLen(|code|) && At(Toks(), tokPtr, EncodeLen(|code|) + code)
      ensures len == |code| && p == tokPtr + |EncodeLen(len)| && At(Toks(), p, code)
    {
      LenAt(Toks(), tokPtr, |code|, code);
      len := Toks()[tokPtr] as int + Toks()[tokPtr + 1] as int * 0x10000;
      p := tokPtr + 2;
    }

    method GetStr(tokPtr: nat, ghost s: Str) returns (r: Str, p: nat)
      requires current.pro < |pros| && FitsStr(s) && At(Toks(), tokPtr, EncodeStr(s))
      ensures r == s && p == tokPtr + |EncodeStr(s)|
    {
      StrAt(Toks(), tokPtr, s);
      var len := Toks()[tokPtr];
      r := Toks()[tokPtr + 1..tokPtr + 1 + len];
      p := tokPtr + 1 + len;
    }

    method GetHashStr(tokPtr: nat, ghost n: Name) returns (r: Key, p: nat)
      requires current.pro < |pros| && FitsStr(n.text) && At(Toks(), tokPtr, EncodeName(n))
      ensures r == n.text && p == tokPtr + |EncodeName(n)|
    {
      NameAt(Toks(), tokPtr, n);
      r, p := GetStr(tokPtr + 2, n.text);
    }

    method SkipStr(tokPtr: nat, ghost s: Str) returns (p: nat)
      requires current.pro < |pros| && FitsStr(s) && At(Toks(), tokPtr, EncodeStr(s))
      ensures p == tokPtr + |EncodeStr(s)|
    {
      StrAt(Toks(), tokPtr, s);
      var len := Toks()[tokPtr];
      p := tokPtr + 1 + len;
    }

    method SkipHashStr(tokPtr: nat, ghost n: Name) returns (p: nat)
      requires current.pro < |pros| && FitsStr(n.text) && At(Toks(), tokPtr, EncodeName(n))
      ensures p == tokPtr + |EncodeName(n)|
    {
      NameAt(Toks(), tokPtr, n);
      p := SkipStr(tokPtr + 2, n.text);
    }

    // The inner switch of skipExpression(): one token other than a line marker or a delimiter.
    method SkipPayload(tok: Ushort, tokPtr: nat, ghost atom: Atom) returns (p: nat)
      requires current.pro < |pros| && FitsAtom(atom) && !atom.SetLine? && tok == AtomToken(atom)
      requires At(Toks(), tokPtr, AtomPayload(atom))
      modifies this`current
      ensures p == tokPtr + |AtomPayload(atom)|
      ensures current == old(current).(line := LineAfterAtom(atom, old(current.line)))
      decreases |AtomPayload(atom)|, 0
    {
      TokenParts(atom);
      var masked := tok % 0x100;
      if masked == TOK_LITERAL || masked == TOK_ENV_VAR {
        p := SkipStr(tokPtr, atom.text);
      } else if masked == TOK_HASH_LITERAL || masked == TOK_VARIABLE || masked == TOK_PROPERTY {
        p := SkipHashStr(tokPtr, atom.name);
      } else {
        CallPayload(Toks(), tokPtr, atom);
        p := SkipHashStr(tokPtr, atom.name);
        p := SkipExpression(p, atom.args, TOK_FUNC_TERMINATOR);
      }
    }

    // Ends behind the terminator, on the line where evaluation would end.
    method SkipExpression(tokPtr: nat, ghost args: Args, ghost terminator: Ushort) returns (p: nat)
      requires current.pro < |pros| && FitsArgs(args)
      requires terminator == TOK_VALUE_TERMINATOR || terminator == TOK_FUNC_TERMINATOR
      requires At(Toks(), tokPtr, EncodeArgs(args, terminator))
      modifies this`current
      ensures p == tokPtr + |EncodeArgs(args, terminator)|
      ensures current == old(current).(line := LineAfterArgs(args, old(current.line)))
      decreases |EncodeArgs(args, terminator)|, 1
    {
      var toks := Toks();
      p := tokPtr;
      ghost var rest := args;
      while true
        invariant current == old(current).(line := current.line)
        invariant FitsArgs(rest) && At(toks, p, EncodeArgs(rest, terminator)) && tokPtr <= p
        invariant p + |EncodeArgs(rest, terminator)| == tokPtr + |EncodeArgs(args, terminator)|
        invariant LineAfterArgs(rest, current.line) == LineAfterArgs(args, old(current.line))
        decreases |toks| - p
      {
        ghost var e := rest.arg;
        ghost var next := if e.ECons? then WithArg(rest, e.rest) else if rest.More? then rest.more else rest;
        ghost var goal := p + 1 + if e.ECons? then |AtomPayload(e.atom)| else 0;
        if e.ECons? { FirstAtom(toks, p, rest, terminator, current.line); }
        else { NoAtom(toks, p, rest, terminator, current.line); }
        var tok := toks[p];
        p := p + 1;
        if tok == TOK_LINE {
          assert e.ECons? && e.atom.SetLine?;
          Head(toks, p, [e.atom.line], 0);
          current := current.(line := toks[p]);
          p := p + 1;
        } else if tok == TOK_VALUE_TERMINATOR || tok == TOK_FUNC_TERMINATOR {
          return;
        } else if tok == TOK_ARG_SEPARATOR {
          assert e.ENil?;
        } else {
          assert e.ECons? && !e.atom.SetLine?;
          p := SkipPayload(tok, p, e.atom);
        }
        assert p == goal;
        rest := next;
      }
    }

    /* ---- expressions ---- */

    method EvaluateExpression(tokPtr: nat, ret0: StrList, joined: bool, ghost e: Expr, ghost fuel: nat)
      returns (code: Code, p: nat, ret: StrList)
      requires Valid() && FitsExpr(e) && At(Toks(), tokPtr, EncodeExpr(e))
      requires tokPtr + |EncodeExpr(e)| < |Toks()| && !IsExprToken(Toks()[tokPtr + |EncodeExpr(e)|])
      requires EvalExpr(env, e, Start(ret0, joined), joined, St(), fuel).code != Diverged
      modifies this
      ensures Valid() && locationStack == old(locationStack)
      ensures var r := EvalExpr(env, e, Start(ret0, joined), joined, old(St()), fuel);
        code == r.code && ret == r.words && St() == r.st
      ensures code == ReturnTrue ==> p == tokPtr + |EncodeExpr(e)|
      decreases fuel, Room(St()), e, 0
    {
      hide EvalAtom, EvalExpand, EvalItems, EvalItem, EvalBody, EvalVarRefs, At, Holds, EncodeArgs;
      var toks := Toks();
      ret := if joined then ret0 + [[]] else ret0;
      var pending := false;
      p := tokPtr;
      ghost var rest := e;
      ghost var end := tokPtr + |EncodeExpr(e)|;
      while true
        invariant Valid() && locationStack == old(locationStack) && Kept(old(St()), St()) && toks == Toks()
        invariant FitsExpr(rest) && (rest == e || rest < e)
        invariant At(toks, p, EncodeExpr(rest)) && p + |EncodeExpr(rest)| == end
        invariant pending || joined ==> ret != []
        invariant EvalExpr(env, rest, Partial(ret, pending), joined, St(), fuel)
               == EvalExpr(env, e, Start(ret0, joined), joined, old(St()), fuel)
        decreases rest
      {
        if rest.ECons? {
          AtomAt(toks, p, rest.atom, EncodeExpr(rest.rest));
          TokenParts(rest.atom);
        }
        if !IsExprToken(toks[p]) { return ReturnTrue, p, ret; }
        var partial;
        code, p, partial := EvaluateToken(p, Partial(ret, pending), joined, rest.atom, fuel);
        ret, pending := partial.words, partial.pending;
        if code == ReturnError { return; }
        rest := rest.rest;
      }
    }

    // The switch of evaluateExpression(): one token and its payload.
    method EvaluateToken(tokPtr: nat, partial: Partial, joined: bool, ghost atom: Atom, ghost fuel: nat)
      returns (code: Code, p: nat, r: Partial)
      requires Valid() && FitsAtom(atom) && tokPtr < |Toks()| && Toks()[tokPtr] == AtomToken(atom)
      requires At(Toks(), tokPtr + 1, AtomPayload(atom))
      requires partial.pending || joined ==> partial.words != []
      requires EvalAtom(env, atom, partial, joined, St(), fuel).code != Diverged
      modifies this
      ensures Valid() && locationStack == old(locationStack)
      ensures var o := EvalAtom(env, atom, partial, joined, old(St()), fuel);
        code == o.code && r == o.partial && St() == o.st
      ensures code == ReturnTrue ==> p == tokPtr + 1 + |AtomPayload(atom)|
      decreases fuel, Room(St()), atom, 0
    {
      hide EvalExpr, EvalExpand, EvalItems, EvalItem, EvalBody, EvalVarRefs, At, Holds, Tabled;
      TokenParts(atom);
      var tok := Toks()[tokPtr];
      p, r, code := tokPtr + 1, partial, ReturnTrue;
      if HasNewStr(tok) { r := r.(pending := false); }
      assert r == Opened(atom, partial);
      var masked := tok % 0x100;
      if masked == TOK_LINE {
        Head(Toks(), p, [atom.line], 0);
        current := current.(line := Toks()[p]);
        p := p + 1;
      } else if masked == TOK_FUNC_NAME {
        CallPayload(Toks(), p, atom);
        var func, val;
        func, p := GetHashStr(p, atom.name);
        code, p, val := EvaluateExpandFunction(func, p, atom.args, fuel);
        if code == ReturnError { return; }
        code := ReturnTrue;
        r := AddStrList(val, HasQuoted(tok), r, joined);
      } else {
        r, p := AddOperand(tok, p, r, joined, atom);
      }
    }

    // The cases of evaluateExpression() that only read: literals and the three kinds of variables.
    method AddOperand(tok: Ushort, tokPtr: nat, partial: Partial, joined: bool, ghost atom: Atom)
      returns (r: Partial, p: nat)
      requires Valid() && FitsAtom(atom) && !atom.SetLine? && !atom.FuncCall? && tok == AtomToken(atom)
      requires At(Toks(), tokPtr, AtomPayload(atom))
      requires partial.pending || joined ==> partial.words != []
      ensures p == tokPtr + |AtomPayload(atom)| && r == WithOperand(env, atom, partial, joined, valuemapStack)
    {
      TokenParts(atom);
      var masked := tok % 0x100;
      var val, key;
      if masked == TOK_LITERAL {
        val, p := GetStr(tokPtr, atom.text);
        r := AddStr(val, partial, joined);
      } else if masked == TOK_HASH_LITERAL {
        val, p := GetHashStr(tokPtr, atom.name);
        r := AddStr(val, partial, joined);
      } else if masked == TOK_VARIABLE {
        key, p := GetHashStr(tokPtr, atom.name);
        var list := LookUp(Alias(env, key));
        r := AddStrList(list, HasQuoted(tok), partial, joined);
      } else if masked == TOK_PROPERTY {
        key, p := GetHashStr(tokPtr, atom.name);
        r := AddStr(env.property(key), partial, joined);
      } else {
        key, p := GetStr(tokPtr, atom.text);
        r := AddStr(env.getenv(key), partial, joined);
      }
    }

    method ExpandVariableReferences(tokPtr: nat, joined: bool, ghost args: Args, ghost terminator: Ushort,
                                    ghost fuel: nat)
      returns (code: Code, p: nat, ret: StrList)
      requires Valid() && FitsArgs(args) && At(Toks(), tokPtr, EncodeArgs(args, terminator))
      requires terminator == TOK_VALUE_TERMINATOR || terminator == TOK_FUNC_TERMINATOR
      requires joined || args.Last?
      requires EvalVarRefs(env, args, [], joined, St(), fuel).code != Diverged
      modifies this
      ensures Valid() && locationStack == old(locationStack)
      ensures var r := EvalVarRefs(env, args, [], joined, old(St()), fuel);
        code == r.code && ret == r.words && St() == r.st
      ensures code == ReturnTrue ==> p == tokPtr + |EncodeArgs(args, terminator)|
      decreases fuel, Room(St()), args, 0
    {
      hide EvalExpr, EvalAtom, EvalExpand, EvalItems, EvalItem, EvalBody, EncodeExpr, FitsExpr, At;
      hide EvalVarRefs, EncodeArgs, FitsArgs, Tabled;
      var toks := Toks();
      ret, p := [], tokPtr;
      ghost var rest := args;
      ghost var end := tokPtr + |EncodeArgs(args, terminator)|;
      while true
        invariant Valid() && toks == Toks() && locationStack == old(locationStack)
          && |valuemapStack| == old(|valuemapStack|) && current.pro == old(current.pro)
        invariant FitsArgs(rest) && (rest == args || rest < args) && (joined || rest.Last?)
        invariant At(toks, p, EncodeArgs(rest, terminator)) && p + |EncodeArgs(rest, terminator)| == end
        invariant EvalVarRefs(env, rest, ret, joined, St(), fuel) == EvalVarRefs(env, args, [], joined, old(St()), fuel)
        decreases rest
      {
        ArgsAt(toks, p, rest, terminator);
        ArgFits(rest);
        VarRefsStep(env, rest, ret, joined, St(), fuel);
        code, p, ret := EvaluateExpression(p, ret, joined, rest.arg, fuel);
        if code == ReturnError { return; }
        if toks[p] == TOK_VALUE_TERMINATOR || toks[p] == TOK_FUNC_TERMINATOR {
          p := p + 1;
          return;
        }
        TailAt(toks, p, rest, terminator);
        p := p + 1;
        rest := rest.more;
      }
    }

    method PrepareFunctionArgs(tokPtr: nat, ghost args: Args, ghost fuel: nat)
      returns (code: Code, p: nat, ret: seq<StrList>)
      requires Valid() && FitsArgs(args) && At(Toks(), tokPtr, EncodeArgs(args, TOK_FUNC_TERMINATOR))
      requires EvalCallArgs(env, args, St(), fuel).code != Diverged
      modifies this
      ensures Valid() && locationStack == old(locationStack)
      ensures var r := EvalCallArgs(env, args, old(St()), fuel); code == r.code && ret == r.args && St() == r.st
      ensures code == ReturnTrue ==> p == tokPtr + |EncodeArgs(args, TOK_FUNC_TERMINATOR)|
      decreases fuel, Room(St()), args, 1
    {
      hide EvalExpr, EvalAtom, EvalExpand, EvalItems, EvalItem, EvalBody;
      var toks := Toks();
      ret, p, code := [], tokPtr, ReturnTrue;
      ArgsAt(toks, p, args, TOK_FUNC_TERMINATOR);
      NoArgs(toks, p, args);
      if toks[p] == TOK_FUNC_TERMINATOR {
        p := p + 1;
        return;
      }
      code, p, ret := PrepareArgList(tokPtr, args, fuel);
    }

    // The loop of prepareFunctionArgs().
    method PrepareArgList(tokPtr: nat, ghost args: Args, ghost fuel: nat)
      returns (code: Code, p: nat, ret: seq<StrList>)
      requires Valid() && FitsArgs(args) && At(Toks(), tokPtr, EncodeArgs(args, TOK_FUNC_TERMINATOR))
      requires EvalListArgs(env, args, [], St(), fuel).code != Diverged
      modifies this
      ensures Valid() && locationStack == old(locationStack)
      ensures var r := EvalListArgs(env, args, [], old(St()), fuel); code == r.code && ret == r.args && St() == r.st
      ensures code == ReturnTrue ==> p == tokPtr + |EncodeArgs(args, TOK_FUNC_TERMINATOR)|
      decreases fuel, Room(St()), args, 0
    {
      hide EvalExpr, EvalAtom, EvalExpand, EvalItems, EvalItem, EvalBody, EncodeExpr, FitsExpr, At;
      hide EvalListArgs, EncodeArgs, FitsArgs, Tabled;
      var toks := Toks();
      ret, p := [], tokPtr;
      ghost var rest := args;
      ghost var end := tokPtr + |EncodeArgs(args, TOK_FUNC_TERMINATOR)|;
      while true
        invariant Valid() && toks == Toks() && locationStack == old(locationStack)
          && |valuemapStack| == old(|valuemapStack|) && current.pro == old(current.pro)
        invariant FitsArgs(rest) && (rest == args || rest < args)
        invariant At(toks, p, EncodeArgs(rest, TOK_FUNC_TERMINATOR))
          && p + |EncodeArgs(rest, TOK_FUNC_TERMINATOR)| == end
        invariant EvalListArgs(env, rest, ret, St(), fuel) == EvalListArgs(env, args, [], old(St()), fuel)
        decreases rest
      {
        ArgsAt(toks, p, rest, TOK_FUNC_TERMINATOR);
        ArgFits(rest);
        ListArgsStep(env, rest, ret, St(), fuel);
        var arg;
        code, p, arg := EvaluateExpression(p, [], false, rest.arg, fuel);
        if code == ReturnError { return; }
        ret := ret + [arg];
        if toks[p] == TOK_FUNC_TERMINATOR {
          p := p + 1;
          return;
        }
        TailAt(toks, p, rest, TOK_FUNC_TERMINATOR);
        p := p + 1;
        rest := rest.more;
      }
    }

    method EvaluateExpandFunction(func: Key, tokPtr: nat, ghost args: Args, ghost fuel: nat)
      returns (code: Code, p: nat, ret: StrList)
      requires Valid() && FitsArgs(args) && At(Toks(), tokPtr, EncodeArgs(args, TOK_FUNC_TERMINATOR))
      requires EvalExpand(env, func, args, St(), fuel).code != Diverged
      modifies this
      ensures Valid() && locationStack == old(locationStack)
      ensures var r := EvalExpand(env, func, args, old(St()), fuel); code == r.code && ret == r.words && St() == r.st
      ensures code != ReturnError ==> p == tokPtr + |EncodeArgs(args, TOK_FUNC_TERMINATOR)|
      decreases fuel, Room(St()), args, 3
    {
      hide EvalExpr, EvalAtom, EvalVarRefs, EvalCallArgs, EvalListArgs, EvalItems, EvalItem, EvalBody, Holds;
      if func in env.expands {
        var words;
        code, p, words := ExpandVariableReferences(tokPtr, true, args, TOK_FUNC_TERMINATOR, fuel);
        if code == ReturnError { return code, p, words; }
        var r := env.expand(func, words, View(valuemapStack, testFunctions.Keys, replaceFunctions.Keys, current));
        return r.code, p, r.words;
      }
      ret := [];
      if func in replaceFunctions {
        var list;
        code, p, list := PrepareFunctionArgs(tokPtr, args, fuel);
        if code == ReturnError { return; }
        code, ret := EvaluateFunction(replaceFunctions[func], list, replaceBodies[func], args, fuel);
        return;
      }
      p := SkipExpression(tokPtr, args, TOK_FUNC_TERMINATOR);
      code := ReturnFalse;
    }

    // The variables that a function starts with: its numbered arguments, all of them, and their number.
    method FrameOf(argumentsList: seq<StrList>) returns (frame: Frame)
      ensures frame == CallFrame(argumentsList)
    {
      frame := map[];
      var args: StrList := [];
      for i := 0 to |argumentsList|
        invariant args == Flatten(argumentsList[..i]) && frame == Numbered(argumentsList[..i])
      {
        assert argumentsList[..i + 1][..i] == argumentsList[..i];
        args := args + argumentsList[i];
        frame := frame[Number(i + 1) := Vals(argumentsList[i])];
      }
      assert argumentsList[..|argumentsList|] == argumentsList;
      frame := frame[Text("ARGS") := Vals(args)];
      frame := frame[Text("ARGC") := Vals([Number(|argumentsList|)])];
    }

    method EvaluateFunction(func: FuncPos, argumentsList: seq<StrList>, ghost def: Def, ghost at: Args, ghost fuel: nat)
      returns (vr: Code, ret: StrList)
      requires Valid() && Holds(pros, func, def)
      requires |valuemapStack| < MAX_DEPTH ==> EvalBody(env, def, argumentsList, St(), fuel).code != Diverged
      modifies this
      ensures Valid() && locationStack == old(locationStack)
      ensures var r := if |old(valuemapStack)| >= MAX_DEPTH then ExprOutcome(ReturnError, [], old(St()))
                       else EvalBody(env, def, argumentsList, old(St()), fuel);
        vr == r.code && ret == r.words && St() == r.st
      decreases fuel, Room(St()), at, 1
    {
      hide EvalItems, EvalItem, Tabled, FitsItem, At, CallFrame;
      ret := [];
      if |valuemapStack| >= MAX_DEPTH {
        vr := ReturnError;
      } else {
        var frame := FrameOf(argumentsList);
        locationStack := locationStack + [current];
        valuemapStack := valuemapStack + [frame];
        current := Location(func.pro, 0);
        vr := VisitProBlock(func.offset, def.body, fuel);
        if vr == ReturnReturn { vr := ReturnTrue; }
        if vr == ReturnTrue { ret := returnValue; }
        returnValue := [];
        history := Ended(history);
        current := locationStack[|locationStack| - 1];
        locationStack := locationStack[..|locationStack| - 1];
        valuemapStack := valuemapStack[..|valuemapStack| - 1];
      }
    }

    method EvaluateBoolFunction(func: FuncPos, argumentsList: seq<StrList>, ghost def: Def, ghost at: Args,
                                ghost fuel: nat)
      returns (vr: Code)
      requires Valid() && Holds(pros, func, def)
      requires |valuemapStack| < MAX_DEPTH ==> EvalBody(env, def, argumentsList, St(), fuel).code != Diverged
      modifies this
      ensures Valid() && locationStack == old(locationStack)
      ensures var r := if |old(valuemapStack)| >= MAX_DEPTH then ExprOutcome(ReturnError, [], old(St()))
                       else EvalBody(env, def, argumentsList, old(St()), fuel);
        vr == (if r.code == ReturnTrue then TestResult(env, r.words) else r.code) && St() == r.st
      decreases fuel, Room(St()), at, 2
    {
      var ret;
      vr, ret := EvaluateFunction(func, argumentsList, def, at, fuel);
      if vr == ReturnTrue {
        if ret == [] { return ReturnTrue; }
        if ret[0] != Text("false") {
          if ret[0] == Text("true") { return ReturnTrue; }
          var val := env.toInt(ret[0]);
          if val.Some? && val.value != 0 { return ReturnTrue; }
        }
        return ReturnFalse;
      }
    }

    method EvaluateConditionalFunction(func: Key, tokPtr: nat, ghost args: Args, ghost fuel: nat)
      returns (code: Code, p: nat)
      requires Valid() && FitsArgs(args) && At(Toks(), tokPtr, EncodeArgs(args, TOK_FUNC_TERMINATOR))
      requires EvalTest(env, func, args, St(), fuel).code != Diverged
      modifies this
      ensures Valid() && locationStack == old(locationStack)
      ensures var r := EvalTest(env, func, args, old(St()), fuel); code == r.code && St() == r.st
      ensures code == ReturnTrue || code == ReturnFalse ==> p == tokPtr + |EncodeArgs(args, TOK_FUNC_TERMINATOR)|
      decreases fuel, Room(St()), args, 3
    {
      hide EvalExpr, EvalAtom, EvalVarRefs, EvalCallArgs, EvalListArgs, EvalItems, EvalItem, EvalBody, Holds;
      if func in env.testBuiltins {
        var words;
        code, p, words := ExpandVariableReferences(tokPtr, true, args, TOK_FUNC_TERMINATOR, fuel);
        if code == ReturnError { return; }
        code := EvaluateBuiltinConditional(func, words);
        return;
      }
      if func in testFunctions {
        var list;
        code, p, list := PrepareFunctionArgs(tokPtr, args, fuel);
        if code == ReturnError { return; }
        code := EvaluateBoolFunction(testFunctions[func], list, testBodies[func], args, fuel);
        return;
      }
      p := SkipExpression(tokPtr, args, TOK_FUNC_TERMINATOR);
      code := ReturnFalse;
    }

    /* ---- statements ---- */

    method VisitProVariable(op: AssignOp, curr: StrList, tokPtr: nat, ghost hint: Ushort, ghost rhs: Args,
                            ghost fuel: nat)
      returns (ret: Code, p: nat)
      requires Valid() && FitsArgs(rhs) && (op == OpReplace || rhs.Last?)
      requires At(Toks(), tokPtr, ItemPayload(Assign(op, hint, rhs)))
      requires EvalAssign(env, op, curr, rhs, St(), fuel).code != Diverged
      modifies this
      ensures Valid() && locationStack == old(locationStack)
      ensures var r := EvalAssign(env, op, curr, rhs, old(St()), fuel); ret == r.code && St() == r.st
      ensures ret == ReturnTrue ==> p == tokPtr + |ItemPayload(Assign(op, hint, rhs))|
      decreases fuel, Room(St()), rhs, 4
    {
      hide EvalExpr, EvalAtom, EvalVarRefs, EvalExpand, EvalItems, EvalItem, EvalBody, EncodeArgs, RemoveEmpty;
      hide RemoveEach, InsertUnique, Values;
      Split(Toks(), tokPtr, [hint], EncodeArgs(rhs, TOK_VALUE_TERMINATOR));
      p := tokPtr + 1;
      if |curr| != 1 {
        p := SkipExpression(p, rhs, TOK_VALUE_TERMINATOR);
        return ReturnTrue, p;
      }
      var varName := Alias(env, curr[0]);
      var varVal, list;
      ret, p, varVal := ExpandVariableReferences(p, op == OpReplace, rhs, TOK_VALUE_TERMINATOR, fuel);
      if ret == ReturnError { return; }
      ghost var before := valuemapStack;
      match op
      case OpReplace =>
        if IsSubstitution(varVal[0]) {
          list := ValuesRef(varName);
          SetTopTwice(before, varName, list, env.substitute(varVal[0], list));
          valuemapStack := SetTop(valuemapStack, varName, env.substitute(varVal[0], list));
        }
      case OpAssign =>
        valuemapStack := SetTop(valuemapStack, varName, RemoveEmpty(varVal));
      case OpAppendUnique =>
        list := ValuesRef(varName);
        SetTopTwice(before, varName, list, InsertUnique(list, varVal));
        valuemapStack := SetTop(valuemapStack, varName, InsertUnique(list, varVal));
      case OpAppend =>
        list := ValuesRef(varName);
        SetTopTwice(before, varName, list, list + RemoveEmpty(varVal));
        valuemapStack := SetTop(valuemapStack, varName, list + RemoveEmpty(varVal));
      case OpRemove =>
        list := ValuesRef(varName);
        SetTopTwice(before, varName, list, RemoveEach(list, varVal));
        valuemapStack := SetTop(valuemapStack, varName, RemoveEach(list, varVal));
    }

    method VisitProFunctionDef(isTest: bool, name: Key, tokPtr: nat, ghost body: Items)
      requires Valid() && FitsItems(body) && At(Toks(), tokPtr, EncodeItems(body))
      modifies this`testFunctions, this`testBodies, this`replaceFunctions, this`replaceBodies
      ensures Valid()
      ensures St() == if isTest then old(St()).(testDefs := old(St()).testDefs[name := Def(current.pro, body)])
                      else old(St()).(replaceDefs := old(St()).replaceDefs[name := Def(current.pro, body)])
    {
      if isTest {
        testFunctions := testFunctions[name := FuncPos(current.pro, tokPtr)];
        testBodies := testBodies[name := Def(current.pro, body)];
      } else {
        replaceFunctions := replaceFunctions[name := FuncPos(current.pro, tokPtr)];
        replaceBodies := replaceBodies[name := Def(current.pro, body)];
      }
    }

    // A block with its length in front; a block of length 0 is not visited.
    method VisitOptionalBlock(tokPtr: nat, blockLen: nat, ghost b: Block, ghost fuel: nat) returns (ret: Code)
      requires Valid() && FitsBlock(b) && blockLen == |EncodeBlock(b)| && At(Toks(), tokPtr, EncodeBlock(b))
      requires EvalBlock(env, b, St(), fuel).code != Diverged
      modifies this
      ensures Valid() && locationStack == old(locationStack)
      ensures var r := EvalBlock(env, b, old(St()), fuel); ret == r.code && St() == r.st
      decreases fuel, Room(St()), b, 2
    {
      hide EvalItems;
      if blockLen != 0 {
        assert b.Present?;
        ret := VisitProBlock(tokPtr, b.items, fuel);
      } else {
        ItemsNotEmpty(b);
        ret := ReturnTrue;
      }
    }

    method VisitBranch(okey: bool, tokPtr: nat, ghost t: Block, ghost e: Block, ghost fuel: nat, ghost at: Item)
      returns (ret: Code, p: nat)
      requires Valid() && at == Branch(t, e) && FitsItem(at) && At(Toks(), tokPtr, ItemPayload(at))
      requires EvalBlock(env, if okey then t else e, St(), fuel).code != Diverged
      modifies this
      ensures Valid() && locationStack == old(locationStack)
      ensures var r := EvalBlock(env, if okey then t else e, old(St()), fuel); ret == r.code && St() == r.st
      ensures p == tokPtr + |ItemPayload(at)|
      decreases fuel, Room(St()), at, 1
    {
      hide EvalBlock, EncodeBlock, ItemPayload;
      BranchAt(Toks(), tokPtr, t, e);
      var toks := Toks();
      var blockLen;
      blockLen, p := GetBlockLen(tokPtr, EncodeBlock(t));
      if okey { ret := VisitOptionalBlock(p, blockLen, t, fuel); }
      p := p + blockLen;
      blockLen, p := GetBlockLen(p, EncodeBlock(e));
      if !okey { ret := VisitOptionalBlock(p, blockLen, e, fuel); }
      p := p + blockLen;
    }

    method VisitBypass(go: bool, tokPtr: nat, ghost b: Block, ghost fuel: nat) returns (ret: Code, p: nat)
      requires Valid() && FitsBlock(b) && At(Toks(), tokPtr, ItemPayload(Bypass(b)))
      requires go && b.Present? ==> EvalBypass(env, b, St(), fuel).code != Diverged
      modifies this
      ensures Valid() && locationStack == old(locationStack)
      ensures var r := if go && b.Present? then EvalBypass(env, b, old(St()), fuel) else Outcome(ReturnTrue, old(St()));
        ret == r.code && St() == r.st
      ensures p == tokPtr + |ItemPayload(Bypass(b))|
      decreases fuel, Room(St()), b, 3
    {
      hide EvalBlock, EvalItems;
      var blockLen;
      blockLen, p := GetBlockLen(tokPtr, EncodeBlock(b));
      ItemsNotEmpty(b);
      if go && blockLen != 0 {
        var savedValuemapStack := valuemapStack[1..];
        assert savedValuemapStack == [] ==> [valuemapStack[0]] == valuemapStack;
        valuemapStack := [valuemapStack[0]];
        ghost var inner := if savedValuemapStack == [] then fuel else fuel - 1;
        ret := VisitOptionalBlock(p, blockLen, b, inner);
        assert savedValuemapStack == [] ==> valuemapStack + savedValuemapStack == valuemapStack;
        valuemapStack := valuemapStack + savedValuemapStack;
      } else {
        ret := ReturnTrue;
      }
      p := p + blockLen;
    }

    method CountingRange(itList: Str) returns (list: StrList)
      ensures list == Range(env, itList)
    {
      hide Up, Down;
      var dotdot := IndexOfDots(itList, 0);
      if dotdot == -1 { return []; }
      var start, end := env.toInt(itList[..dotdot]), env.toInt(itList[dotdot + 2..]);
      if start.None? || end.None? { return []; }
      if start.value < end.value { list := CountUp(start.value, end.value); }
      else { list := CountDown(start.value, end.value); }
    }

    method VisitProLoop(variable0: Key, exprPtr: nat, tokPtr: nat, ghost loop: Item,
                        ghost fuel: nat) returns (ret: Code)
      requires Valid() && loop.ForLoop? && FitsItem(loop) && variable0 == loop.variable.text
      requires At(Toks(), exprPtr, EncodeArgs(loop.list, TOK_VALUE_TERMINATOR))
      requires At(Toks(), tokPtr, EncodeItems(loop.body))
      requires EvalLoop(env, loop, St(), fuel).code != Diverged
      modifies this
      ensures Valid() && locationStack == old(locationStack)
      ensures var r := EvalLoop(env, loop, old(St()), fuel); ret == r.code && St() == r.st
      decreases fuel, Room(St()), loop, 1
    {
      hide EvalVarRefs, EvalItems, Iterate, EncodeArgs, EncodeItems;
      var p, itListOut;
      ret, p, itListOut := ExpandVariableReferences(exprPtr, true, loop.list, TOK_VALUE_TERMINATOR, fuel);
      if ret == ReturnError { return; }
      var itList := itListOut[0];
      var variable: Key := [];
      var oldVarVal: StrList := [];
      if variable0 == [] {
        if itList != Text("ever") { return ReturnFalse; }
        itList := Text("forever");
      } else {
        variable := Alias(env, variable0);
        oldVarVal := LookUp(variable);
      }
      var list := LookUp(itList);
      var infinite := false;
      if list == [] {
        if itList == Text("forever") { infinite := true; }
        else { list := CountingRange(itList); }
      }
      ret := RunLoop(variable, infinite, list, tokPtr, loop, fuel);
      if variable != [] { valuemapStack := SetTop(valuemapStack, variable, oldVarVal); }
    }

    // Empty elements are no iterations.
    method NextValue(list: StrList, from: nat) returns (index: nat)
      requires from <= |list|
      ensures from <= index <= |list|
      ensures forall i :: from <= i < index ==> list[i] == []
      ensures index < |list| ==> list[index] != []
    {
      index := from;
      while index < |list| && list[index] == []
        invariant from <= index <= |list|
        invariant forall i :: from <= i < index ==> list[i] == []
      {
        index := index + 1;
      }
    }

    // What the code of the body means for its loop.
    method LeaveLoop(ret: Code) returns (leave: bool, code: Code)
      ensures AfterBody(ret) == if leave then Leave(code) else Again(code)
      ensures leave <==> ret != ReturnTrue && ret != ReturnFalse && ret != ReturnNext
      ensures code == if ret == ReturnNext || ret == ReturnBreak then ReturnTrue else ret
    {
      match ret
      case ReturnTrue => return false, ret;
      case ReturnFalse => return false, ret;
      case ReturnNext => return false, ReturnTrue;
      case ReturnBreak => return true, ReturnTrue;
      case _ => return true, ret;
    }

    // Sets the variable for the next turn of a loop, if there is one.
    method StartTurn(variable: Key, infinite: bool, list: StrList, at: nat, ghost loop: Item, ghost last: Code,
                     ghost fuel: nat)
      returns (over: bool, index: nat)
      requires Valid() && loop.ForLoop? && if infinite then at <= MAX_ITERATIONS else at <= |list|
      modifies this`valuemapStack
      ensures Valid() && Kept(old(St()), St())
      ensures !over ==> (if infinite then index == at + 1 <= MAX_ITERATIONS else at < index <= |list|)
      ensures var whole := Iterate(env, loop, variable, infinite, list, at, last, old(St()), fuel);
        var next := EvalItems(env, loop.body, START, St(), fuel);
        && (over ==> whole == Outcome(last, St()))
        && (!over ==> whole == AfterTurn(env, loop, variable, infinite, list, index, next, fuel))
    {
      hide EvalItems, Iterate, AfterTurn;
      ghost var before := St();
      index := at;
      if infinite {
        if variable != [] { valuemapStack := SetTop(valuemapStack, variable, [Number(index)]); }
        index := index + 1;
        if index > MAX_ITERATIONS {
          IterateEnd(env, loop, variable, infinite, list, last, before, fuel);
          return true, index;
        }
      } else {
        index := NextValue(list, index);
        PassEmpty(env, loop, variable, list, at, index, last, before, fuel);
        if index >= |list| {
          IterateEnd(env, loop, variable, infinite, list, last, before, fuel);
          return true, index;
        }
        valuemapStack := SetTop(valuemapStack, variable, [list[index]]);
        index := index + 1;
      }
      IterateTurn(env, loop, variable, infinite, list, index - 1, last, before, fuel);
      over := false;
    }

    // The iterations of visitProLoop().
    method RunLoop(variable: Key, infinite: bool, list: StrList, tokPtr: nat, ghost loop: Item, ghost fuel: nat)
      returns (ret: Code)
      requires Valid() && loop.ForLoop? && FitsItem(loop) && At(Toks(), tokPtr, EncodeItems(loop.body))
      requires Iterate(env, loop, variable, infinite, list, 0, ReturnTrue, St(), fuel).code != Diverged
      modifies this
      ensures Valid() && locationStack == old(locationStack)
      ensures var r := Iterate(env, loop, variable, infinite, list, 0, ReturnTrue, old(St()), fuel);
        ret == r.code && St() == r.st
      decreases fuel, Room(St()), loop, 0
    {
      assert FitsItems(loop.body);
      hide EvalItems, EncodeItems, FitsItem, FitsItems, Iterate;
      ret := ReturnTrue;
      var index := 0;
      var toks := Toks();
      while true
        invariant Valid() && toks == Toks() && locationStack == old(locationStack)
          && |valuemapStack| == old(|valuemapStack|) && current.pro == old(current.pro)
        invariant 0 <= index && if infinite then index <= MAX_ITERATIONS else index <= |list|
        invariant Iterate(env, loop, variable, infinite, list, index, ret, St(), fuel)
               == Iterate(env, loop, variable, infinite, list, 0, ReturnTrue, old(St()), fuel)
        decreases if infinite then MAX_ITERATIONS - index else |list| - index
      {
        var over;
        over, index := StartTurn(variable, infinite, list, index, loop, ret, fuel);
        if over { return; }
        ret := VisitProBlock(tokPtr, loop.body, fuel);
        var leave;
        leave, ret := LeaveLoop(ret);
        if leave { return; }
      }
    }

    // Runs the block at a position of the current file: the tokens are those of the given items.
    method VisitProBlock(tokPtr: nat, ghost items: Items, ghost fuel: nat) returns (ret: Code)
      requires Valid() && FitsItems(items) && At(Toks(), tokPtr, EncodeItems(items))
      requires EvalItems(env, items, START, St(), fuel).code != Diverged
      modifies this
      ensures Valid() && locationStack == old(locationStack)
      ensures var r := EvalItems(env, items, START, old(St()), fuel); ret == r.code && St() == r.st
      decreases fuel, Room(St()), items, 0
    {
      hide EvalItem, EncodeItem;
      var regs := START;
      var p := tokPtr;
      var toks := Toks();
      ghost var rest := items;
      while true
        invariant Valid() && toks == Toks() && locationStack == old(locationStack)
          && |valuemapStack| == old(|valuemapStack|) && current.pro == old(current.pro)
        invariant FitsItems(rest) && At(toks, p, EncodeItems(rest)) && (rest == items || rest < items)
        invariant EvalItems(env, rest, regs, St(), fuel) == EvalItems(env, items, START, old(St()), fuel)
        decreases rest
      {
        if rest.Then? { ItemsAt(toks, p, rest); }
        else { Head(toks, p, [TOK_TERMINATOR], 0); }
        if toks[p] == TOK_TERMINATOR {
          return if regs.okey then ReturnTrue else ReturnFalse;
        }
        var aborted;
        aborted, ret, p, regs := VisitItem(p, regs, rest.item, fuel);
        if aborted { return; }
        rest := rest.rest;
      }
    }

    // The switch of visitProBlock().
    method VisitItem(tokPtr: nat, regs: Regs, ghost item: Item, ghost fuel: nat)
      returns (aborted: bool, ret: Code, p: nat, r: Regs)
      requires Valid() && FitsItem(item) && At(Toks(), tokPtr, EncodeItem(item)) && tokPtr < |Toks()|
      requires item.Words? ==> EndsExpr(Toks(), tokPtr + |EncodeItem(item)|)
      requires EvalItem(env, item, regs, St(), fuel) != Abort(Diverged, StateOf(EvalItem(env, item, regs, St(), fuel)))
      modifies this
      ensures Valid() && locationStack == old(locationStack)
      ensures match EvalItem(env, item, regs, old(St()), fuel)
        case Go(regs', st') => !aborted && r == regs' && St() == st' && p == tokPtr + |EncodeItem(item)|
        case Abort(code, st') => aborted && ret == code && St() == st'
      decreases fuel, Room(St()), item, 5
    {
      hide EvalExpr, EvalItems, EvalBlock, EvalBypass, EvalLoop, EvalTest, EvalAssign;
      hide EncodeItems, EncodeBlock, EncodeArgs, EncodeExpr, EncodeName, FitsItems, FitsExpr, FitsArgs;
      if item.Words? { WordsAt(Toks(), tokPtr, item.expr); }
      else { ItemAt(Toks(), tokPtr, item); }
      var tok := Toks()[tokPtr];
      aborted, ret, p, r := false, ReturnTrue, tokPtr + 1, regs;
      var go := regs.okey != regs.orOp;
      if tok == TOK_LINE {
        Head(Toks(), p, [item.line], 0);
        current := current.(line := Toks()[p]);
        p := p + 1;
      } else if tok == TOK_NOT {
        r := r.(invert := !r.invert);
      } else if tok == TOK_AND {
        r := r.(orOp := false);
      } else if tok == TOK_OR {
        r := r.(orOp := true);
      } else if TOK_ASSIGN <= tok <= TOK_REPLACE || tok == TOK_CONDITION || tok == TOK_TEST_CALL
                || TOK_RETURN <= tok <= TOK_NEXT {
        aborted, ret, p, r := VisitConsumer(tok, p, regs, item, fuel);
      } else if TOK_BRANCH <= tok <= TOK_BYPASS_NESTING {
        aborted, ret, p, r := VisitNested(tok, p, regs, item, fuel);
      } else {
        var words;
        ret, p, words := EvaluateExpression(tokPtr, regs.curr, false, item.expr, fuel);
        if ret == ReturnError { return true, ret, p, regs; }
        r := r.(curr := words);
      }
    }

    // The cases that consume the words before them.
    method VisitConsumer(tok: Ushort, tokPtr: nat, regs: Regs, ghost item: Item, ghost fuel: nat)
      returns (aborted: bool, ret: Code, p: nat, r: Regs)
      requires Valid() && Consumes(item) && FitsItem(item) && tok == ItemToken(item)
      requires At(Toks(), tokPtr, ItemPayload(item))
      requires EvalItem(env, item, regs, St(), fuel) != Abort(Diverged, StateOf(EvalItem(env, item, regs, St(), fuel)))
      modifies this
      ensures Valid() && locationStack == old(locationStack)
      ensures match EvalItem(env, item, regs, old(St()), fuel)
        case Go(regs', st') => !aborted && r == regs' && St() == st' && p == tokPtr + |ItemPayload(item)|
        case Abort(code, st') => aborted && ret == code && St() == st'
      decreases fuel, Room(St()), item, 4
    {
      hide EvalExpr, EvalItems, EvalBlock, EvalBypass, EvalLoop, EvalTest, EvalAssign, Kept;
      hide EncodeItems, EncodeBlock, EncodeArgs, EncodeExpr, EncodeName, FitsItems, FitsExpr, FitsArgs;
      aborted, ret, p, r := false, ReturnTrue, tokPtr, regs;
      var go := regs.okey != regs.orOp;
      if TOK_ASSIGN <= tok <= TOK_REPLACE {
        ret, p := VisitProVariable(OpOf(tok), regs.curr, p, item.hint, item.rhs, fuel);
        if ret == ReturnError { return true, ret, p, regs; }
        r := r.(curr := []);
      } else if tok == TOK_CONDITION {
        if go {
          if |regs.curr| != 1 {
            r := r.(okey := false);
          } else {
            var okey := IsActive(regs.curr[0]);
            r := r.(okey := okey != regs.invert);
          }
        }
        r := Regs([], r.okey, !r.okey, false);
      } else if tok == TOK_TEST_CALL {
        if go {
          if |regs.curr| != 1 {
            p := SkipExpression(p, item.args, TOK_FUNC_TERMINATOR);
            r := r.(okey := false);
          } else {
            ret, p := EvaluateConditionalFunction(regs.curr[0], p, item.args, fuel);
            if ret != ReturnTrue && ret != ReturnFalse { return true, ret, p, regs; }
            r := r.(okey := (ret == ReturnTrue) != regs.invert);
          }
        } else {
          p := SkipExpression(p, item.args, TOK_FUNC_TERMINATOR);
        }
        r := Regs([], r.okey, !r.okey, false);
      } else {
        if tok == TOK_RETURN {
          returnValue := regs.curr;
          r := r.(curr := []);
          ret := ReturnReturn;
        } else if tok == TOK_BREAK {
          ret := ReturnBreak;
        } else {
          ret := ReturnNext;
        }
        if go { return true, ret, p, r; }
        r := r.(okey := false, orOp := true);
      }
    }

    // The cases that hold code behind a length.
    method VisitNested(tok: Ushort, tokPtr: nat, regs: Regs, ghost item: Item, ghost fuel: nat)
      returns (aborted: bool, ret: Code, p: nat, r: Regs)
      requires Valid() && Nests(item) && FitsItem(item) && tok == ItemToken(item)
      requires At(Toks(), tokPtr, ItemPayload(item))
      requires EvalItem(env, item, regs, St(), fuel) != Abort(Diverged, StateOf(EvalItem(env, item, regs, St(), fuel)))
      modifies this
      ensures Valid() && locationStack == old(locationStack)
      ensures match EvalItem(env, item, regs, old(St()), fuel)
        case Go(regs', st') => !aborted && r == regs' && St() == st' && p == tokPtr + |ItemPayload(item)|
        case Abort(code, st') => aborted && ret == code && St() == st'
      decreases fuel, Room(St()), item, 4
    {
      hide EvalExpr, EvalItems, EvalBlock, EvalBypass, EvalLoop, EvalTest, EvalAssign, At, Holds;
      hide EncodeItems, EncodeBlock, EncodeArgs, EncodeExpr, EncodeName, FitsItems, FitsExpr, FitsArgs;
      aborted, ret, p := false, ReturnTrue, tokPtr;
      r := regs.(okey := true, orOp := false);
      var go := regs.okey != regs.orOp;
      if tok == TOK_BRANCH {
        ret, p := VisitBranch(regs.okey, p, item.thenBlock, item.elseBlock, fuel, item);
      } else if tok == TOK_FOR_LOOP {
        ret, p := VisitFor(go, p, item, fuel);
      } else if tok == TOK_BYPASS_NESTING {
        ret, p := VisitBypass(go, p, item.block, fuel);
      } else {
        var toks := Toks();
        var name, blockLen;
        DefAt(toks, p, item.name, item.def);
        if go {
          name, p := GetHashStr(p, item.name);
          blockLen, p := GetBlockLen(p, EncodeItems(item.def));
          VisitProFunctionDef(tok == TOK_TEST_DEF, name, p, item.def);
        } else {
          p := SkipHashStr(p, item.name);
          blockLen, p := GetBlockLen(p, EncodeItems(item.def));
        }
        p := p + blockLen;
        return;
      }
      aborted := ret != ReturnTrue && ret != ReturnFalse;
    }

    method VisitFor(go: bool, tokPtr: nat, ghost loop: Item, ghost fuel: nat) returns (ret: Code, p: nat)
      requires Valid() && loop.ForLoop? && FitsItem(loop) && At(Toks(), tokPtr, ItemPayload(loop))
      requires go ==> EvalLoop(env, loop, St(), fuel).code != Diverged
      modifies this
      ensures Valid() && locationStack == old(locationStack)
      ensures var r := if go then EvalLoop(env, loop, old(St()), fuel) else Outcome(ReturnTrue, old(St()));
        ret == r.code && St() == r.st
      ensures p == tokPtr + |ItemPayload(loop)|
      decreases fuel, Room(St()), loop, 3
    {
      hide EvalLoop, EncodeArgs, EncodeItems, EncodeName, ItemPayload;
      ForAt(Toks(), tokPtr, loop.variable, loop.list, loop.body);
      var variable, exprLen, blockLen;
      if go {
        variable, p := GetHashStr(tokPtr, loop.variable);
        exprLen, p := GetBlockLen(p, EncodeArgs(loop.list, TOK_VALUE_TERMINATOR));
        var exprPtr := p;
        p := p + exprLen;
        blockLen, p := GetBlockLen(p, EncodeItems(loop.body));
        ret := VisitProLoop(variable, exprPtr, p, loop, fuel);
      } else {
        p := SkipHashStr(tokPtr, loop.variable);
        exprLen, p := GetBlockLen(p, EncodeArgs(loop.list, TOK_VALUE_TERMINATOR));
        p := p + exprLen;
        blockLen, p := GetBlockLen(p, EncodeItems(loop.body));
        ret := ReturnTrue;
      }
      p := p + blockLen;
    }
  }
}
