/** What evaluation does to the stack of variable maps: how lookups see an update, and what a
    whole run leaves alone. */
module QmakeScoping {
  import opened QmakeProgram
  import opened QmakeValues
  import opened QmakeSemantics

  /* ---- single updates ---- */

  lemma {:induction false} FindFromSame(a: seq<Frame>, b: seq<Frame>, key: Key, i: nat)
    requires i < |a| && i < |b|
    requires forall j :: 0 <= j <= i ==> (key in a[j] <==> key in b[j]) && (key in a[j] ==> a[j][key] == b[j][key])
    ensures FindFrom(a, key, i) == FindFrom(b, key, i)
  {
    if i > 0 && key !in a[i] { FindFromSame(a, b, key, i - 1); }
  }

  lemma SetTopLookup(stack: Stack, key: Key, list: StrList)
    ensures FindFrame(SetTop(stack, key, list), key) == |stack| - 1
    ensures Values(SetTop(stack, key, list), key) == list
    ensures forall k :: k != key ==> Values(SetTop(stack, key, list), k) == Values(stack, k)
  {
    forall k | k != key ensures Values(SetTop(stack, key, list), k) == Values(stack, k) {
      FindFromSame(SetTop(stack, key, list), stack, k, |stack| - 1);
    }
  }

  // valuesRef() changes no lookup, and afterwards the visible entry is the top frame's own.
  lemma ValuesRefInvisible(stack: Stack, key: Key)
    ensures var r := SetTop(stack, key, Values(stack, key));
      && FindFrame(r, key) == |stack| - 1
      && forall k :: Values(r, k) == Values(stack, k)
  {
    SetTopLookup(stack, key, Values(stack, key));
  }

  lemma {:induction false} NotAbove(stack: seq<Frame>, key: Key, src: nat, i: nat)
    requires src <= i < |stack|
    requires forall j :: src < j <= i ==> key !in stack[j]
    ensures FindFrom(stack, key, i) == FindFrom(stack, key, src)
    decreases i
  {
    if src < i { NotAbove(stack, key, src, i - 1); }
  }

  predicate HeldAbove(stack: Stack, key: Key) {
    exists i :: 0 < i < |stack| && key in stack[i]
  }

  /** export() of a name held above the bottom frame leaves it in the bottom frame only, and no
      other name is affected. */
  lemma ExportMoves(stack: Stack, key: Key)
    requires HeldAbove(stack, key)
    ensures var r := Export(stack, key);
      && r[0].Keys == stack[0].Keys + {key}
      && (forall i :: 0 < i < |r| ==> r[i] == stack[i] - {key})
      && (forall k :: k in stack[0] && k != key ==> r[0][k] == stack[0][k])
  {
    var src := ExportSource(stack, key, |stack| - 1);
    var r := Export(stack, key);
    forall i | 0 < i < |r| ensures r[i] == stack[i] - {key} {}
  }

  /** The exported value is the one a lookup gave before, except for a positional parameter that the
      top frame does not have: lookups do not see a caller's parameters, but export() does. */
  lemma ExportedValue(stack: Stack, key: Key)
    requires HeldAbove(stack, key)
    ensures var r := Export(stack, key);
      var src := ExportSource(stack, key, |stack| - 1);
      (r[0][key] == Vals(Values(stack, key)))
      <==> (!IsFunctParam(key) || key in stack[|stack| - 1] || stack[src][key] == Fake || stack[src][key] == Vals([]))
  {
    var src := ExportSource(stack, key, |stack| - 1);
    NotAbove(stack, key, src, |stack| - 1);
  }

  // What was exported is what a lookup of a variable finds afterwards.
  lemma ExportedVisible(stack: Stack, key: Key)
    requires HeldAbove(stack, key) && !IsFunctParam(key)
    ensures Values(Export(stack, key), key) == Values(stack, key)
  {
    ExportMoves(stack, key);
    ExportedValue(stack, key);
    var r := Export(stack, key);
    forall i | 0 < i < |r| ensures key !in r[i] { assert key !in stack[i] - {key}; }
    NotAbove(r, key, 0, |r| - 1);
  }

  // Otherwise export() changes nothing.
  lemma ExportNothing(stack: Stack, key: Key)
    requires forall i :: 0 < i < |stack| ==> key !in stack[i]
    ensures Export(stack, key) == stack
  {
  }

  // A positional parameter above the bottom is visible only in the top frame, but export() takes
  // it from any frame: here the lookup gives nothing and export() publishes the caller's value.
  lemma ExportParameterOfCaller()
    ensures var one: Key := Number(1);
      var stack: Stack := [map[], map[one := Vals([[7]])], map[]];
      && Values(stack, one) == []
      && Export(stack, one)[0] == map[one := Vals([[7]])]
  {
    var one: Key := Number(1);
    assert one == [0x31];
    var stack: Stack := [map[], map[one := Vals([[7]])], map[]];
    assert ExportSource(stack, one, 2) == ExportSource(stack, one, 1) == 1;
  }

  // After unset() the name has no value, and every other name keeps its own.
  lemma UnsetLookup(stack: Stack, key: Key)
    ensures Values(Unset(stack, key), key) == []
    ensures forall k :: k != key ==> Values(Unset(stack, key), k) == Values(stack, k)
  {
    var r := Unset(stack, key);
    forall k | k != key ensures Values(r, k) == Values(stack, k) {
      FindFromSame(r, stack, k, |stack| - 1);
    }
  }

  /* ---- whole runs ---- */

  // No tombstone in the bottom frame.
  predicate Grounded(st: State) {
    forall k :: k in st.stack[0] ==> st.stack[0][k].Vals?
  }

  // The frame has the same entry for the name, or none like before.
  predicate SameEntry(a: Frame, b: Frame, key: Key) {
    (key in a <==> key in b) && (key in a ==> a[key] == b[key])
  }

  predicate KeyKept(a: seq<Frame>, b: seq<Frame>, key: Key, from: nat, to: nat)
    requires to <= |a| && to <= |b|
  {
    forall i :: from <= i < to ==> SameEntry(a[i], b[i], key)
  }

  predicate KeyGone(b: seq<Frame>, key: Key, to: nat)
    requires to <= |b|
  {
    forall i :: 0 < i < to ==> key !in b[i]
  }

  /** What happened to the frames from one index up to another: every name has the entries it had, in
      all of them, unless export() was called with it; then it may be gone from the frames above the
      bottom, and the bottom frame has it. */
  ghost predicate OnlyExported(a: State, b: State, from: nat, to: nat)
    requires to <= |a.stack| && to <= |b.stack|
  {
    a.history.exported <= b.history.exported && forall key ::
      KeyKept(a.stack, b.stack, key, from, to) || KeyExported(a, b, key, from, to)
  }

  predicate KeyExported(a: State, b: State, key: Key, from: nat, to: nat)
    requires to <= |b.stack|
  {
    |a.history.exported| <= |b.history.exported| && key in b.history.exported[|a.history.exported|..]
    && KeyGone(b.stack, key, to) && (from == 0 ==> key in b.stack[0])
  }

  // No bypass block in the code ...
  predicate PlainItems(items: Items) {
    items.Then? ==> PlainItem(items.item) && PlainItems(items.rest)
  }

  predicate PlainBlock(b: Block) {
    b.Present? ==> PlainItems(b.items)
  }

  predicate PlainItem(i: Item) {
    match i
    case Branch(t, e) => PlainBlock(t) && PlainBlock(e)
    case ForLoop(_, _, body) => PlainItems(body)
    case Bypass(b) => b.Absent?
    case TestDef(_, body) => PlainItems(body)
    case ReplaceDef(_, body) => PlainItems(body)
    case _ => true
  }

  // ... nor in any function that is defined.
  predicate Plain(st: State) {
    (forall k :: k in st.testDefs ==> PlainItems(st.testDefs[k].body))
    && (forall k :: k in st.replaceDefs ==> PlainItems(st.replaceDefs[k].body))
  }

  // What one evaluation from st to st' guarantees; plain says that the code it ran has no bypass block.
  ghost predicate Run(env: Env, st: State, code: Code, st': State, plain: bool) {
    && |st.stack| == |st'.stack| && Grounded(st') && OnlyExported(st, st', 1, |st.stack| - 1)
    && (plain && Plain(st) ==> Plain(st') && code != Diverged && OnlyExported(st, st', 0, |st.stack| - 1))
  }

  lemma KeyTrans(a: State, b: State, c: State, key: Key, from: nat, to: nat)
    requires to <= |a.stack| && to <= |b.stack| && to <= |c.stack| && from <= 1
    requires a.history.exported <= b.history.exported <= c.history.exported
    requires KeyKept(a.stack, b.stack, key, from, to) || KeyExported(a, b, key, from, to)
    requires KeyKept(b.stack, c.stack, key, from, to) || KeyExported(b, c, key, from, to)
    ensures KeyKept(a.stack, c.stack, key, from, to) || KeyExported(a, c, key, from, to)
  {
    var x, y := b.history.exported[|a.history.exported|..], c.history.exported[|b.history.exported|..];
    assert c.history.exported[|a.history.exported|..] == x + y;
  }

  lemma ExportedTrans(a: State, b: State, c: State, from: nat, to: nat)
    requires to <= |a.stack| && to <= |b.stack| && to <= |c.stack| && from <= 1
    requires OnlyExported(a, b, from, to) && OnlyExported(b, c, from, to)
    ensures OnlyExported(a, c, from, to)
  {
    hide KeyKept, KeyExported;
    forall key ensures KeyKept(a.stack, c.stack, key, from, to) || KeyExported(a, c, key, from, to) {
      KeyTrans(a, b, c, key, from, to);
    }
  }

  lemma RunThen(env: Env, st: State, c1: Code, st1: State, p1: bool, c2: Code, st2: State, p2: bool)
    requires Run(env, st, c1, st1, p1) && Run(env, st1, c2, st2, p2)
    ensures Run(env, st, c2, st2, p1 && p2)
  {
    hide OnlyExported;
    ExportedTrans(st, st1, st2, 1, |st.stack| - 1);
    if p1 && p2 && Plain(st) { ExportedTrans(st, st1, st2, 0, |st.stack| - 1); }
  }

  lemma SetTopRun(env: Env, st: State, key: Key, list: StrList)
    requires Grounded(st)
    ensures Run(env, st, ReturnTrue, st.(stack := SetTop(st.stack, key, list)), true)
  {
  }

  lemma ExportRun(env: Env, st: State, key: Key)
    requires Grounded(st)
    ensures Run(env, st, ReturnTrue, Exported(st, key), true)
  {
    var r := Exported(st, key);
    assert r.history.exported[|st.history.exported|..] == [key];
  }

  lemma UnsetRun(env: Env, st: State, key: Key)
    requires Grounded(st)
    ensures Run(env, st, ReturnTrue, st.(stack := Unset(st.stack, key)), true)
  {
  }

  lemma StoreRun(env: Env, st: State, op: AssignOp, key: Key, words: StrList)
    requires Grounded(st) && (op == OpReplace ==> words != [])
    ensures Run(env, st, ReturnTrue, st.(stack := Store(env, op, key, words, st.stack)), true)
  {
    hide Run, Grounded, SetTop;
    match op
    case OpAssign => SetTopRun(env, st, key, RemoveEmpty(words));
    case OpAppend => SetTopRun(env, st, key, Values(st.stack, key) + RemoveEmpty(words));
    case OpAppendUnique => SetTopRun(env, st, key, InsertUnique(Values(st.stack, key), words));
    case OpRemove => SetTopRun(env, st, key, RemoveEach(Values(st.stack, key), words));
    case OpReplace =>
      if IsSubstitution(words[0]) { SetTopRun(env, st, key, env.substitute(words[0], Values(st.stack, key))); }
      else { NoRun(env, st, ReturnTrue); }
  }

  lemma NoRun(env: Env, st: State, code: ProgramCode)
    requires Grounded(st)
    ensures Run(env, st, code, st, true)
  {
  }

  lemma SkipRun(env: Env, st: State, args: Args, code: ProgramCode)
    requires Grounded(st)
    ensures Run(env, st, code, SkipArgs(st, args), true)
  {
  }

  lemma Lift(env: Env, st: State, code: Code, st': State, plain: bool)
    requires Run(env, st, code, st', true)
    ensures Run(env, st, code, st', plain)
  {
  }

  // A clean-up step after the run keeps its code.
  lemma RunAfter(env: Env, st: State, code: Code, st1: State, plain: bool, st2: State)
    requires Run(env, st, code, st1, plain) && Run(env, st1, ReturnTrue, st2, true)
    ensures Run(env, st, code, st2, plain)
  {
    RunThen(env, st, code, st1, plain, ReturnTrue, st2, true);
  }

  lemma LeaveRun(env: Env, st: State, code: Code, st': State, plain: bool)
    requires Run(env, st, code, st', plain)
    ensures Run(env, st, AfterBody(code).code, st', plain)
  {
  }

  lemma Weaken(env: Env, st: State, code: Code, st': State, plain: bool)
    requires Run(env, st, code, st', plain) && (Plain(st) ==> plain)
    ensures Run(env, st, code, st', true)
  {
  }

  lemma Recode(env: Env, st: State, code: Code, other: ProgramCode, st': State)
    requires Run(env, st, code, st', true)
    ensures Run(env, st, other, st', true)
  {
  }

  lemma RunGrounded(env: Env, st: State, code: Code, st': State, plain: bool)
    requires Run(env, st, code, st', plain)
    ensures Grounded(st') && st.history.exported <= st'.history.exported
  {
  }

  lemma BuiltinRun(env: Env, name: Key, args: StrList, st: State)
    requires name in env.testBuiltins && args != [] && Grounded(st)
    ensures var r := Builtin(env, name, args, st); Run(env, st, r.code, r.st, true)
  {
    var r := Builtin(env, name, args, st);
    hide Run, Grounded, Exported, Unset, SetTop;
    NoRun(env, st, ReturnFalse);
    match env.testBuiltins[name]
    case OtherTest => NoRun(env, st, env.otherTest(name, args, ViewOf(st)));
    case ExportVar => ExportRun(env, st, Alias(env, args[0]));
    case ClearVar => SetTopRun(env, st, Alias(env, args[0]), []);
    case UnsetVar => UnsetRun(env, st, Alias(env, args[0]));
  }

  lemma {:induction false} ExprRun(env: Env, e: Expr, p: Partial, joined: bool, st: State, fuel: nat)
    requires p.pending || joined ==> p.words != []
    requires Grounded(st)
    ensures var r := EvalExpr(env, e, p, joined, st, fuel); Run(env, st, r.code, r.st, true)
    decreases fuel, Room(st), e, 0
  {
    hide Run, Grounded, EvalAtom;
    match e
    case ENil => NoRun(env, st, ReturnTrue);
    case ECons(atom, rest) =>
      AtomRun(env, atom, p, joined, st, fuel);
      var r := EvalAtom(env, atom, p, joined, st, fuel);
      if !Stops(r.code) {
        RunGrounded(env, st, r.code, r.st, true);
        ExprRun(env, rest, r.partial, joined, r.st, fuel);
        var s := EvalExpr(env, rest, r.partial, joined, r.st, fuel);
        RunThen(env, st, r.code, r.st, true, s.code, s.st, true);
      }
  }

  lemma {:induction false} AtomRun(env: Env, atom: Atom, p: Partial, joined: bool, st: State, fuel: nat)
    requires p.pending || joined ==> p.words != []
    requires Grounded(st)
    ensures var r := EvalAtom(env, atom, p, joined, st, fuel); Run(env, st, r.code, r.st, true)
    decreases fuel, Room(st), atom, 0
  {
    hide EvalExpand, WithOperand, AddStrList;
    if atom.FuncCall? { ExpandRun(env, atom.name.text, atom.args, st, fuel); }
  }

  lemma {:induction false} VarRefsRun(env: Env, args: Args, words: StrList, joined: bool, st: State, fuel: nat)
    requires Grounded(st)
    ensures var r := EvalVarRefs(env, args, words, joined, st, fuel); Run(env, st, r.code, r.st, true)
    decreases fuel, Room(st), args, 0
  {
    hide Run, Grounded, EvalExpr;
    ExprRun(env, args.arg, Start(words, joined), joined, st, fuel);
    var r := EvalExpr(env, args.arg, Start(words, joined), joined, st, fuel);
    if args.More? && !Stops(r.code) {
      RunGrounded(env, st, r.code, r.st, true);
      VarRefsRun(env, args.more, r.words, joined, r.st, fuel);
      var s := EvalVarRefs(env, args.more, r.words, joined, r.st, fuel);
      RunThen(env, st, r.code, r.st, true, s.code, s.st, true);
    }
  }

  lemma {:induction false} ListArgsRun(env: Env, args: Args, done: seq<StrList>, st: State, fuel: nat)
    requires Grounded(st)
    ensures var r := EvalListArgs(env, args, done, st, fuel); Run(env, st, r.code, r.st, true)
    decreases fuel, Room(st), args, 0
  {
    hide Run, Grounded, EvalExpr;
    ExprRun(env, args.arg, Start([], false), false, st, fuel);
    var r := EvalExpr(env, args.arg, Start([], false), false, st, fuel);
    if args.More? && !Stops(r.code) {
      RunGrounded(env, st, r.code, r.st, true);
      ListArgsRun(env, args.more, done + [r.words], r.st, fuel);
      var s := EvalListArgs(env, args.more, done + [r.words], r.st, fuel);
      RunThen(env, st, r.code, r.st, true, s.code, s.st, true);
    }
  }

  lemma CallArgsRun(env: Env, args: Args, st: State, fuel: nat)
    requires Grounded(st)
    ensures var r := EvalCallArgs(env, args, st, fuel); Run(env, st, r.code, r.st, true)
    decreases fuel, Room(st), args, 1
  {
    hide Run, Grounded, EvalListArgs;
    if args != Last(ENil) { ListArgsRun(env, args, [], st, fuel); } else { NoRun(env, st, ReturnTrue); }
  }

  // What a run of the body in a new frame means for the frames below it.
  ghost predicate CallerKept(st: State, st': State, plain: bool) {
    && |st.stack| == |st'.stack| && Grounded(st') && OnlyExported(st, st', 1, |st.stack|)
    && (plain && Plain(st) ==> Plain(st') && OnlyExported(st, st', 0, |st.stack|))
  }

  // The top frames are dropped.
  lemma FramesBelow(a: State, b: State, c: State, d: State, from: nat, to: nat)
    requires to <= |a.stack| && to <= |b.stack| && to <= |c.stack| && to <= |d.stack|
    requires OnlyExported(a, b, from, to)
    requires c.history.exported == a.history.exported && d.history.exported == b.history.exported
    requires c.stack[..to] == a.stack[..to] && d.stack[..to] == b.stack[..to] && 0 < to
    ensures OnlyExported(c, d, from, to)
  {
    assert forall i :: 0 <= i < to ==> c.stack[i] == c.stack[..to][i] == a.stack[i];
    assert forall i :: 0 <= i < to ==> d.stack[i] == d.stack[..to][i] == b.stack[i];
    forall key ensures KeyKept(c.stack, d.stack, key, from, to) || KeyExported(c, d, key, from, to) {
      assert KeyKept(a.stack, b.stack, key, from, to) || KeyExported(a, b, key, from, to);
    }
  }

  lemma BodyEnds(env: Env, st: State, frame: Frame, inner: State, code: Code, st': State, plain: bool)
    requires inner.stack == st.stack + [frame] && inner.testDefs == st.testDefs && inner.replaceDefs == st.replaceDefs
    requires inner.history.exported == st.history.exported && Run(env, inner, code, st', plain)
    ensures var r := st'.(stack := st'.stack[..|st.stack|], cur := st.cur, retval := [], history := Ended(st'.history));
      CallerKept(st, r, plain)
    ensures plain && Plain(st) ==> code != Diverged
  {
    hide OnlyExported;
    var n := |st.stack|;
    var r := st'.(stack := st'.stack[..n], cur := st.cur, retval := [], history := Ended(st'.history));
    FramesBelow(inner, st', st, r, 1, n);
    if plain && Plain(st) {
      assert Plain(inner);
      FramesBelow(inner, st', st, r, 0, n);
    }
  }

  lemma FewerFrames(a: State, b: State, from: nat, n: nat, m: nat)
    requires m <= n && n <= |a.stack| && n <= |b.stack| && OnlyExported(a, b, from, n)
    ensures OnlyExported(a, b, from, m)
  {
    forall key ensures KeyKept(a.stack, b.stack, key, from, m) || KeyExported(a, b, key, from, m) {
      assert KeyKept(a.stack, b.stack, key, from, n) || KeyExported(a, b, key, from, n);
    }
  }

  lemma CallerRun(env: Env, st: State, code: Code, st': State, plain: bool)
    requires CallerKept(st, st', plain) && (plain && Plain(st) ==> code != Diverged)
    ensures Run(env, st, code, st', plain)
  {
    hide OnlyExported;
    FewerFrames(st, st', 1, |st.stack|, |st.stack| - 1);
    if plain && Plain(st) { FewerFrames(st, st', 0, |st.stack|, |st.stack| - 1); }
  }

  /** A call of a user function without bypass blocks leaves each name of the caller its entries in all
      frames, unless the call led to an export() of that name; then it may be gone from the frames above
      the bottom, and the bottom frame has it. With bypass blocks, this holds above the bottom frame. */
  lemma {:induction false} BodyRun(env: Env, def: Def, args: seq<StrList>, st: State, fuel: nat)
    requires |st.stack| < MAX_DEPTH && Grounded(st)
    ensures var r := EvalBody(env, def, args, st, fuel);
      && Run(env, st, r.code, r.st, PlainItems(def.body))
      && OnlyExported(st, r.st, 1, |st.stack|)
      && (PlainItems(def.body) && Plain(st) ==> OnlyExported(st, r.st, 0, |st.stack|))
    decreases fuel, Room(st) - 1
  {
    hide Run, EvalItems, OnlyExported;
    var inner := st.(stack := st.stack + [CallFrame(args)], cur := Location(def.pro, 0));
    assert Grounded(inner);
    ItemsRun(env, def.body, START, inner, fuel);
    var r := EvalItems(env, def.body, START, inner, fuel);
    BodyEnds(env, st, CallFrame(args), inner, r.code, r.st, PlainItems(def.body));
    var code := if r.code == ReturnReturn then ReturnTrue else r.code;
    CallerRun(env, st, code, EvalBody(env, def, args, st, fuel).st, PlainItems(def.body));
  }

  lemma {:induction false} ExpandRun(env: Env, name: Key, args: Args, st: State, fuel: nat)
    requires Grounded(st)
    ensures var r := EvalExpand(env, name, args, st, fuel); Run(env, st, r.code, r.st, true)
    decreases fuel, Room(st), args, 2
  {
    hide Run, Grounded, EvalBody, EvalVarRefs, EvalCallArgs;
    if name in env.expands {
      VarRefsRun(env, args, [], true, st, fuel);
      var a := EvalVarRefs(env, args, [], true, st, fuel);
      if !Stops(a.code) {
        RunGrounded(env, st, a.code, a.st, true);
        NoRun(env, a.st, env.expand(name, a.words, ViewOf(a.st)).code);
        RunThen(env, st, a.code, a.st, true, env.expand(name, a.words, ViewOf(a.st)).code, a.st, true);
      }
    } else if name in st.replaceDefs {
      CallArgsRun(env, args, st, fuel);
      var a := EvalCallArgs(env, args, st, fuel);
      if !Stops(a.code) {
        RunGrounded(env, st, a.code, a.st, true);
        if |a.st.stack| >= MAX_DEPTH {
          NoRun(env, a.st, ReturnError);
          RunThen(env, st, a.code, a.st, true, ReturnError, a.st, true);
        } else {
          var def := a.st.replaceDefs[name];
          assert Plain(a.st) ==> PlainItems(def.body);
          hide Plain, PlainItems;
          BodyRun(env, def, a.args, a.st, fuel);
          var r := EvalBody(env, def, a.args, a.st, fuel);
          Weaken(env, a.st, r.code, r.st, PlainItems(def.body));
          var code := r.code;
          RunThen(env, st, a.code, a.st, true, code, r.st, true);
        }
      }
    } else {
      SkipRun(env, st, args, ReturnFalse);
    }
  }

  lemma {:induction false} TestRun(env: Env, name: Key, args: Args, st: State, fuel: nat)
    requires Grounded(st)
    ensures var r := EvalTest(env, name, args, st, fuel); Run(env, st, r.code, r.st, true)
    decreases fuel, Room(st), args, 2
  {
    hide Run, Grounded, EvalBody, EvalVarRefs, EvalCallArgs, Builtin;
    if name in env.testBuiltins {
      VarRefsRun(env, args, [], true, st, fuel);
      var a := EvalVarRefs(env, args, [], true, st, fuel);
      if !Stops(a.code) {
        RunGrounded(env, st, a.code, a.st, true);
        BuiltinRun(env, name, a.words, a.st);
        var r := Builtin(env, name, a.words, a.st);
        RunThen(env, st, a.code, a.st, true, r.code, r.st, true);
      }
    } else if name in st.testDefs {
      CallArgsRun(env, args, st, fuel);
      var a := EvalCallArgs(env, args, st, fuel);
      if !Stops(a.code) {
        RunGrounded(env, st, a.code, a.st, true);
        if |a.st.stack| >= MAX_DEPTH {
          NoRun(env, a.st, ReturnError);
          RunThen(env, st, a.code, a.st, true, ReturnError, a.st, true);
        } else {
          var def := a.st.testDefs[name];
          assert Plain(a.st) ==> PlainItems(def.body);
          hide Plain, PlainItems;
          BodyRun(env, def, a.args, a.st, fuel);
          var r := EvalBody(env, def, a.args, a.st, fuel);
          Weaken(env, a.st, r.code, r.st, PlainItems(def.body));
          Recode(env, a.st, r.code, TestResult(env, r.words), r.st);
          var code := if r.code == ReturnTrue then TestResult(env, r.words) else r.code;
          RunThen(env, st, a.code, a.st, true, code, r.st, true);
        }
      }
    } else {
      SkipRun(env, st, args, ReturnFalse);
    }
  }

  lemma LiftItem(env: Env, st: State, code: Code, st': State, item: Item, rest: Items)
    requires Run(env, st, code, st', PlainItem(item))
    ensures Run(env, st, code, st', PlainItems(Then(item, rest)))
  {
  }

  lemma {:induction false} ItemsRun(env: Env, items: Items, regs: Regs, st: State, fuel: nat)
    requires Grounded(st)
    ensures var r := EvalItems(env, items, regs, st, fuel); Run(env, st, r.code, r.st, PlainItems(items))
    decreases fuel, Room(st), items, 0
  {
    hide Run, Grounded, EvalItem;
    match items
    case Done => NoRun(env, st, if regs.okey then ReturnTrue else ReturnFalse);
    case Then(item, rest) =>
      ItemRun(env, item, regs, st, fuel);
      match EvalItem(env, item, regs, st, fuel)
      case Go(regs', st') =>
        RunGrounded(env, st, ReturnTrue, st', PlainItem(item));
        ItemsRun(env, rest, regs', st', fuel);
        var r := EvalItems(env, rest, regs', st', fuel);
        RunThen(env, st, ReturnTrue, st', PlainItem(item), r.code, r.st, PlainItems(rest));
      case Abort(code, st') => LiftItem(env, st, code, st', item, rest);
  }

  lemma {:induction false} BlockRun(env: Env, b: Block, st: State, fuel: nat)
    requires Grounded(st)
    ensures var r := EvalBlock(env, b, st, fuel); Run(env, st, r.code, r.st, PlainBlock(b))
    decreases fuel, Room(st), b, 0
  {
    if b.Present? { ItemsRun(env, b.items, START, st, fuel); }
  }

  // The frames above the bottom were put aside.
  lemma BypassedRun(env: Env, st: State, code: Code, st': State)
    requires |st.stack| == |st'.stack| && Grounded(st') && st'.stack[1..] == st.stack[1..]
    requires st.history.exported <= st'.history.exported
    ensures Run(env, st, code, st', false)
  {
    forall i | 1 <= i < |st.stack| ensures st'.stack[i] == st.stack[i] {
      assert st'.stack[1..][i - 1] == st.stack[1..][i - 1];
    }
  }

  lemma {:induction false} BypassRun(env: Env, b: Block, st: State, fuel: nat)
    requires Grounded(st)
    ensures var r := EvalBypass(env, b, st, fuel);
      Run(env, st, r.code, r.st, false) && r.st.stack[1..] == st.stack[1..]
    decreases fuel, Room(st), b, 1
  {
    if |st.stack| == 1 {
      BlockRun(env, b, st, fuel);
      var r := EvalBlock(env, b, st, fuel);
      BypassedRun(env, st, r.code, r.st);
    } else if fuel > 0 {
      hide Run, EvalBlock;
      var inner := st.(stack := [st.stack[0]]);
      BlockRun(env, b, inner, fuel - 1);
      var r := EvalBlock(env, b, inner, fuel - 1);
      RunGrounded(env, inner, r.code, r.st, PlainBlock(b));
      BypassedRun(env, st, r.code, r.st.(stack := r.st.stack + st.stack[1..]));
    } else {
      BypassedRun(env, st, Diverged, st);
    }
  }

  lemma {:induction false} AssignRun(env: Env, op: AssignOp, curr: StrList, rhs: Args, st: State, fuel: nat)
    requires Grounded(st)
    ensures var r := EvalAssign(env, op, curr, rhs, st, fuel); Run(env, st, r.code, r.st, true)
    decreases fuel, Room(st), rhs, 1
  {
    hide Run, Grounded, EvalVarRefs, Store;
    if |curr| != 1 {
      SkipRun(env, st, rhs, ReturnTrue);
    } else {
      VarRefsRun(env, rhs, [], op == OpReplace, st, fuel);
      var r := EvalVarRefs(env, rhs, [], op == OpReplace, st, fuel);
      if !Stops(r.code) {
        RunGrounded(env, st, r.code, r.st, true);
        StoreRun(env, r.st, op, Alias(env, curr[0]), r.words);
        RunThen(env, st, r.code, r.st, true, ReturnTrue,
                r.st.(stack := Store(env, op, Alias(env, curr[0]), r.words, r.st.stack)), true);
      }
    }
  }

  lemma {:induction false} LoopRun(env: Env, loop: Item, st: State, fuel: nat)
    requires loop.ForLoop? && Grounded(st)
    ensures var r := EvalLoop(env, loop, st, fuel); Run(env, st, r.code, r.st, PlainItem(loop))
    decreases fuel, Room(st), loop, 0, 2
  {
    hide Run, Grounded, EvalVarRefs, Iterate, SetTop;
    VarRefsRun(env, loop.list, [], true, st, fuel);
    var e := EvalVarRefs(env, loop.list, [], true, st, fuel);
    var anonymous := loop.variable.text == [];
    var plain := PlainItem(loop);
    if Stops(e.code) {
      Lift(env, st, e.code, e.st, plain);
    } else if anonymous && e.words[0] != Text("ever") {
      Recode(env, st, e.code, ReturnFalse, e.st);
      Lift(env, st, ReturnFalse, e.st, plain);
    } else {
      RunGrounded(env, st, e.code, e.st, true);
      var listName := if anonymous then Text("forever") else e.words[0];
      var variable := if anonymous then [] else Alias(env, loop.variable.text);
      var saved := if anonymous then [] else Values(e.st.stack, variable);
      var named := Values(e.st.stack, listName);
      var infinite := named == [] && listName == Text("forever");
      var list := if named == [] && !infinite then Range(env, listName) else named;
      IterateRun(env, loop, variable, infinite, list, 0, ReturnTrue, e.st, fuel);
      var r := Iterate(env, loop, variable, infinite, list, 0, ReturnTrue, e.st, fuel);
      RunThen(env, st, e.code, e.st, true, r.code, r.st, plain);
      if variable != [] {
        RunGrounded(env, st, r.code, r.st, plain);
        SetTopRun(env, r.st, variable, saved);
        RunAfter(env, st, r.code, r.st, plain, r.st.(stack := SetTop(r.st.stack, variable, saved)));
      }
    }
  }

  lemma {:induction false} IterateRun(env: Env, loop: Item, variable: Key, infinite: bool, list: StrList, index: nat,
                                      last: Code, st: State, fuel: nat)
    requires loop.ForLoop? && Grounded(st) && last != Diverged
    requires if infinite then index <= MAX_ITERATIONS else index <= |list|
    ensures var r := Iterate(env, loop, variable, infinite, list, index, last, st, fuel);
      Run(env, st, r.code, r.st, PlainItem(loop))
    decreases fuel, Room(st), loop, 0, 1, if infinite then MAX_ITERATIONS - index else |list| - index
  {
    hide Run, Grounded, EvalItems, SetTop;
    var plain := PlainItem(loop);
    if !infinite && index == |list| {
      NoRun(env, st, last);
      Lift(env, st, last, st, plain);
    } else if !infinite && list[index] == [] {
      IterateRun(env, loop, variable, infinite, list, index + 1, last, st, fuel);
    } else {
      var value := if infinite then Number(index) else list[index];
      var st' := if infinite && variable == [] then st else SetLoopVar(st, variable, value);
      SetTopRun(env, st, variable, [value]);
      NoRun(env, st, ReturnTrue);
      RunGrounded(env, st, ReturnTrue, st', true);
      if infinite && index == MAX_ITERATIONS {
        Recode(env, st, ReturnTrue, last, st');
        Lift(env, st, last, st', plain);
      } else {
        ItemsRun(env, loop.body, START, st', fuel);
        var r := EvalItems(env, loop.body, START, st', fuel);
        RunThen(env, st, ReturnTrue, st', true, r.code, r.st, plain);
        match AfterBody(r.code)
        case Again(code) =>
          RunGrounded(env, st, r.code, r.st, plain);
          IterateRun(env, loop, variable, infinite, list, index + 1, code, r.st, fuel);
          var n := Iterate(env, loop, variable, infinite, list, index + 1, code, r.st, fuel);
          RunThen(env, st, r.code, r.st, plain, n.code, n.st, plain);
        case Leave(code) =>
          LeaveRun(env, st, r.code, r.st, plain);
      }
    }
  }

  // The items that evaluate something, if they are selected.
  predicate Evaluates(item: Item, regs: Regs) {
    var go := regs.okey != regs.orOp;
    match item
    case Words(_) => true
    case Assign(_, _, _) => true
    case Branch(_, _) => true
    case ForLoop(_, _, _) => go
    case Bypass(b) => go && b.Present?
    case TestCall(_) => go && |regs.curr| == 1
    case _ => false
  }

  // What they evaluate.
  function Evaluated(env: Env, item: Item, regs: Regs, st: State, fuel: nat): Outcome
    requires Evaluates(item, regs)
  {
    match item
    case Words(e) => var r := EvalExpr(env, e, Start(regs.curr, false), false, st, fuel); Outcome(r.code, r.st)
    case Assign(op, _, rhs) => EvalAssign(env, op, regs.curr, rhs, st, fuel)
    case Branch(t, e) => EvalBlock(env, if regs.okey then t else e, st, fuel)
    case ForLoop(_, _, _) => EvalLoop(env, item, st, fuel)
    case Bypass(b) => EvalBypass(env, b, st, fuel)
    case TestCall(args) => EvalTest(env, regs.curr[0], args, st, fuel)
  }

  predicate PlainEvaluated(item: Item, regs: Regs) {
    match item
    case Branch(t, e) => PlainBlock(if regs.okey then t else e)
    case ForLoop(_, _, _) => PlainItem(item)
    case Bypass(_) => false
    case _ => true
  }

  lemma EvaluatedStep(env: Env, item: Item, regs: Regs, st: State, fuel: nat)
    requires Evaluates(item, regs)
    ensures var step, r := EvalItem(env, item, regs, st, fuel), Evaluated(env, item, regs, st, fuel);
      StateOf(step) == r.st && (step.Abort? ==> step.code == r.code) && (r.code == Diverged ==> step.Abort?)
  {
    hide EvalExpr, EvalAssign, EvalBlock, EvalLoop, EvalBypass, EvalTest, EvalItems;
  }

  // Another code for the same run, of which less may be known.
  lemma Adapt(env: Env, st: State, code: Code, st': State, p1: bool, other: Code, p2: bool)
    requires Run(env, st, code, st', p1) && (p2 ==> p1) && (other == code || other != Diverged)
    ensures Run(env, st, other, st', p2)
  {
  }

  lemma QuietItemRun(env: Env, item: Item, regs: Regs, st: State, fuel: nat)
    requires Grounded(st) && !Evaluates(item, regs)
    ensures var r := EvalItem(env, item, regs, st, fuel);
      Run(env, st, if r.Abort? then r.code else ReturnTrue, StateOf(r), PlainItem(item))
  {
    hide Grounded, KeyKept, KeyGone;
    var r := EvalItem(env, item, regs, st, fuel);
    SameStackRun(env, st, if r.Abort? then r.code else ReturnTrue, StateOf(r), PlainItem(item));
  }

  lemma SameStackRun(env: Env, st: State, code: Code, st': State, plain: bool)
    requires Grounded(st) && st'.stack == st.stack && st'.history.exported == st.history.exported
    requires code != Diverged && (plain && Plain(st) ==> Plain(st'))
    ensures Run(env, st, code, st', plain)
  {
  }

  lemma {:induction false} ItemRun(env: Env, item: Item, regs: Regs, st: State, fuel: nat)
    requires Grounded(st)
    ensures var r := EvalItem(env, item, regs, st, fuel);
      Run(env, st, if r.Abort? then r.code else ReturnTrue, StateOf(r), PlainItem(item))
    decreases fuel, Room(st), item, 1
  {
    hide EvalExpr, EvalAssign, EvalBlock, EvalLoop, EvalBypass, EvalTest, EvalItems, Run, Grounded;
    if Evaluates(item, regs) {
      var r := Evaluated(env, item, regs, st, fuel);
      var plain := PlainItem(item);
      match item {
        case Words(e) => ExprRun(env, e, Start(regs.curr, false), false, st, fuel);
        case Assign(op, _, rhs) => AssignRun(env, op, regs.curr, rhs, st, fuel);
        case Branch(t, e) => BlockRun(env, if regs.okey then t else e, st, fuel);
        case ForLoop(_, _, _) => LoopRun(env, item, st, fuel);
        case Bypass(b) => BypassRun(env, b, st, fuel);
        case TestCall(args) => TestRun(env, regs.curr[0], args, st, fuel);
      }
      EvaluatedStep(env, item, regs, st, fuel);
      var step := EvalItem(env, item, regs, st, fuel);
      Adapt(env, st, r.code, r.st, PlainEvaluated(item, regs), if step.Abort? then step.code else ReturnTrue, plain);
    } else {
      QuietItemRun(env, item, regs, st, fuel);
    }
  }

  /** A call without bypass blocks that exports nothing leaves all frames of the caller as they are. */
  lemma CallerUnchanged(env: Env, def: Def, args: seq<StrList>, st: State, fuel: nat)
    requires |st.stack| < MAX_DEPTH && Grounded(st) && PlainItems(def.body) && Plain(st)
    requires EvalBody(env, def, args, st, fuel).st.history.exported == st.history.exported
    ensures EvalBody(env, def, args, st, fuel).st.stack == st.stack
  {
    BodyRun(env, def, args, st, fuel);
    hide EvalBody, Run, Grounded, PlainItems, Plain;
    var r := EvalBody(env, def, args, st, fuel).st;
    forall i | 0 <= i < |st.stack| ensures r.stack[i] == st.stack[i] {
      forall key ensures SameEntry(st.stack[i], r.stack[i], key) {
        assert !KeyExported(st, r, key, 0, |st.stack|);
        assert KeyKept(st.stack, r.stack, key, 0, |st.stack|);
      }
      SameFrames(st.stack[i], r.stack[i]);
    }
  }

  lemma SameFrames(a: Frame, b: Frame)
    requires forall key :: SameEntry(a, b, key)
    ensures a == b
  {
    assert forall key :: SameEntry(a, b, key) ==> (key in a <==> key in b);
  }
}
