/** Fuel is not part of the program: once an evaluation does not diverge, more fuel changes nothing,
    and without bypass blocks no fuel is needed. Also: evaluation ends on the line that skipping does. */
module QmakeTermination {
  import opened QmakeProgram
  import opened QmakeValues
  import opened QmakeSemantics
  import opened QmakeScoping

  /** Every program without bypass blocks terminates, from every state whose functions have none:
      the recursion limit and the limit on forever loops are enough. */
  lemma Terminates(env: Env, items: Items, st: State, fuel: nat)
    requires Grounded(st) && Plain(st) && PlainItems(items)
    ensures EvalItems(env, items, START, st, fuel).code != Diverged
    ensures EvalItems(env, items, START, st, fuel) == EvalItems(env, items, START, st, 0)
  {
    ItemsRun(env, items, START, st, 0);
    ItemsFuel(env, items, START, st, 0, fuel);
  }

  // A function that calls itself from a bypass block: whatever its name, what follows the call in
  // the block, and what follows the block in the body.
  function SelfCall(n: Name, more: Items): Items {
    Then(Words(NameWord(n)), Then(TestCall(Last(ENil)), more))
  }

  function NameWord(n: Name): Expr {
    ECons(HashLiteral(Flags(true, false), n), ENil)
  }

  function LooperBody(n: Name, more: Items, rest: Items): Items {
    Then(Bypass(Present(SelfCall(n, more))), rest)
  }

  predicate CallsItself(env: Env, n: Name, more: Items, rest: Items, st: State) {
    n.text !in env.testBuiltins && n.text in st.testDefs && st.testDefs[n.text].body == LooperBody(n, more, rest)
  }

  // The name of the function is the only word in front of the call.
  lemma LooperNamed(env: Env, n: Name, st: State, fuel: nat)
    ensures EvalItem(env, Words(NameWord(n)), START, st, fuel) == Go(START.(curr := [n.text]), st)
  {
    assert EvalExpr(env, NameWord(n), Start([], false), false, st, fuel) == ExprOutcome(ReturnTrue, [n.text], st);
  }

  lemma LooperCalled(env: Env, n: Name, more: Items, st: State, fuel: nat)
    requires EvalTest(env, n.text, Last(ENil), st, fuel).code == Diverged
    ensures EvalItems(env, SelfCall(n, more), START, st, fuel).code == Diverged
  {
    hide EvalTest;
    var regs := START.(curr := [n.text]);
    LooperNamed(env, n, st, fuel);
    hide EvalExpr;
    assert EvalItem(env, TestCall(Last(ENil)), regs, st, fuel).Abort?;
    assert EvalItems(env, Then(TestCall(Last(ENil)), more), regs, st, fuel).code == Diverged;
  }

  function Entered(n: Name, st: State): State
    requires n.text in st.testDefs
  {
    st.(stack := st.stack + [CallFrame([])], cur := Location(st.testDefs[n.text].pro, 0))
  }

  lemma LooperEntered(env: Env, n: Name, more: Items, rest: Items, st: State, fuel: nat)
    requires CallsItself(env, n, more, rest, st) && |st.stack| < MAX_DEPTH
    requires EvalItems(env, LooperBody(n, more, rest), START, Entered(n, st), fuel).code == Diverged
    ensures EvalTest(env, n.text, Last(ENil), st, fuel).code == Diverged
  {
    hide EvalItems;
    assert EvalCallArgs(env, Last(ENil), st, fuel) == ArgsOutcome(ReturnTrue, [], st);
  }

  lemma BypassDiverges(env: Env, block: Items, rest: Items, st: State, fuel: nat)
    requires |st.stack| > 1
    requires fuel > 0 ==> EvalItems(env, block, START, st.(stack := [st.stack[0]]), fuel - 1).code == Diverged
    ensures EvalItems(env, Then(Bypass(Present(block)), rest), START, st, fuel).code == Diverged
  {
    assert EvalBypass(env, Present(block), st, fuel).code == Diverged;
    hide EvalBypass;
    assert EvalItem(env, Bypass(Present(block)), START, st, fuel).Abort?;
  }

  /** Such a function diverges: whatever the fuel, it is used up. */
  lemma {:induction false} BypassRecursionDiverges(env: Env, n: Name, more: Items, rest: Items, after: Items,
                                                   st: State, fuel: nat)
    requires |st.stack| == 1 && CallsItself(env, n, more, rest, st)
    ensures EvalItems(env, SelfCall(n, after), START, st, fuel).code == Diverged
    decreases fuel
  {
    hide EvalItems, EvalTest;
    var inner := Entered(n, st);
    if fuel > 0 {
      BypassRecursionDiverges(env, n, more, rest, more, inner.(stack := [inner.stack[0]]), fuel - 1);
    }
    BypassDiverges(env, SelfCall(n, more), rest, inner, fuel);
    LooperEntered(env, n, more, rest, st, fuel);
    LooperCalled(env, n, after, st, fuel);
  }

  /* ---- more fuel changes nothing ---- */

  lemma {:induction false} ExprFuel(env: Env, e: Expr, p: Partial, joined: bool, st: State, f: nat, g: nat)
    requires p.pending || joined ==> p.words != []
    requires f <= g && EvalExpr(env, e, p, joined, st, f).code != Diverged
    ensures EvalExpr(env, e, p, joined, st, g) == EvalExpr(env, e, p, joined, st, f)
    decreases f, Room(st), e, 0
  {
    hide EvalAtom;
    if e.ECons? {
      AtomFuel(env, e.atom, p, joined, st, f, g);
      var r := EvalAtom(env, e.atom, p, joined, st, f);
      if !Stops(r.code) { ExprFuel(env, e.rest, r.partial, joined, r.st, f, g); }
    }
  }

  lemma {:induction false} AtomFuel(env: Env, atom: Atom, p: Partial, joined: bool, st: State, f: nat, g: nat)
    requires p.pending || joined ==> p.words != []
    requires f <= g && EvalAtom(env, atom, p, joined, st, f).code != Diverged
    ensures EvalAtom(env, atom, p, joined, st, g) == EvalAtom(env, atom, p, joined, st, f)
    decreases f, Room(st), atom, 0
  {
    hide EvalExpand, WithOperand, AddStrList;
    if atom.FuncCall? { ExpandFuel(env, atom.name.text, atom.args, st, f, g); }
  }

  lemma {:induction false} VarRefsFuel(env: Env, args: Args, words: StrList, joined: bool, st: State, f: nat, g: nat)
    requires f <= g && EvalVarRefs(env, args, words, joined, st, f).code != Diverged
    ensures EvalVarRefs(env, args, words, joined, st, g) == EvalVarRefs(env, args, words, joined, st, f)
    decreases f, Room(st), args, 0
  {
    hide EvalExpr;
    ExprFuel(env, args.arg, Start(words, joined), joined, st, f, g);
    var r := EvalExpr(env, args.arg, Start(words, joined), joined, st, f);
    if args.More? && !Stops(r.code) { VarRefsFuel(env, args.more, r.words, joined, r.st, f, g); }
  }

  lemma {:induction false} ListArgsFuel(env: Env, args: Args, done: seq<StrList>, st: State, f: nat, g: nat)
    requires f <= g && EvalListArgs(env, args, done, st, f).code != Diverged
    ensures EvalListArgs(env, args, done, st, g) == EvalListArgs(env, args, done, st, f)
    decreases f, Room(st), args, 0
  {
    hide EvalExpr;
    ExprFuel(env, args.arg, Start([], false), false, st, f, g);
    var r := EvalExpr(env, args.arg, Start([], false), false, st, f);
    if args.More? && !Stops(r.code) { ListArgsFuel(env, args.more, done + [r.words], r.st, f, g); }
  }

  lemma CallArgsFuel(env: Env, args: Args, st: State, f: nat, g: nat)
    requires f <= g && EvalCallArgs(env, args, st, f).code != Diverged
    ensures EvalCallArgs(env, args, st, g) == EvalCallArgs(env, args, st, f)
    decreases f, Room(st), args, 1
  {
    hide EvalListArgs;
    if args != Last(ENil) { ListArgsFuel(env, args, [], st, f, g); }
  }

  lemma {:induction false} BodyFuel(env: Env, def: Def, args: seq<StrList>, st: State, f: nat, g: nat)
    requires |st.stack| < MAX_DEPTH
    requires f <= g && EvalBody(env, def, args, st, f).code != Diverged
    ensures EvalBody(env, def, args, st, g) == EvalBody(env, def, args, st, f)
    decreases f, Room(st) - 1
  {
    hide EvalItems, CallFrame;
    var inner := st.(stack := st.stack + [CallFrame(args)], cur := Location(def.pro, 0));
    ItemsFuel(env, def.body, START, inner, f, g);
  }

  lemma {:induction false} ExpandFuel(env: Env, name: Key, args: Args, st: State, f: nat, g: nat)
    requires f <= g && EvalExpand(env, name, args, st, f).code != Diverged
    ensures EvalExpand(env, name, args, st, g) == EvalExpand(env, name, args, st, f)
    decreases f, Room(st), args, 2
  {
    hide EvalVarRefs, EvalCallArgs, EvalBody;
    if name in env.expands {
      VarRefsFuel(env, args, [], true, st, f, g);
    } else if name in st.replaceDefs {
      CallArgsFuel(env, args, st, f, g);
      var a := EvalCallArgs(env, args, st, f);
      if !Stops(a.code) && |a.st.stack| < MAX_DEPTH { BodyFuel(env, a.st.replaceDefs[name], a.args, a.st, f, g); }
    }
  }

  lemma {:induction false} TestFuel(env: Env, name: Key, args: Args, st: State, f: nat, g: nat)
    requires f <= g && EvalTest(env, name, args, st, f).code != Diverged
    ensures EvalTest(env, name, args, st, g) == EvalTest(env, name, args, st, f)
    decreases f, Room(st), args, 2
  {
    hide EvalVarRefs, EvalCallArgs, EvalBody, Builtin, TestResult;
    if name in env.testBuiltins {
      VarRefsFuel(env, args, [], true, st, f, g);
    } else if name in st.testDefs {
      CallArgsFuel(env, args, st, f, g);
      var a := EvalCallArgs(env, args, st, f);
      if !Stops(a.code) && |a.st.stack| < MAX_DEPTH { BodyFuel(env, a.st.testDefs[name], a.args, a.st, f, g); }
    }
  }

  lemma {:induction false} ItemsFuel(env: Env, items: Items, regs: Regs, st: State, f: nat, g: nat)
    requires f <= g && EvalItems(env, items, regs, st, f).code != Diverged
    ensures EvalItems(env, items, regs, st, g) == EvalItems(env, items, regs, st, f)
    decreases f, Room(st), items, 0
  {
    hide EvalItem;
    if items.Then? {
      ItemFuel(env, items.item, regs, st, f, g);
      match EvalItem(env, items.item, regs, st, f)
      case Go(regs', st') => ItemsFuel(env, items.rest, regs', st', f, g);
      case Abort(_, _) =>
    }
  }

  lemma {:induction false} BlockFuel(env: Env, b: Block, st: State, f: nat, g: nat)
    requires f <= g && EvalBlock(env, b, st, f).code != Diverged
    ensures EvalBlock(env, b, st, g) == EvalBlock(env, b, st, f)
    decreases f, Room(st), b, 0
  {
    hide EvalItems;
    if b.Present? { ItemsFuel(env, b.items, START, st, f, g); }
  }

  lemma {:induction false} BypassFuel(env: Env, b: Block, st: State, f: nat, g: nat)
    requires f <= g && EvalBypass(env, b, st, f).code != Diverged
    ensures EvalBypass(env, b, st, g) == EvalBypass(env, b, st, f)
    decreases f, Room(st), b, 1
  {
    hide EvalBlock;
    if |st.stack| == 1 { BlockFuel(env, b, st, f, g); }
    else { BlockFuel(env, b, st.(stack := [st.stack[0]]), f - 1, g - 1); }
  }

  lemma {:induction false} LoopFuel(env: Env, loop: Item, st: State, f: nat, g: nat)
    requires loop.ForLoop?
    requires f <= g && EvalLoop(env, loop, st, f).code != Diverged
    ensures EvalLoop(env, loop, st, g) == EvalLoop(env, loop, st, f)
    decreases f, Room(st), loop, 0, 2
  {
    hide EvalVarRefs, Iterate, SetTop, Values, Range;
    VarRefsFuel(env, loop.list, [], true, st, f, g);
    var e := EvalVarRefs(env, loop.list, [], true, st, f);
    var anonymous := loop.variable.text == [];
    if !Stops(e.code) && (!anonymous || e.words[0] == Text("ever")) {
      var listName := if anonymous then Text("forever") else e.words[0];
      var variable := if anonymous then [] else Alias(env, loop.variable.text);
      var named := Values(e.st.stack, listName);
      var infinite := named == [] && listName == Text("forever");
      var list := if named == [] && !infinite then Range(env, listName) else named;
      IterateFuel(env, loop, variable, infinite, list, 0, ReturnTrue, e.st, f, g);
    }
  }

  lemma {:induction false} IterateFuel(env: Env, loop: Item, variable: Key, infinite: bool, list: StrList, index: nat,
                                       last: Code, st: State, f: nat, g: nat)
    requires loop.ForLoop?
    requires if infinite then index <= MAX_ITERATIONS else index <= |list|
    requires f <= g && Iterate(env, loop, variable, infinite, list, index, last, st, f).code != Diverged
    ensures Iterate(env, loop, variable, infinite, list, index, last, st, g)
         == Iterate(env, loop, variable, infinite, list, index, last, st, f)
    decreases f, Room(st), loop, 0, 1, if infinite then MAX_ITERATIONS - index else |list| - index
  {
    hide EvalItems, SetTop;
    if !infinite && index == |list| {
    } else if !infinite && list[index] == [] {
      IterateFuel(env, loop, variable, infinite, list, index + 1, last, st, f, g);
    } else {
      var value := if infinite then Number(index) else list[index];
      var st' := if infinite && variable == [] then st else SetLoopVar(st, variable, value);
      if !(infinite && index == MAX_ITERATIONS) {
        ItemsFuel(env, loop.body, START, st', f, g);
        var r := EvalItems(env, loop.body, START, st', f);
        match AfterBody(r.code)
        case Again(code) => IterateFuel(env, loop, variable, infinite, list, index + 1, code, r.st, f, g);
        case Leave(code) =>
      }
    }
  }

  lemma {:induction false} ItemFuel(env: Env, item: Item, regs: Regs, st: State, f: nat, g: nat)
    requires f <= g
    requires var r := EvalItem(env, item, regs, st, f); !(r.Abort? && r.code == Diverged)
    ensures EvalItem(env, item, regs, st, g) == EvalItem(env, item, regs, st, f)
    decreases f, Room(st), item, 1
  {
    hide EvalExpr, EvalVarRefs, EvalBlock, EvalLoop, EvalBypass, EvalTest, EvalItems, Store;
    var go := regs.okey != regs.orOp;
    match item
    case Words(e) => ExprFuel(env, e, Start(regs.curr, false), false, st, f, g);
    case Assign(op, _, rhs) =>
      if |regs.curr| == 1 { VarRefsFuel(env, rhs, [], op == OpReplace, st, f, g); }
    case Branch(t, e) => BlockFuel(env, if regs.okey then t else e, st, f, g);
    case ForLoop(_, _, _) => if go { LoopFuel(env, item, st, f, g); }
    case Bypass(b) => if go && b.Present? { BypassFuel(env, b, st, f, g); }
    case TestCall(args) => if go && |regs.curr| == 1 { TestFuel(env, regs.curr[0], args, st, f, g); }
    case _ =>
  }

  /* ---- evaluation and skipping end on the same line ---- */

  lemma {:induction false} ExprLine(env: Env, e: Expr, p: Partial, joined: bool, st: State, fuel: nat)
    requires p.pending || joined ==> p.words != []
    ensures var r := EvalExpr(env, e, p, joined, st, fuel);
      r.code == ReturnTrue ==> r.st.cur == st.cur.(line := LineAfterExpr(e, st.cur.line))
    decreases e
  {
    hide EvalAtom;
    if e.ECons? {
      AtomLine(env, e.atom, p, joined, st, fuel);
      var r := EvalAtom(env, e.atom, p, joined, st, fuel);
      if !Stops(r.code) { ExprLine(env, e.rest, r.partial, joined, r.st, fuel); }
    }
  }

  lemma {:induction false} AtomLine(env: Env, atom: Atom, p: Partial, joined: bool, st: State, fuel: nat)
    requires p.pending || joined ==> p.words != []
    ensures var r := EvalAtom(env, atom, p, joined, st, fuel);
      r.code == ReturnTrue ==> r.st.cur == st.cur.(line := LineAfterAtom(atom, st.cur.line))
    decreases atom
  {
    hide EvalExpand, WithOperand, AddStrList;
    if atom.FuncCall? { ExpandLine(env, atom.name.text, atom.args, st, fuel); }
  }

  lemma {:induction false} VarRefsLine(env: Env, args: Args, words: StrList, joined: bool, st: State, fuel: nat)
    ensures var r := EvalVarRefs(env, args, words, joined, st, fuel);
      r.code == ReturnTrue ==> r.st.cur == SkipArgs(st, args).cur
    decreases args, 0
  {
    hide EvalExpr;
    ExprLine(env, args.arg, Start(words, joined), joined, st, fuel);
    var r := EvalExpr(env, args.arg, Start(words, joined), joined, st, fuel);
    if args.More? && !Stops(r.code) { VarRefsLine(env, args.more, r.words, joined, r.st, fuel); }
  }

  lemma {:induction false} ListArgsLine(env: Env, args: Args, done: seq<StrList>, st: State, fuel: nat)
    ensures var r := EvalListArgs(env, args, done, st, fuel);
      r.code == ReturnTrue ==> r.st.cur == SkipArgs(st, args).cur
    decreases args, 0
  {
    hide EvalExpr;
    ExprLine(env, args.arg, Start([], false), false, st, fuel);
    var r := EvalExpr(env, args.arg, Start([], false), false, st, fuel);
    if args.More? && !Stops(r.code) { ListArgsLine(env, args.more, done + [r.words], r.st, fuel); }
  }

  // For $$func(...): builtin, user-defined or unknown, unless the evaluation stops with an error.
  lemma {:induction false} ExpandLine(env: Env, name: Key, args: Args, st: State, fuel: nat)
    ensures var r := EvalExpand(env, name, args, st, fuel);
      !Stops(r.code) ==> r.st.cur == SkipArgs(st, args).cur
    decreases args, 1
  {
    hide EvalVarRefs, EvalListArgs, EvalItems;
    VarRefsLine(env, args, [], true, st, fuel);
    ListArgsLine(env, args, [], st, fuel);
    assert LineAfterArgs(Last(ENil), st.cur.line) == st.cur.line;
  }

  lemma TestResultCode(env: Env)
    ensures forall ret :: !Stops(TestResult(env, ret))
  {
  }

  // For test(...).
  lemma TestLine(env: Env, name: Key, args: Args, st: State, fuel: nat)
    ensures var r := EvalTest(env, name, args, st, fuel);
      !Stops(r.code) ==> r.st.cur == SkipArgs(st, args).cur
  {
    hide EvalVarRefs, EvalListArgs, EvalItems, Export, Clear, Unset, TestResult;
    VarRefsLine(env, args, [], true, st, fuel);
    ListArgsLine(env, args, [], st, fuel);
    assert LineAfterArgs(Last(ENil), st.cur.line) == st.cur.line;
    assert forall ret :: !Stops(TestResult(env, ret)) by { TestResultCode(env); }
  }
}
