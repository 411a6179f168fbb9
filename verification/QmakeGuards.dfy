/** Statements as a project file writes them: chains of tests joined by ':' and '|', scopes with an
    else, and statements that a chain guards. They are compiled to items in the parser's order
    (operator, '!', name, test), and their semantics has no flags: a chain is a truth value. */
module QmakeGuards {
  import opened Basics
  import opened QmakeProgram
  import opened QmakeValues
  import opened QmakeSemantics

  datatype Test = Plain | Call(args: Args)

  // One operand of a chain; the name is an expression that must expand to one word.
  datatype Operand = Operand(negated: bool, name: Expr, test: Test)

  datatype Connective = Both | Either
  datatype Links = NoLink | Link(connective: Connective, operand: Operand, more: Links)
  datatype Guard = Guard(first: Operand, links: Links)

  datatype Stmts = SNil | SCons(head: Stmt, tail: Stmts)
  datatype SBlock = SAbsent | SPresent(stmts: Stmts)

  datatype Body =
    | For(variable: Name, list: Args, body: Stmts)
    | Outside(block: SBlock)                          // bypasses the local scopes
    | Define(isTest: bool, name: Name, def: Stmts)
    | ReturnWords(words: Expr)
    | BreakLoop
    | NextIteration

  datatype Stmt =
    | Mark(line: Ushort)
    | Set(target: Expr, op: AssignOp, hint: Ushort, rhs: Args)
    | Tests(guard: Guard)
    | Scope(guard: Guard, thenBlock: SBlock, elseBlock: SBlock)
    | Guarded(guard: Guard, connective: Connective, body: Body)
    | Unguarded(body: Body)

  /* ---- compilation to items ---- */

  function TestItem(o: Operand): Item {
    if o.test.Plain? then Condition else TestCall(o.test.args)
  }

  function CompileOperand(o: Operand, rest: Items): Items {
    var tested := Then(Words(o.name), Then(TestItem(o), rest));
    if o.negated then Then(Not, tested) else tested
  }

  function Connect(c: Connective): Item {
    if c == Both then And else Or
  }

  function CompileLinks(links: Links, rest: Items): Items {
    match links
    case NoLink => rest
    case Link(c, o, more) => Then(Connect(c), CompileOperand(o, CompileLinks(more, rest)))
  }

  function CompileGuard(g: Guard, rest: Items): Items {
    CompileOperand(g.first, CompileLinks(g.links, rest))
  }

  function CompileBlock(b: SBlock): Block {
    match b
    case SAbsent => Absent
    case SPresent(stmts) => Present(Compile(stmts))
  }

  function CompileBody(b: Body, rest: Items): Items {
    match b
    case For(v, list, body) => Then(ForLoop(v, list, Compile(body)), rest)
    case Outside(block) => Then(Bypass(CompileBlock(block)), rest)
    case Define(isTest, n, def) => Then(if isTest then TestDef(n, Compile(def)) else ReplaceDef(n, Compile(def)), rest)
    case ReturnWords(e) => Then(Words(e), Then(Return, rest))
    case BreakLoop => Then(Break, rest)
    case NextIteration => Then(Next, rest)
  }

  function CompileStmt(s: Stmt, rest: Items): Items {
    match s
    case Mark(n) => Then(LineMark(n), rest)
    case Set(target, op, hint, rhs) => Then(Words(target), Then(Assign(op, hint, rhs), rest))
    case Tests(g) => CompileGuard(g, rest)
    case Scope(g, t, e) => CompileGuard(g, Then(Branch(CompileBlock(t), CompileBlock(e)), rest))
    case Guarded(g, c, body) => CompileGuard(g, Then(Connect(c), CompileBody(body, rest)))
    case Unguarded(body) => CompileBody(body, rest)
  }

  function Compile(stmts: Stmts): Items {
    match stmts
    case SNil => Done
    case SCons(s, rest) => CompileStmt(s, Compile(rest))
  }

  /* ---- semantics ---- */

  // A truth value, or a code that leaves the block.
  datatype Truth = Value(truth: bool, st: State) | Stop(code: Code, st: State)

  function TruthState(t: Truth): State { t.st }

  // Must an operand behind this connective still be looked at?
  predicate Open(c: Connective, truth: bool) {
    if c == Both then truth else !truth
  }

  // The name is expanded even if the operand is passed over; then the test itself is not made.
  function EvalOperand(env: Env, o: Operand, open: bool, truth: bool, st: State, fuel: nat): (r: Truth)
    ensures Kept(st, TruthState(r))
  {
    var w := EvalExpr(env, o.name, Start([], false), false, st, fuel);
    if Stops(w.code) then Stop(w.code, w.st)
    else if o.test.Plain? then
      Value(if !open then truth
            else
              |w.words| == 1
              && IsActiveConfig(env, w.words[0], Values(w.st.stack, Text("CONFIG"))) != o.negated, w.st)
    else if !open || |w.words| != 1 then Value(truth && !open, SkipArgs(w.st, o.test.args))
    else
      var r := EvalTest(env, w.words[0], o.test.args, w.st, fuel);
      if r.code == ReturnTrue || r.code == ReturnFalse then Value((r.code == ReturnTrue) != o.negated, r.st)
      else Stop(r.code, r.st)
  }

  // The left-associative fold of a chain, with short circuits.
  function EvalLinks(env: Env, links: Links, truth: bool, st: State, fuel: nat): (r: Truth)
    ensures Kept(st, TruthState(r))
    decreases links
  {
    match links
    case NoLink => Value(truth, st)
    case Link(c, o, more) =>
      match EvalOperand(env, o, Open(c, truth), truth, st, fuel)
      case Value(truth', st') => EvalLinks(env, more, truth', st', fuel)
      case Stop(code, st') => Stop(code, st')
  }

  function EvalGuard(env: Env, g: Guard, st: State, fuel: nat): (r: Truth)
    ensures Kept(st, TruthState(r))
  {
    match EvalOperand(env, g.first, true, false, st, fuel)
    case Value(truth, st') => EvalLinks(env, g.links, truth, st', fuel)
    case Stop(code, st') => Stop(code, st')
  }

  function Ran(r: Outcome): Truth {
    if r.code == ReturnTrue || r.code == ReturnFalse then Value(true, r.st) else Stop(r.code, r.st)
  }

  // truth is the status of the statement before; it is the result of a block that ends here.
  function EvalStmts(env: Env, stmts: Stmts, truth: bool, st: State, fuel: nat): (r: Outcome)
    ensures Kept(st, r.st)
    decreases fuel, Room(st), stmts, 0
  {
    match stmts
    case SNil => Outcome(if truth then ReturnTrue else ReturnFalse, st)
    case SCons(s, rest) =>
      match EvalStmt(env, s, truth, st, fuel)
      case Value(truth', st') => EvalStmts(env, rest, truth', st', fuel)
      case Stop(code, st') => Outcome(code, st')
  }

  function EvalSBlock(env: Env, b: SBlock, st: State, fuel: nat): (r: Outcome)
    ensures Kept(st, r.st)
    decreases fuel, Room(st), b, 0
  {
    match b
    case SAbsent => Outcome(ReturnTrue, st)
    case SPresent(stmts) => EvalStmts(env, stmts, true, st, fuel)
  }

  function EvalStmt(env: Env, s: Stmt, truth: bool, st: State, fuel: nat): (r: Truth)
    ensures Kept(st, TruthState(r))
    decreases fuel, Room(st), s, 0
  {
    match s
    case Mark(n) => Value(truth, st.(cur := st.cur.(line := n)))
    case Set(target, op, _, rhs) =>
      var w := EvalExpr(env, target, Start([], false), false, st, fuel);
      if Stops(w.code) then Stop(w.code, w.st)
      else
        var r := EvalAssign(env, op, w.words, rhs, w.st, fuel);
        if Stops(r.code) then Stop(r.code, r.st) else Value(truth, r.st)
    case Tests(g) => EvalGuard(env, g, st, fuel)
    case Scope(g, t, e) =>
      var v := EvalGuard(env, g, st, fuel);
      if v.Stop? then v else Ran(EvalSBlock(env, if v.truth then t else e, v.st, fuel))
    case Guarded(g, c, body) =>
      var v := EvalGuard(env, g, st, fuel);
      if v.Stop? then v else EvalGuarded(env, body, Open(c, v.truth), v.st, fuel)
    case Unguarded(body) => EvalGuarded(env, body, true, st, fuel)
  }

  // A jump that is passed over counts as a failed test, anything else as a success.
  function EvalGuarded(env: Env, b: Body, open: bool, st: State, fuel: nat): (r: Truth)
    ensures Kept(st, TruthState(r))
    decreases fuel, Room(st), b, 1
  {
    match b
    case For(_, _, _) => if open then Ran(EvalFor(env, b, st, fuel)) else Value(true, st)
    case Outside(block) => if open && block.SPresent? then Ran(EvalOutside(env, block, st, fuel)) else Value(true, st)
    case Define(isTest, n, def) =>
      var d := Def(st.cur.pro, Compile(def));
      Value(true, if !open then st
                  else if isTest then st.(testDefs := st.testDefs[n.text := d])
                  else st.(replaceDefs := st.replaceDefs[n.text := d]))
    case ReturnWords(e) =>
      var w := EvalExpr(env, e, Start([], false), false, st, fuel);
      if Stops(w.code) then Stop(w.code, w.st) else Jump(ReturnReturn, open, w.st.(retval := w.words))
    case BreakLoop => Jump(ReturnBreak, open, st)
    case NextIteration => Jump(ReturnNext, open, st)
  }

  function Jump(code: Code, open: bool, st: State): Truth {
    if open then Stop(code, st) else Value(false, st)
  }

  function EvalOutside(env: Env, b: SBlock, st: State, fuel: nat): (r: Outcome)
    ensures Kept(st, r.st)
    decreases fuel, Room(st), b, 1
  {
    if |st.stack| == 1 then EvalSBlock(env, b, st, fuel)
    else if fuel == 0 then Outcome(Diverged, st)
    else
      var r := EvalSBlock(env, b, st.(stack := [st.stack[0]]), fuel - 1);
      Outcome(r.code, r.st.(stack := r.st.stack + st.stack[1..]))
  }

  // The elements a loop runs over: a variable's values, a counting range, or forever.
  datatype Course = Course(variable: Key, infinite: bool, list: StrList)

  function CourseOf(env: Env, variable: Key, listName: Str, stack: Stack): Course {
    var name := if variable == [] then Text("forever") else listName;
    var named := Values(stack, name);
    var infinite := named == [] && name == Text("forever");
    Course(if variable == [] then [] else Alias(env, variable), infinite,
           if named == [] && !infinite then Range(env, name) else named)
  }

  function EvalFor(env: Env, loop: Body, st: State, fuel: nat): (r: Outcome)
    requires loop.For?
    ensures Kept(st, r.st)
    decreases fuel, Room(st), loop, 0, 2
  {
    var e := EvalVarRefs(env, loop.list, [], true, st, fuel);
    var v := loop.variable.text;
    if Stops(e.code) then Outcome(e.code, e.st)
    else if v == [] && e.words[0] != Text("ever") then Outcome(ReturnFalse, e.st)
    else
      var c := CourseOf(env, v, e.words[0], e.st.stack);
      var r := Turns(env, loop, c, 0, ReturnTrue, e.st, fuel);
      Outcome(r.code, if c.variable == [] then r.st
                      else r.st.(stack := SetTop(r.st.stack, c.variable, Values(e.st.stack, c.variable))))
  }

  function Turns(env: Env, loop: Body, c: Course, index: nat, last: Code, st: State, fuel: nat): (r: Outcome)
    requires loop.For?
    requires if c.infinite then index <= MAX_ITERATIONS else index <= |c.list|
    ensures Kept(st, r.st)
    decreases fuel, Room(st), loop, 0, 1, if c.infinite then MAX_ITERATIONS - index else |c.list| - index
  {
    if !c.infinite && index == |c.list| then Outcome(last, st)
    else if !c.infinite && c.list[index] == [] then Turns(env, loop, c, index + 1, last, st, fuel)
    else
      var value := if c.infinite then Number(index) else c.list[index];
      var st' := if c.infinite && c.variable == [] then st else SetLoopVar(st, c.variable, value);
      if c.infinite && index == MAX_ITERATIONS then Outcome(last, st')
      else
        var r := EvalStmts(env, loop.body, true, st', fuel);
        match AfterBody(r.code)
        case Again(code) => Turns(env, loop, c, index + 1, code, r.st, fuel)
        case Leave(code) => Outcome(code, r.st)
  }

  /* ---- the flags of visitProBlock compute this ---- */

  // Between statements the flags only hold the status of the last one.
  function Rest(truth: bool): Regs {
    Regs([], truth, !truth, false)
  }

  function Continue(env: Env, rest: Items, t: Truth, fuel: nat): Outcome {
    match t
    case Value(truth, st) => EvalItems(env, rest, Rest(truth), st, fuel)
    case Stop(code, st) => Outcome(code, st)
  }

  // A truth value as the step of an item that leaves no words and no '!'.
  function StepOf(t: Truth): Step {
    match t
    case Value(truth, st) => Go(Rest(truth), st)
    case Stop(code, st) => Abort(code, st)
  }

  lemma NotItem(env: Env, regs: Regs, st: State, fuel: nat)
    ensures EvalItem(env, Not, regs, st, fuel) == Go(regs.(invert := !regs.invert), st)
  {
  }

  lemma WordsItem(env: Env, e: Expr, regs: Regs, st: State, fuel: nat)
    requires regs.curr == []
    ensures var w := EvalExpr(env, e, Start([], false), false, st, fuel);
      EvalItem(env, Words(e), regs, st, fuel)
        == if Stops(w.code) then Abort(w.code, w.st) else Go(regs.(curr := w.words), w.st)
  {
    hide EvalExpr;
  }

  lemma TestedItem(env: Env, o: Operand, truth: bool, orOp: bool, st: State, fuel: nat)
    ensures var w := EvalExpr(env, o.name, Start([], false), false, st, fuel);
      var r := EvalOperand(env, o, truth != orOp, truth, st, fuel);
      if Stops(w.code) then r == Stop(w.code, w.st)
      else EvalItem(env, TestItem(o), Regs(w.words, truth, orOp, o.negated), w.st, fuel) == StepOf(r)
  {
    hide EvalExpr, EvalTest, IsActiveConfig;
  }

  lemma OperandRefines(env: Env, o: Operand, truth: bool, orOp: bool, rest: Items, st: State, fuel: nat)
    ensures EvalItems(env, CompileOperand(o, rest), Regs([], truth, orOp, false), st, fuel)
         == Continue(env, rest, EvalOperand(env, o, truth != orOp, truth, st, fuel), fuel)
  {
    hide EvalExpr, EvalTest, EvalOperand, EvalItem;
    var regs := Regs([], truth, orOp, o.negated);
    var tested := Then(Words(o.name), Then(TestItem(o), rest));
    if o.negated { NotItem(env, Regs([], truth, orOp, false), st, fuel); }
    assert EvalItems(env, CompileOperand(o, rest), Regs([], truth, orOp, false), st, fuel)
        == EvalItems(env, tested, regs, st, fuel);
    var w := EvalExpr(env, o.name, Start([], false), false, st, fuel);
    WordsItem(env, o.name, regs, st, fuel);
    TestedItem(env, o, truth, orOp, st, fuel);
    if Stops(w.code) {
      assert EvalItems(env, tested, regs, st, fuel) == Outcome(w.code, w.st);
    } else {
      assert EvalItems(env, tested, regs, st, fuel)
          == EvalItems(env, Then(TestItem(o), rest), regs.(curr := w.words), w.st, fuel);
    }
  }

  lemma {:induction false} LinksRefine(env: Env, links: Links, truth: bool, rest: Items, st: State, fuel: nat)
    ensures EvalItems(env, CompileLinks(links, rest), Rest(truth), st, fuel)
         == Continue(env, rest, EvalLinks(env, links, truth, st, fuel), fuel)
    decreases links
  {
    hide EvalOperand;
    match links
    case NoLink =>
    case Link(c, o, more) =>
      var next := CompileLinks(more, rest);
      var orOp := c == Either;
      assert EvalItems(env, CompileLinks(links, rest), Rest(truth), st, fuel)
          == EvalItems(env, CompileOperand(o, next), Regs([], truth, orOp, false), st, fuel);
      OperandRefines(env, o, truth, orOp, next, st, fuel);
      match EvalOperand(env, o, Open(c, truth), truth, st, fuel)
      case Value(truth', st') => LinksRefine(env, more, truth', rest, st', fuel);
      case Stop(_, _) =>
  }

  /** The okey, or_op and invert flags compute the left-associative fold of a chain. The status of
      the statement before does not matter: the first operand is always tested. */
  lemma GuardRefines(env: Env, g: Guard, before: bool, rest: Items, st: State, fuel: nat)
    ensures EvalItems(env, CompileGuard(g, rest), Rest(before), st, fuel)
         == Continue(env, rest, EvalGuard(env, g, st, fuel), fuel)
  {
    hide EvalExpr, EvalTest, IsActiveConfig;
    OperandRefines(env, g.first, before, !before, CompileLinks(g.links, rest), st, fuel);
    FirstOperand(env, g.first, before, st, fuel);
    match EvalOperand(env, g.first, true, false, st, fuel)
    case Value(truth, st') => LinksRefine(env, g.links, truth, rest, st', fuel);
    case Stop(_, _) =>
  }

  lemma FirstOperand(env: Env, o: Operand, before: bool, st: State, fuel: nat)
    ensures EvalOperand(env, o, true, before, st, fuel) == EvalOperand(env, o, true, false, st, fuel)
  {
  }

  /* ---- the compiled statements compute this ---- */

  lemma {:induction false} StmtsRefine(env: Env, stmts: Stmts, truth: bool, st: State, fuel: nat)
    ensures EvalItems(env, Compile(stmts), Rest(truth), st, fuel) == EvalStmts(env, stmts, truth, st, fuel)
    decreases fuel, Room(st), stmts, 0
  {
    hide EvalStmt, EvalItem, CompileStmt;
    match stmts
    case SNil =>
    case SCons(s, rest) =>
      StmtRefines(env, s, truth, Compile(rest), st, fuel);
      match EvalStmt(env, s, truth, st, fuel)
      case Value(truth', st') => StmtsRefine(env, rest, truth', st', fuel);
      case Stop(_, _) =>
  }

  lemma {:induction false} BlockRefines(env: Env, b: SBlock, st: State, fuel: nat)
    ensures EvalBlock(env, CompileBlock(b), st, fuel) == EvalSBlock(env, b, st, fuel)
    decreases fuel, Room(st), b, 0
  {
    hide EvalItems, EvalStmts, Compile;
    if b.SPresent? { StmtsRefine(env, b.stmts, true, st, fuel); }
  }

  /** One statement: the flags end as they would between two statements, whatever path was taken. */
  lemma {:induction false} StmtRefines(env: Env, s: Stmt, truth: bool, rest: Items, st: State, fuel: nat)
    ensures EvalItems(env, CompileStmt(s, rest), Rest(truth), st, fuel)
         == Continue(env, rest, EvalStmt(env, s, truth, st, fuel), fuel)
    decreases fuel, Room(st), s, 0
  {
    hide EvalExpr, EvalGuard, EvalAssign, EvalBlock, EvalSBlock, EvalGuarded, EvalItem, CompileGuard, CompileBody;
    hide CompileBlock;
    match s
    case Mark(n) =>
      MarkItem(env, n, Rest(truth), st, fuel);
    case Set(target, op, hint, rhs) =>
      WordsItem(env, target, Rest(truth), st, fuel);
      var w := EvalExpr(env, target, Start([], false), false, st, fuel);
      if !Stops(w.code) { AssignItem(env, op, hint, rhs, Rest(truth).(curr := w.words), w.st, fuel); }
    case Tests(g) =>
      GuardRefines(env, g, truth, rest, st, fuel);
    case Scope(g, t, e) =>
      var branch := Branch(CompileBlock(t), CompileBlock(e));
      GuardRefines(env, g, truth, Then(branch, rest), st, fuel);
      var v := EvalGuard(env, g, st, fuel);
      if v.Value? {
        BlockRefines(env, if v.truth then t else e, v.st, fuel);
        BranchItem(env, CompileBlock(t), CompileBlock(e), v.truth, v.st, fuel);
      }
    case Guarded(g, c, body) =>
      GuardRefines(env, g, truth, Then(Connect(c), CompileBody(body, rest)), st, fuel);
      var v := EvalGuard(env, g, st, fuel);
      if v.Value? {
        ConnectItem(env, c, v.truth, v.st, fuel);
        BodyRefines(env, body, v.truth, c == Either, rest, v.st, fuel);
      }
    case Unguarded(body) =>
      BodyRefines(env, body, truth, !truth, rest, st, fuel);
  }

  lemma MarkItem(env: Env, n: Ushort, regs: Regs, st: State, fuel: nat)
    ensures EvalItem(env, LineMark(n), regs, st, fuel) == Go(regs, st.(cur := st.cur.(line := n)))
  {
  }

  lemma AssignItem(env: Env, op: AssignOp, hint: Ushort, rhs: Args, regs: Regs, st: State, fuel: nat)
    ensures var r := EvalAssign(env, op, regs.curr, rhs, st, fuel);
      EvalItem(env, Assign(op, hint, rhs), regs, st, fuel)
        == if Stops(r.code) then Abort(r.code, r.st) else Go(regs.(curr := []), r.st)
  {
  }

  lemma BranchItem(env: Env, t: Block, e: Block, truth: bool, st: State, fuel: nat)
    ensures EvalItem(env, Branch(t, e), Rest(truth), st, fuel)
         == StepOf(Ran(EvalBlock(env, if truth then t else e, st, fuel)))
  {
    hide EvalBlock;
  }

  lemma ConnectItem(env: Env, c: Connective, truth: bool, st: State, fuel: nat)
    ensures EvalItem(env, Connect(c), Rest(truth), st, fuel) == Go(Regs([], truth, c == Either, false), st)
  {
  }

  lemma {:induction false} BodyRefines(env: Env, b: Body, truth: bool, orOp: bool, rest: Items, st: State, fuel: nat)
    ensures EvalItems(env, CompileBody(b, rest), Regs([], truth, orOp, false), st, fuel)
         == Continue(env, rest, EvalGuarded(env, b, truth != orOp, st, fuel), fuel)
    decreases fuel, Room(st), b, 1
  {
    hide EvalExpr, EvalFor, EvalLoop, EvalOutside, EvalBypass, EvalItem, Compile, CompileBlock;
    var regs := Regs([], truth, orOp, false);
    match b
    case For(v, list, body) =>
      if truth != orOp { ForRefines(env, b, st, fuel); }
      ForItem(env, v, list, Compile(body), regs, st, fuel);
    case Outside(block) =>
      if truth != orOp { OutsideRefines(env, block, st, fuel); }
      BypassItem(env, CompileBlock(block), regs, st, fuel);
      assert CompileBlock(block).Present? <==> block.SPresent? by { CompiledBlock(block); }
    case Define(isTest, n, def) =>
      DefineItem(env, isTest, n, Compile(def), regs, st, fuel);
    case ReturnWords(e) =>
      WordsItem(env, e, regs, st, fuel);
      var w := EvalExpr(env, e, Start([], false), false, st, fuel);
      if !Stops(w.code) { ReturnItem(env, regs.(curr := w.words), w.st, fuel); }
    case BreakLoop => JumpItems(env, regs, st, fuel);
    case NextIteration => JumpItems(env, regs, st, fuel);
  }

  lemma CompiledBlock(b: SBlock)
    ensures CompileBlock(b).Present? <==> b.SPresent?
  {
  }

  lemma ForItem(env: Env, v: Name, list: Args, body: Items, regs: Regs, st: State, fuel: nat)
    requires regs.curr == [] && !regs.invert
    ensures EvalItem(env, ForLoop(v, list, body), regs, st, fuel)
         == StepOf(if regs.okey != regs.orOp then Ran(EvalLoop(env, ForLoop(v, list, body), st, fuel))
                   else Value(true, st))
  {
    hide EvalLoop;
  }

  lemma BypassItem(env: Env, b: Block, regs: Regs, st: State, fuel: nat)
    requires regs.curr == [] && !regs.invert
    ensures EvalItem(env, Bypass(b), regs, st, fuel)
         == StepOf(if regs.okey != regs.orOp && b.Present? then Ran(EvalBypass(env, b, st, fuel)) else Value(true, st))
  {
    hide EvalBypass;
  }

  lemma DefineItem(env: Env, isTest: bool, n: Name, body: Items, regs: Regs, st: State, fuel: nat)
    requires regs.curr == [] && !regs.invert
    ensures var d := Def(st.cur.pro, body);
      EvalItem(env, if isTest then TestDef(n, body) else ReplaceDef(n, body), regs, st, fuel)
        == Go(Rest(true), if regs.okey == regs.orOp then st
                          else if isTest then st.(testDefs := st.testDefs[n.text := d])
                          else st.(replaceDefs := st.replaceDefs[n.text := d]))
  {
  }

  lemma ReturnItem(env: Env, regs: Regs, st: State, fuel: nat)
    requires !regs.invert
    ensures EvalItem(env, Return, regs, st, fuel)
         == StepOf(Jump(ReturnReturn, regs.okey != regs.orOp, st.(retval := regs.curr)))
  {
  }

  lemma JumpItems(env: Env, regs: Regs, st: State, fuel: nat)
    requires regs.curr == [] && !regs.invert
    ensures EvalItem(env, Break, regs, st, fuel) == StepOf(Jump(ReturnBreak, regs.okey != regs.orOp, st))
    ensures EvalItem(env, Next, regs, st, fuel) == StepOf(Jump(ReturnNext, regs.okey != regs.orOp, st))
  {
  }

  lemma {:induction false} OutsideRefines(env: Env, b: SBlock, st: State, fuel: nat)
    ensures EvalBypass(env, CompileBlock(b), st, fuel) == EvalOutside(env, b, st, fuel)
    decreases fuel, Room(st), b, 1
  {
    hide EvalBlock, EvalSBlock, CompileBlock;
    if |st.stack| == 1 { BlockRefines(env, b, st, fuel); }
    else if fuel > 0 { BlockRefines(env, b, st.(stack := [st.stack[0]]), fuel - 1); }
  }

  lemma {:induction false} ForRefines(env: Env, loop: Body, st: State, fuel: nat)
    requires loop.For?
    ensures EvalLoop(env, ForLoop(loop.variable, loop.list, Compile(loop.body)), st, fuel)
      == EvalFor(env, loop, st, fuel)
    decreases fuel, Room(st), loop, 0, 2
  {
    hide EvalVarRefs, Iterate, Turns, SetTop, Values, Range, Compile;
    var e := EvalVarRefs(env, loop.list, [], true, st, fuel);
    var v := loop.variable.text;
    if !Stops(e.code) && (v != [] || e.words[0] == Text("ever")) {
      TurnsRefine(env, loop, CourseOf(env, v, e.words[0], e.st.stack), 0, ReturnTrue, e.st, fuel);
    }
  }

  lemma {:induction false} TurnsRefine(env: Env, loop: Body, c: Course, index: nat, last: Code, st: State, fuel: nat)
    requires loop.For?
    requires if c.infinite then index <= MAX_ITERATIONS else index <= |c.list|
    ensures Iterate(env, ForLoop(loop.variable, loop.list, Compile(loop.body)), c.variable, c.infinite, c.list,
                    index, last, st, fuel)
         == Turns(env, loop, c, index, last, st, fuel)
    decreases fuel, Room(st), loop, 0, 1, if c.infinite then MAX_ITERATIONS - index else |c.list| - index
  {
    hide EvalItems, EvalStmts, SetTop, Compile;
    if !c.infinite && index == |c.list| {
    } else if !c.infinite && c.list[index] == [] {
      TurnsRefine(env, loop, c, index + 1, last, st, fuel);
    } else {
      var value := if c.infinite then Number(index) else c.list[index];
      var st' := if c.infinite && c.variable == [] then st else SetLoopVar(st, c.variable, value);
      if !(c.infinite && index == MAX_ITERATIONS) {
        StmtsRefine(env, loop.body, true, st', fuel);
        assert Rest(true) == START;
        var r := EvalStmts(env, loop.body, true, st', fuel);
        match AfterBody(r.code)
        case Again(code) => TurnsRefine(env, loop, c, index + 1, code, r.st, fuel);
        case Leave(_) =>
      }
    }
  }

  /* ---- the token format can hold the compiled statements ---- */

  predicate Word(e: Expr) {
    e.ECons? && !e.atom.SetLine?
  }

  ghost predicate FitsOperand(o: Operand) {
    Word(o.name) && FitsExpr(o.name) && (o.test.Call? ==> FitsArgs(o.test.args))
  }

  ghost predicate FitsLinks(links: Links) {
    links.Link? ==> FitsOperand(links.operand) && FitsLinks(links.more)
  }

  ghost predicate FitsGuard(g: Guard) {
    FitsOperand(g.first) && FitsLinks(g.links)
  }

  ghost predicate FitsSBlock(b: SBlock) {
    b.SPresent? ==> FitsNested(b.stmts)
  }

  ghost predicate FitsNested(stmts: Stmts)
    decreases stmts, 1
  {
    FitsStmts(stmts) && FitsLen(|EncodeItems(Compile(stmts))|)
  }

  ghost predicate FitsGuardedBody(b: Body) {
    match b
    case For(v, list, body) =>
      FitsStr(v.text) && FitsArgs(list) && FitsLen(|EncodeArgs(list, TOK_VALUE_TERMINATOR)|) && FitsNested(body)
    case Outside(block) => FitsSBlock(block)
    case Define(_, n, def) => FitsStr(n.text) && FitsNested(def)
    case ReturnWords(e) => Word(e) && FitsExpr(e)
    case _ => true
  }

  ghost predicate FitsStmt(s: Stmt) {
    match s
    case Mark(_) => true
    case Set(target, op, _, rhs) => Word(target) && FitsExpr(target) && FitsArgs(rhs) && (op == OpReplace || rhs.Last?)
    case Tests(g) => FitsGuard(g)
    case Scope(g, t, e) => FitsGuard(g) && FitsSBlock(t) && FitsSBlock(e)
    case Guarded(g, _, body) => FitsGuard(g) && FitsGuardedBody(body)
    case Unguarded(body) => FitsGuardedBody(body)
  }

  ghost predicate FitsStmts(stmts: Stmts)
    decreases stmts, 0
  {
    stmts.SCons? ==> FitsStmt(stmts.head) && FitsStmts(stmts.tail)
  }

  lemma OperandFits(o: Operand, rest: Items)
    requires FitsOperand(o) && FitsItems(rest)
    ensures FitsItems(CompileOperand(o, rest)) && !CompileOperand(o, rest).Done?
  {
    assert FitsItems(Then(TestItem(o), rest));
  }

  lemma {:induction false} LinksFit(links: Links, rest: Items)
    requires FitsLinks(links) && FitsItems(rest)
    ensures FitsItems(CompileLinks(links, rest))
    decreases links
  {
    if links.Link? {
      LinksFit(links.more, rest);
      OperandFits(links.operand, CompileLinks(links.more, rest));
    }
  }

  lemma GuardFits(g: Guard, rest: Items)
    requires FitsGuard(g) && FitsItems(rest)
    ensures FitsItems(CompileGuard(g, rest))
  {
    LinksFit(g.links, rest);
    OperandFits(g.first, CompileLinks(g.links, rest));
  }

  lemma {:induction false} BlockFits(b: SBlock)
    requires FitsSBlock(b)
    ensures FitsBlock(CompileBlock(b))
    decreases b, 0
  {
    if b.SPresent? { StmtsFit(b.stmts); }
  }

  lemma {:induction false} BodyFits(b: Body, rest: Items)
    requires FitsGuardedBody(b) && FitsItems(rest)
    ensures FitsItems(CompileBody(b, rest))
    decreases b, 0
  {
    match b
    case For(_, _, body) => StmtsFit(body);
    case Outside(block) => BlockFits(block);
    case Define(_, _, def) => StmtsFit(def);
    case ReturnWords(_) => assert FitsItems(Then(Return, rest));
    case _ =>
  }

  lemma {:induction false} StmtFits(s: Stmt, rest: Items)
    requires FitsStmt(s) && FitsItems(rest)
    ensures FitsItems(CompileStmt(s, rest))
    decreases s, 0
  {
    hide CompileGuard, CompileBody;
    match s
    case Mark(_) =>
    case Set(_, op, hint, rhs) => assert FitsItems(Then(Assign(op, hint, rhs), rest));
    case Tests(g) => GuardFits(g, rest);
    case Scope(g, t, e) =>
      BlockFits(t);
      BlockFits(e);
      GuardFits(g, Then(Branch(CompileBlock(t), CompileBlock(e)), rest));
    case Guarded(g, c, body) =>
      BodyFits(body, rest);
      GuardFits(g, Then(Connect(c), CompileBody(body, rest)));
    case Unguarded(body) => BodyFits(body, rest);
  }

  /** The lengths and names of a program are all that limits it: the compiled statements satisfy
      what the token format asks of items. */
  lemma {:induction false} StmtsFit(stmts: Stmts)
    requires FitsStmts(stmts)
    ensures FitsItems(Compile(stmts))
    decreases stmts, 0
  {
    if stmts.SCons? {
      StmtsFit(stmts.tail);
      StmtFits(stmts.head, Compile(stmts.tail));
    }
  }

  /* ---- the value of a call ---- */

  // Nothing but a return stores words, and every user call ends by clearing them.
  predicate NothingStored(st: State, st': State) {
    st.history.calls <= st'.history.calls
      && st'.retval == if st'.history.calls == st.history.calls then st.retval else []
  }

  lemma {:induction false} ExprStores(env: Env, e: Expr, p: Partial, joined: bool, st: State, fuel: nat)
    requires p.pending || joined ==> p.words != []
    ensures NothingStored(st, EvalExpr(env, e, p, joined, st, fuel).st)
    decreases e, 0
  {
    if e.ECons? {
      var r := EvalAtom(env, e.atom, p, joined, st, fuel);
      AtomStores(env, e.atom, p, joined, st, fuel);
      if !Stops(r.code) { ExprStores(env, e.rest, r.partial, joined, r.st, fuel); }
    }
  }

  lemma {:induction false} AtomStores(env: Env, atom: Atom, p: Partial, joined: bool, st: State, fuel: nat)
    requires p.pending || joined ==> p.words != []
    ensures NothingStored(st, EvalAtom(env, atom, p, joined, st, fuel).st)
    decreases atom, 0
  {
    hide AddStrList, WithOperand;
    if atom.FuncCall? { ExpandStores(env, atom.name.text, atom.args, st, fuel); }
  }

  lemma {:induction false} VarRefsStore(env: Env, args: Args, words: StrList, joined: bool, st: State, fuel: nat)
    ensures NothingStored(st, EvalVarRefs(env, args, words, joined, st, fuel).st)
    decreases args, 0
  {
    ExprStores(env, args.arg, Start(words, joined), joined, st, fuel);
    hide EvalExpr;
    var r := EvalExpr(env, args.arg, Start(words, joined), joined, st, fuel);
    if args.More? && !Stops(r.code) { VarRefsStore(env, args.more, r.words, joined, r.st, fuel); }
  }

  lemma {:induction false} ListArgsStore(env: Env, args: Args, done: seq<StrList>, st: State, fuel: nat)
    ensures NothingStored(st, EvalListArgs(env, args, done, st, fuel).st)
    decreases args, 0
  {
    ExprStores(env, args.arg, Start([], false), false, st, fuel);
    hide EvalExpr;
    var r := EvalExpr(env, args.arg, Start([], false), false, st, fuel);
    if args.More? && !Stops(r.code) { ListArgsStore(env, args.more, done + [r.words], r.st, fuel); }
  }

  lemma {:induction false} ExpandStores(env: Env, name: Key, args: Args, st: State, fuel: nat)
    ensures NothingStored(st, EvalExpand(env, name, args, st, fuel).st)
    decreases args, 1
  {
    hide EvalVarRefs, EvalListArgs, EvalItems, CallFrame;
    VarRefsStore(env, args, [], true, st, fuel);
    ListArgsStore(env, args, [], st, fuel);
  }

  lemma TestStores(env: Env, name: Key, args: Args, st: State, fuel: nat)
    ensures NothingStored(st, EvalTest(env, name, args, st, fuel).st)
  {
    hide EvalVarRefs, EvalListArgs, EvalItems, CallFrame, TestResult, Export, Clear, Unset;
    VarRefsStore(env, args, [], true, st, fuel);
    ListArgsStore(env, args, [], st, fuel);
  }

  lemma AssignStores(env: Env, op: AssignOp, curr: StrList, rhs: Args, st: State, fuel: nat)
    ensures NothingStored(st, EvalAssign(env, op, curr, rhs, st, fuel).st)
  {
    hide EvalVarRefs, Store;
    VarRefsStore(env, rhs, [], op == OpReplace, st, fuel);
  }

  lemma OperandStores(env: Env, o: Operand, open: bool, truth: bool, st: State, fuel: nat)
    ensures NothingStored(st, EvalOperand(env, o, open, truth, st, fuel).st)
  {
    hide EvalExpr, EvalTest, IsActiveConfig;
    ExprStores(env, o.name, Start([], false), false, st, fuel);
    var w := EvalExpr(env, o.name, Start([], false), false, st, fuel);
    if !Stops(w.code) && o.test.Call? && |w.words| == 1 { TestStores(env, w.words[0], o.test.args, w.st, fuel); }
  }

  lemma {:induction false} LinksStore(env: Env, links: Links, truth: bool, st: State, fuel: nat)
    ensures NothingStored(st, EvalLinks(env, links, truth, st, fuel).st)
    decreases links
  {
    if links.Link? {
      OperandStores(env, links.operand, Open(links.connective, truth), truth, st, fuel);
      hide EvalOperand;
      var t := EvalOperand(env, links.operand, Open(links.connective, truth), truth, st, fuel);
      if t.Value? { LinksStore(env, links.more, t.truth, t.st, fuel); }
    }
  }

  lemma GuardStores(env: Env, g: Guard, st: State, fuel: nat)
    ensures NothingStored(st, EvalGuard(env, g, st, fuel).st)
  {
    OperandStores(env, g.first, true, false, st, fuel);
    hide EvalOperand;
    var t := EvalOperand(env, g.first, true, false, st, fuel);
    if t.Value? { LinksStore(env, g.links, t.truth, t.st, fuel); }
  }

  // No return of these statements, or of their blocks and loops, stands behind a chain of tests.
  predicate Direct(stmts: Stmts) {
    stmts.SCons? ==> DirectStmt(stmts.head) && Direct(stmts.tail)
  }

  predicate DirectStmt(s: Stmt) {
    match s
    case Scope(_, t, e) => DirectBlock(t) && DirectBlock(e)
    case Guarded(_, _, body) => !body.ReturnWords? && DirectBody(body)
    case Unguarded(body) => DirectBody(body)
    case _ => true
  }

  predicate DirectBody(b: Body) {
    match b
    case For(_, _, body) => Direct(body)
    case Outside(block) => DirectBlock(block)
    case _ => true
  }

  predicate DirectBlock(b: SBlock) {
    b.SPresent? ==> Direct(b.stmts)
  }

  // What a run did to the return value: it took a return with these words, or the last return that it
  // passed over left them and no user call has ended since, or nothing is left of any return.
  datatype Trace = Taken(words: StrList) | Passed(words: StrList) | Nothing

  // One run behind another that took no return.
  function Later(a: Trace, mid: State, b: Trace, end: State): Trace {
    if !b.Nothing? then b else if end.history.calls == mid.history.calls then a else Nothing
  }

  ghost function Traced(env: Env, stmts: Stmts, truth: bool, st: State, fuel: nat): Trace
    decreases fuel, Room(st), stmts, 0
  {
    if stmts.SNil? then Nothing
    else
      var a := TracedStmt(env, stmts.head, st, fuel);
      match EvalStmt(env, stmts.head, truth, st, fuel)
      case Value(truth', st') =>
        Later(a, st', Traced(env, stmts.tail, truth', st', fuel), EvalStmts(env, stmts.tail, truth', st', fuel).st)
      case Stop(_, _) => a
  }

  ghost function TracedBlock(env: Env, b: SBlock, st: State, fuel: nat): Trace
    decreases fuel, Room(st), b, 0
  {
    if b.SAbsent? then Nothing else Traced(env, b.stmts, true, st, fuel)
  }

  ghost function TracedStmt(env: Env, s: Stmt, st: State, fuel: nat): Trace
    decreases fuel, Room(st), s, 0
  {
    match s
    case Scope(g, t, e) =>
      var v := EvalGuard(env, g, st, fuel);
      if v.Stop? then Nothing else TracedBlock(env, if v.truth then t else e, v.st, fuel)
    case Guarded(g, c, body) =>
      var v := EvalGuard(env, g, st, fuel);
      if v.Stop? then Nothing else TracedBody(env, body, Open(c, v.truth), v.st, fuel)
    case Unguarded(body) => TracedBody(env, body, true, st, fuel)
    case _ => Nothing
  }

  ghost function TracedBody(env: Env, b: Body, open: bool, st: State, fuel: nat): Trace
    decreases fuel, Room(st), b, 1
  {
    match b
    case For(v, list, _) =>
      var e := EvalVarRefs(env, list, [], true, st, fuel);
      if !open || Stops(e.code) || (v.text == [] && e.words[0] != Text("ever")) then Nothing
      else TracedTurns(env, b, CourseOf(env, v.text, e.words[0], e.st.stack), 0, e.st, fuel)
    case Outside(block) =>
      if !open || block.SAbsent? then Nothing
      else if |st.stack| == 1 then TracedBlock(env, block, st, fuel)
      else if fuel == 0 then Nothing
      else TracedBlock(env, block, st.(stack := [st.stack[0]]), fuel - 1)
    case ReturnWords(e) =>
      var w := EvalExpr(env, e, Start([], false), false, st, fuel);
      if Stops(w.code) then Nothing else if open then Taken(w.words) else Passed(w.words)
    case _ => Nothing
  }

  ghost function TracedTurns(env: Env, loop: Body, c: Course, index: nat, st: State, fuel: nat): Trace
    requires loop.For?
    requires if c.infinite then index <= MAX_ITERATIONS else index <= |c.list|
    decreases fuel, Room(st), loop, 0, 1, if c.infinite then MAX_ITERATIONS - index else |c.list| - index
  {
    if index == (if c.infinite then MAX_ITERATIONS else |c.list|) then Nothing
    else if !c.infinite && c.list[index] == [] then TracedTurns(env, loop, c, index + 1, st, fuel)
    else
      var value := if c.infinite then Number(index) else c.list[index];
      var st' := if c.infinite && c.variable == [] then st else SetLoopVar(st, c.variable, value);
      var a, r := Traced(env, loop.body, true, st', fuel), EvalStmts(env, loop.body, true, st', fuel);
      match AfterBody(r.code)
      case Again(code) =>
        Later(a, r.st, TracedTurns(env, loop, c, index + 1, r.st, fuel),
              Turns(env, loop, c, index + 1, code, r.st, fuel).st)
      case Leave(_) => a
  }

  // A trace decides the return value.
  ghost predicate Stores(w: Trace, code: Code, st: State, st': State) {
    match w
    case Taken(words) => code == ReturnReturn && st'.retval == words
    case Passed(words) => st'.retval == words
    case Nothing => NothingStored(st, st')
  }

  lemma LaterStores(a: Trace, b: Trace, code: Code, st: State, mid: State, end: State)
    requires Stores(a, ReturnTrue, st, mid) && Stores(b, code, mid, end)
    requires st.history.calls <= mid.history.calls <= end.history.calls
    ensures Stores(Later(a, mid, b, end), code, st, end)
    ensures Later(a, mid, b, end).Passed? ==> a.Passed? || b.Passed?
  {
  }

  lemma {:induction false} StmtsStore(env: Env, stmts: Stmts, truth: bool, st: State, fuel: nat)
    ensures var r, w := EvalStmts(env, stmts, truth, st, fuel), Traced(env, stmts, truth, st, fuel);
      Stores(w, r.code, st, r.st) && (Direct(stmts) ==> !w.Passed?)
    decreases fuel, Room(st), stmts, 0
  {
    if stmts.SCons? {
      StmtStores(env, stmts.head, truth, st, fuel);
      hide EvalStmt, TracedStmt, DirectStmt, Stores;
      var t := EvalStmt(env, stmts.head, truth, st, fuel);
      if t.Value? {
        StmtsStore(env, stmts.tail, t.truth, t.st, fuel);
        var r := EvalStmts(env, stmts.tail, t.truth, t.st, fuel);
        var b := Traced(env, stmts.tail, t.truth, t.st, fuel);
        LaterStores(TracedStmt(env, stmts.head, st, fuel), b, r.code, st, t.st, r.st);
      }
    }
  }

  lemma {:induction false} BlockStores(env: Env, b: SBlock, st: State, fuel: nat)
    ensures var r, w := EvalSBlock(env, b, st, fuel), TracedBlock(env, b, st, fuel);
      Stores(w, r.code, st, r.st) && (DirectBlock(b) ==> !w.Passed?)
    decreases fuel, Room(st), b, 0
  {
    if b.SPresent? { StmtsStore(env, b.stmts, true, st, fuel); }
  }

  // The code that a statement leaves its block with, if it does.
  function CodeOf(t: Truth): Code {
    if t.Stop? then t.code else ReturnTrue
  }

  lemma {:induction false} StmtStores(env: Env, s: Stmt, truth: bool, st: State, fuel: nat)
    ensures var r, w := EvalStmt(env, s, truth, st, fuel), TracedStmt(env, s, st, fuel);
      Stores(w, CodeOf(r), st, r.st) && (DirectStmt(s) ==> !w.Passed?)
    decreases fuel, Room(st), s, 0
  {
    hide EvalGuard, EvalExpr, EvalAssign, EvalSBlock, EvalGuarded, TracedBlock, TracedBody;
    match s
    case Mark(_) =>
    case Set(target, op, _, rhs) =>
      ExprStores(env, target, Start([], false), false, st, fuel);
      var w := EvalExpr(env, target, Start([], false), false, st, fuel);
      AssignStores(env, op, w.words, rhs, w.st, fuel);
    case Tests(g) => GuardStores(env, g, st, fuel);
    case Scope(g, t, e) =>
      GuardStores(env, g, st, fuel);
      var v := EvalGuard(env, g, st, fuel);
      if v.Value? { BlockStores(env, if v.truth then t else e, v.st, fuel); }
    case Guarded(g, c, body) =>
      GuardStores(env, g, st, fuel);
      var v := EvalGuard(env, g, st, fuel);
      if v.Value? { BodyStores(env, body, Open(c, v.truth), v.st, fuel); }
    case Unguarded(body) => BodyStores(env, body, true, st, fuel);
  }

  lemma {:induction false} BodyStores(env: Env, b: Body, open: bool, st: State, fuel: nat)
    ensures var r, w := EvalGuarded(env, b, open, st, fuel), TracedBody(env, b, open, st, fuel);
      && Stores(w, CodeOf(r), st, r.st)
      && ((!b.ReturnWords? || open) && DirectBody(b) ==> !w.Passed?)
    decreases fuel, Room(st), b, 1
  {
    hide EvalExpr, EvalVarRefs, EvalSBlock, Turns, TracedBlock, TracedTurns, CourseOf;
    match b
    case For(v, list, _) =>
      VarRefsStore(env, list, [], true, st, fuel);
      var e := EvalVarRefs(env, list, [], true, st, fuel);
      if open && !Stops(e.code) && (v.text != [] || e.words[0] == Text("ever")) {
        TurnsStore(env, b, CourseOf(env, v.text, e.words[0], e.st.stack), 0, ReturnTrue, e.st, fuel);
      }
    case Outside(block) =>
      if open && |st.stack| == 1 {
        BlockStores(env, block, st, fuel);
      } else if open && fuel > 0 {
        BlockStores(env, block, st.(stack := [st.stack[0]]), fuel - 1);
      }
    case ReturnWords(e) => ExprStores(env, e, Start([], false), false, st, fuel);
    case _ =>
  }

  lemma {:induction false} TurnsStore(env: Env, loop: Body, c: Course, index: nat, last: Code, st: State, fuel: nat)
    requires loop.For?
    requires if c.infinite then index <= MAX_ITERATIONS else index <= |c.list|
    ensures var r, w := Turns(env, loop, c, index, last, st, fuel), TracedTurns(env, loop, c, index, st, fuel);
      Stores(w, r.code, st, r.st) && (DirectBody(loop) ==> !w.Passed?)
    decreases fuel, Room(st), loop, 0, 1, if c.infinite then MAX_ITERATIONS - index else |c.list| - index
  {
    hide EvalStmts, Traced, Direct, SetTop, Later;
    if index < (if c.infinite then MAX_ITERATIONS else |c.list|) {
      if !c.infinite && c.list[index] == [] {
        TurnsStore(env, loop, c, index + 1, last, st, fuel);
      } else {
        var value := if c.infinite then Number(index) else c.list[index];
        var st' := if c.infinite && c.variable == [] then st else SetLoopVar(st, c.variable, value);
        StmtsStore(env, loop.body, true, st', fuel);
        var a, r := Traced(env, loop.body, true, st', fuel), EvalStmts(env, loop.body, true, st', fuel);
        if AfterBody(r.code).Again? {
          var code := AfterBody(r.code).code;
          TurnsStore(env, loop, c, index + 1, code, r.st, fuel);
          var b, end := TracedTurns(env, loop, c, index + 1, r.st, fuel),
            Turns(env, loop, c, index + 1, code, r.st, fuel);
          LaterStores(a, b, end.code, st', r.st, end.st);
        }
      }
    }
  }

  // The state in which the body of a function starts.
  function Entry(pro: nat, args: seq<StrList>, st: State): State {
    st.(stack := st.stack + [CallFrame(args)], cur := Location(pro, 0))
  }

  /** The value of every call. A return that is taken gives its words. Otherwise a function that does
      not fail gives those of the last return it passed over, unless a call of a user function ended
      behind it; if there is no such return, it gives what was left over when it was called, unless such
      a call ended in it. It passes none over if it has none behind a chain. */
  lemma ReturnValue(env: Env, pro: nat, stmts: Stmts, args: seq<StrList>, st: State, fuel: nat)
    requires |st.stack| < MAX_DEPTH
    ensures var inner := Entry(pro, args, st);
      var r, w := EvalBody(env, Def(pro, Compile(stmts)), args, st, fuel), Traced(env, stmts, true, inner, fuel);
      && (w.Taken? ==> r.code == ReturnTrue && r.words == w.words)
      && (w.Passed? ==> r.words == if r.code == ReturnTrue then w.words else [])
      && (w.Nothing? ==>
        r.words == if r.code == ReturnTrue && r.st.history.calls == st.history.calls + 1 then st.retval else [])
      && (Direct(stmts) ==> !w.Passed?) && r.st.retval == []
  {
    hide EvalExpr, CallFrame, Compile, EvalStmts, EvalItems, Traced, Direct;
    var inner := Entry(pro, args, st);
    StmtsRefine(env, stmts, true, inner, fuel);
    assert Rest(true) == START;
    StmtsStore(env, stmts, true, inner, fuel);
  }

  /** What a caller passed over is not cleared on entry: an empty function returns it, so its value is
      empty exactly if nothing was left over. */
  lemma EmptyReturnsLeftOver(env: Env, pro: nat, args: seq<StrList>, st: State, fuel: nat)
    requires |st.stack| < MAX_DEPTH
    ensures var r := EvalBody(env, Def(pro, Done), args, st, fuel); r.code == ReturnTrue && r.words == st.retval
  {
    hide CallFrame;
  }

  /** Whatever the guard and the words of a return that is passed over, an empty function called next
      returns these words. */
  lemma PassedOverLeaks(env: Env, g: Guard, c: Connective, e: Expr, truth: bool, st: State, pro: nat,
                        args: seq<StrList>, fuel: nat)
    requires |st.stack| < MAX_DEPTH && EvalStmt(env, Guarded(g, c, ReturnWords(e)), truth, st, fuel).Value?
    ensures var w := EvalExpr(env, e, Start([], false), false, EvalGuard(env, g, st, fuel).st, fuel);
      var after := EvalStmt(env, Guarded(g, c, ReturnWords(e)), truth, st, fuel).st;
      |after.stack| < MAX_DEPTH && EvalBody(env, Def(pro, Done), args, after, fuel).words == w.words
  {
    hide EvalExpr, EvalGuard, EvalBody, EvalItems;
    var after := EvalStmt(env, Guarded(g, c, ReturnWords(e)), truth, st, fuel).st;
    assert EvalGuarded(env, ReturnWords(e), Open(c, EvalGuard(env, g, st, fuel).truth), EvalGuard(env, g, st, fuel).st,
                       fuel).st == after;
    EmptyReturnsLeftOver(env, pro, args, after, fuel);
  }

  /* ---- a return that is not taken ---- */

  // A return behind a guard, then a test.
  function ReturnThenTest(g: Guard, c: Connective, e: Expr, t: Guard): Stmts {
    SCons(Guarded(g, c, ReturnWords(e)), SCons(Tests(t), SNil))
  }

  /** Whatever the guard: if the return is passed over, and then a test succeeds that calls no user
      function, the function returns the words of the return. */
  lemma PassedReturnReturns(env: Env, pro: nat, args: seq<StrList>, g: Guard, c: Connective, e: Expr, t: Guard,
                            st: State, fuel: nat)
    requires |st.stack| < MAX_DEPTH
    requires var s := EvalStmt(env, Guarded(g, c, ReturnWords(e)), true, Entry(pro, args, st), fuel);
      s.Value? && var v := EvalGuard(env, t, s.st, fuel);
        v.Value? && v.truth && v.st.history.calls == s.st.history.calls
    ensures var r := EvalBody(env, Def(pro, Compile(ReturnThenTest(g, c, e, t))), args, st, fuel);
      var at := EvalGuard(env, g, Entry(pro, args, st), fuel).st;
      r.code == ReturnTrue && r.words == EvalExpr(env, e, Start([], false), false, at, fuel).words
  {
    hide EvalExpr, EvalGuard, CallFrame, Compile, EvalItems;
    var inner, body := Entry(pro, args, st), ReturnThenTest(g, c, e, t);
    var s := EvalStmt(env, body.head, true, inner, fuel);
    StmtsRefine(env, body, true, inner, fuel);
    assert Rest(true) == START;
    GuardStores(env, t, s.st, fuel);
    assert EvalStmts(env, SNil, true, EvalGuard(env, t, s.st, fuel).st, fuel).code == ReturnTrue;
    assert EvalStmts(env, body.tail, s.truth, s.st, fuel) == Outcome(ReturnTrue, EvalGuard(env, t, s.st, fuel).st);
    hide EvalStmt;
    assert EvalStmts(env, body, true, inner, fuel) == EvalStmts(env, body.tail, s.truth, s.st, fuel);
  }

  function WordOf(s: Str): Expr {
    ECons(Literal(Flags(true, false), s), ENil)
  }

  function WordTest(s: Str): Guard {
    Guard(Operand(false, WordOf(s), Plain), NoLink)
  }

  lemma WordValue(env: Env, s: Str, st: State, fuel: nat)
    ensures EvalExpr(env, WordOf(s), Start([], false), false, st, fuel) == ExprOutcome(ReturnTrue, [s], st)
  {
  }

  // The words "true" and "false" as tests.
  lemma WordTruth(env: Env, truth: bool, st: State, fuel: nat)
    ensures EvalGuard(env, WordTest(Text(if truth then "true" else "false")), st, fuel) == Value(truth, st)
  {
    hide EvalExpr;
    WordValue(env, Text(if truth then "true" else "false"), st, fuel);
    assert Text("false")[0] != Text("true")[0];
  }

  /** The return is passed over, yet the function returns its word: the words are stored before the
      flags are looked at, and only the end of a user call clears them. */
  lemma SkippedReturnReturns(env: Env, pro: nat, args: seq<StrList>, word: Str, st: State, fuel: nat)
    requires |st.stack| < MAX_DEPTH
    ensures var body := ReturnThenTest(WordTest(Text("false")), Both, WordOf(word), WordTest(Text("true")));
      var r := EvalBody(env, Def(pro, Compile(body)), args, st, fuel); r.code == ReturnTrue && r.words == [word]
  {
    var inner := Entry(pro, args, st);
    hide EvalExpr, EvalGuard, CallFrame, Compile, EvalBody, WordTest, WordOf;
    WordTruth(env, false, inner, fuel);
    WordValue(env, word, inner, fuel);
    WordTruth(env, true, inner.(retval := [word]), fuel);
    PassedReturnReturns(env, pro, args, WordTest(Text("false")), Both, WordOf(word), WordTest(Text("true")), st, fuel);
  }
}
