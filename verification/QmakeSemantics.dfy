/** Structural big-step semantics of the evaluator in non-cumulative mode: no token stream, no
    pointers and no block lengths, only the syntax tree and the evaluator's state. */
module QmakeSemantics {
  import opened Basics
  import opened QmakeProgram
  import opened QmakeValues

  // Diverged is not a code of the program: see EvalItem on bypass blocks.
  datatype Code = ReturnFalse | ReturnTrue | ReturnError | ReturnBreak | ReturnNext | ReturnReturn | Diverged

  type ProgramCode = c: Code | c != Diverged witness ReturnTrue

  datatype Expansion = Expansion(code: ProgramCode, words: StrList)

  datatype Location = Location(pro: nat, line: Ushort)

  // A user function: the file that holds its body, and the body.
  datatype Def = Def(pro: nat, body: Items)

  // How many calls of user functions have ended, and the names export() was called with, in order.
  datatype History = History(calls: nat, exported: seq<Key>)

  // Nothing reads the history.
  datatype State = State(
    stack: Stack,
    testDefs: map<Key, Def>,
    replaceDefs: map<Key, Def>,
    cur: Location,
    retval: StrList,
    history: History)

  // What a builtin can see of the evaluator.
  datatype View = View(stack: Stack, testDefs: set<Key>, replaceDefs: set<Key>, cur: Location)

  datatype TestBuiltin = ExportVar | ClearVar | UnsetVar | OtherTest

  /** The world outside the evaluator's core: the alias table, properties, the environment, the
      builtins that only look at their arguments and the View, regular expressions, and number
      parsing are parameters. */
  datatype Env = Env(
    alias: map<Key, Key>,
    property: Key -> Str,
    getenv: Str -> Str,
    expands: set<Key>,
    expand: (Key, StrList, View) -> Expansion,
    testBuiltins: map<Key, TestBuiltin>,
    otherTest: (Key, StrList, View) -> ProgramCode,
    toInt: Str -> Option<int>,
    wildcard: (Str, Str) -> bool,
    substitute: (Str, StrList) -> StrList,
    hostBuild: bool,
    specName: Str)

  function ViewOf(st: State): View {
    View(st.stack, st.testDefs.Keys, st.replaceDefs.Keys, st.cur)
  }

  function Alias(env: Env, key: Key): Key {
    if key in env.alias then env.alias[key] else key
  }

  /* ---- results ---- */

  datatype Outcome = Outcome(code: Code, st: State)

  // code is ReturnTrue, or the error that stopped the evaluation
  datatype ExprOutcome = ExprOutcome(code: Code, words: StrList, st: State)
  datatype AtomOutcome = AtomOutcome(code: Code, partial: Partial, st: State)
  datatype ArgsOutcome = ArgsOutcome(code: Code, args: seq<StrList>, st: State)

  predicate Stops(code: Code) {
    code == ReturnError || code == Diverged
  }

  // The registers of visitProBlock.
  datatype Regs = Regs(curr: StrList, okey: bool, orOp: bool, invert: bool)

  const START := Regs([], true, false, false)

  datatype Step = Go(regs: Regs, st: State) | Abort(code: Code, st: State)

  function StateOf(s: Step): State { s.st }

  // What evaluation never changes: the depth, the file, and which functions exist; and it undoes no call.
  predicate Kept(st: State, st': State) {
    |st'.stack| == |st.stack| && st'.cur.pro == st.cur.pro && st.history.calls <= st'.history.calls
    && st.testDefs.Keys <= st'.testDefs.Keys && st.replaceDefs.Keys <= st'.replaceDefs.Keys
  }

  const MAX_DEPTH := 100
  const MAX_ITERATIONS := 1000

  // How many nested user calls the recursion limit still allows.
  function Room(st: State): nat {
    if |st.stack| < MAX_DEPTH then MAX_DEPTH - |st.stack| else 0
  }

  /* ---- skipping an expression only follows its line markers ---- */

  function LineAfterExpr(e: Expr, line: Ushort): Ushort {
    match e
    case ENil => line
    case ECons(atom, rest) =>
      LineAfterExpr(rest, LineAfterAtom(atom, line))
  }

  function LineAfterAtom(atom: Atom, line: Ushort): Ushort {
    match atom
    case SetLine(n) => n
    case FuncCall(_, _, args) => LineAfterArgs(args, line)
    case _ => line
  }

  function LineAfterArgs(args: Args, line: Ushort): Ushort {
    match args
    case Last(e) => LineAfterExpr(e, line)
    case More(e, more) => LineAfterArgs(more, LineAfterExpr(e, line))
  }

  function SkipArgs(st: State, args: Args): State {
    st.(cur := st.cur.(line := LineAfterArgs(args, st.cur.line)))
  }

  /* ---- pure steps ---- */

  function NeedsOneArg(args: StrList): bool
    requires args != []
  {
    |args| == 1 && args[0] != []
  }

  function Exported(st: State, key: Key): State {
    st.(stack := Export(st.stack, key), history := st.history.(exported := st.history.exported + [key]))
  }

  function Ended(h: History): History {
    h.(calls := h.calls + 1)
  }

  function Builtin(env: Env, name: Key, args: StrList, st: State): (r: Outcome)
    requires name in env.testBuiltins && args != []
    ensures Kept(st, r.st)
  {
    match env.testBuiltins[name]
    case OtherTest => Outcome(env.otherTest(name, args, ViewOf(st)), st)
    case ExportVar =>
      if NeedsOneArg(args) then Outcome(ReturnTrue, Exported(st, Alias(env, args[0])))
      else Outcome(ReturnFalse, st)
    case ClearVar =>
      if NeedsOneArg(args) && FindFrame(st.stack, Alias(env, args[0])) != -1
      then Outcome(ReturnTrue, st.(stack := Clear(st.stack, Alias(env, args[0]))))
      else Outcome(ReturnFalse, st)
    case UnsetVar =>
      if NeedsOneArg(args) && FindFrame(st.stack, Alias(env, args[0])) != -1
      then Outcome(ReturnTrue, st.(stack := Unset(st.stack, Alias(env, args[0]))))
      else Outcome(ReturnFalse, st)
  }

  function IsActiveConfig(env: Env, config: Str, values: StrList): bool {
    if config == Text("true") then true
    else if config == Text("false") then false
    else if config == Text("host_build") then env.hostBuild
    else if '*' as int in config || '?' as int in config then
      env.wildcard(config, env.specName) || exists i :: 0 <= i < |values| && env.wildcard(config, values[i])
    else
      env.specName == config || config in values
  }

  function Count(s: Str, c: Ushort): nat {
    if s == [] then 0 else (if s[0] == c then 1 else 0) + Count(s[1..], c)
  }

  // An s/// command: 3 or 4 fields between the separators.
  predicate IsSubstitution(command: Str) {
    |command| >= 4 && command[0] == 's' as int && 2 <= Count(command, command[1]) <= 3
  }

  function Store(env: Env, op: AssignOp, key: Key, words: StrList, stack: Stack): (r: Stack)
    requires op == OpReplace ==> words != []
    ensures |r| == |stack|
  {
    match op
    case OpAssign => SetTop(stack, key, RemoveEmpty(words))
    case OpAppend => SetTop(stack, key, Values(stack, key) + RemoveEmpty(words))
    case OpAppendUnique => SetTop(stack, key, InsertUnique(Values(stack, key), words))
    case OpRemove => SetTop(stack, key, RemoveEach(Values(stack, key), words))
    case OpReplace =>
      if IsSubstitution(words[0]) then SetTop(stack, key, env.substitute(words[0], Values(stack, key)))
      else stack
  }

  // The return value of a user test function as a truth value.
  function TestResult(env: Env, ret: StrList): Code {
    if ret == [] then ReturnTrue
    else if ret[0] == Text("false") then ReturnFalse
    else if ret[0] == Text("true") then ReturnTrue
    else if env.toInt(ret[0]).Some? && env.toInt(ret[0]).value != 0 then ReturnTrue
    else ReturnFalse
  }

  function Flatten(args: seq<StrList>): StrList {
    if args == [] then [] else Flatten(args[..|args| - 1]) + args[|args| - 1]
  }

  function Numbered(args: seq<StrList>): Frame {
    if args == [] then map[]
    else Numbered(args[..|args| - 1])[Number(|args|) := Vals(args[|args| - 1])]
  }

  // The frame a user function starts with: 1, 2, ..., ARGS and ARGC.
  function CallFrame(args: seq<StrList>): Frame {
    Numbered(args)[Text("ARGS") := Vals(Flatten(args))][Text("ARGC") := Vals([Number(|args|)])]
  }

  function IndexOfDots(s: Str, from: nat): (i: int)
    requires from <= |s|
    ensures i == -1 || from <= i <= |s| - 2
    decreases |s| - from
  {
    if from + 2 > |s| then -1
    else if s[from] == '.' as int && s[from + 1] == '.' as int then from
    else IndexOfDots(s, from + 1)
  }

  function Up(a: int, b: int): StrList
    decreases b - a
  {
    if a > b then [] else [Number(a)] + Up(a + 1, b)
  }

  function Down(a: int, b: int): StrList
    decreases a - b
  {
    if a < b then [] else [Number(a)] + Down(a - 1, b)
  }

  // "a..b" counts from a to b in either direction; anything else is no range.
  function Range(env: Env, s: Str): StrList {
    var dots := IndexOfDots(s, 0);
    if dots == -1 then []
    else
      var a, b := env.toInt(s[..dots]), env.toInt(s[dots + 2..]);
      if a.None? || b.None? then []
      else if a.value < b.value then Up(a.value, b.value) else Down(a.value, b.value)
  }

  /* ---- expressions ---- */

  // Where evaluateExpression() starts: joined evaluation appends to a new empty word.
  function Start(words: StrList, joined: bool): Partial {
    Partial(if joined then words + [[]] else words, false)
  }

  // TokNewStr closes the word that is still open.
  function Opened(atom: Atom, p: Partial): Partial {
    if !atom.SetLine? && atom.flags.newStr then p.(pending := false) else p
  }

  // The atoms that only read: literals and the three kinds of variables.
  function WithOperand(env: Env, atom: Atom, p: Partial, joined: bool, stack: Stack): (r: Partial)
    requires !atom.SetLine? && !atom.FuncCall?
    requires p.pending || joined ==> p.words != []
    ensures r.pending || joined ==> r.words != []
  {
    match atom
    case Literal(_, s) => AddStr(s, p, joined)
    case HashLiteral(_, n) => AddStr(n.text, p, joined)
    case Variable(f, n) => AddStrList(Values(stack, Alias(env, n.text)), f.quoted, p, joined)
    case Property(_, n) => AddStr(env.property(n.text), p, joined)
    case EnvVar(_, s) => AddStr(env.getenv(s), p, joined)
  }

  function EvalExpr(env: Env, e: Expr, p: Partial, joined: bool, st: State, fuel: nat): (r: ExprOutcome)
    requires p.pending || joined ==> p.words != []
    ensures Kept(st, r.st)
    ensures r.code == ReturnTrue || Stops(r.code)
    ensures joined ==> r.words != []
    decreases fuel, Room(st), e, 0
  {
    match e
    case ENil => ExprOutcome(ReturnTrue, p.words, st)
    case ECons(atom, rest) =>
      var r := EvalAtom(env, atom, p, joined, st, fuel);
      if Stops(r.code) then ExprOutcome(r.code, r.partial.words, r.st)
      else EvalExpr(env, rest, r.partial, joined, r.st, fuel)
  }

  function EvalAtom(env: Env, atom: Atom, p: Partial, joined: bool, st: State, fuel: nat): (r: AtomOutcome)
    requires p.pending || joined ==> p.words != []
    ensures Kept(st, r.st)
    ensures r.code == ReturnTrue || Stops(r.code)
    ensures r.partial.pending || joined ==> r.partial.words != []
    decreases fuel, Room(st), atom, 0
  {
    var p := Opened(atom, p);
    match atom
    case SetLine(n) => AtomOutcome(ReturnTrue, p, st.(cur := st.cur.(line := n)))
    case FuncCall(f, n, args) =>
      var r := EvalExpand(env, n.text, args, st, fuel);
      if Stops(r.code) then AtomOutcome(r.code, p, r.st)
      else AtomOutcome(ReturnTrue, AddStrList(r.words, f.quoted, p, joined), r.st)
    case _ => AtomOutcome(ReturnTrue, WithOperand(env, atom, p, joined, st.stack), st)
  }

  // Joined evaluation makes one string of each argument; user functions take lists.
  function EvalVarRefs(env: Env, args: Args, words: StrList, joined: bool, st: State, fuel: nat): (r: ExprOutcome)
    ensures Kept(st, r.st)
    ensures r.code == ReturnTrue || Stops(r.code)
    ensures joined ==> r.words != []
    decreases fuel, Room(st), args, 0
  {
    var r := EvalExpr(env, args.arg, Start(words, joined), joined, st, fuel);
    if args.Last? || Stops(r.code) then r else EvalVarRefs(env, args.more, r.words, joined, r.st, fuel)
  }

  function EvalListArgs(env: Env, args: Args, done: seq<StrList>, st: State, fuel: nat): (r: ArgsOutcome)
    ensures Kept(st, r.st)
    ensures r.code == ReturnTrue || Stops(r.code)
    decreases fuel, Room(st), args, 0
  {
    var r := EvalExpr(env, args.arg, Start([], false), false, st, fuel);
    if Stops(r.code) then ArgsOutcome(r.code, done, r.st)
    else if args.Last? then ArgsOutcome(ReturnTrue, done + [r.words], r.st)
    else EvalListArgs(env, args.more, done + [r.words], r.st, fuel)
  }

  function EvalCallArgs(env: Env, args: Args, st: State, fuel: nat): (r: ArgsOutcome)
    ensures Kept(st, r.st)
    ensures r.code == ReturnTrue || Stops(r.code)
    decreases fuel, Room(st), args, 1
  {
    if args == Last(ENil) then ArgsOutcome(ReturnTrue, [], st) else EvalListArgs(env, args, [], st, fuel)
  }

  // A user function runs in a new frame; its frame, location and return value are gone afterwards.
  function EvalBody(env: Env, def: Def, args: seq<StrList>, st: State, fuel: nat): (r: ExprOutcome)
    requires |st.stack| < MAX_DEPTH
    ensures Kept(st, r.st)
    decreases fuel, Room(st) - 1
  {
    var inner := st.(stack := st.stack + [CallFrame(args)], cur := Location(def.pro, 0));
    var r := EvalItems(env, def.body, START, inner, fuel);
    var code := if r.code == ReturnReturn then ReturnTrue else r.code;
    ExprOutcome(code, if code == ReturnTrue then r.st.retval else [],
      r.st.(stack := r.st.stack[..|st.stack|], cur := st.cur, retval := [],
              history := Ended(r.st.history)))
  }

  function EvalExpand(env: Env, name: Key, args: Args, st: State, fuel: nat): (r: ExprOutcome)
    ensures Kept(st, r.st)
    decreases fuel, Room(st), args, 2
  {
    if name in env.expands then
      var a := EvalVarRefs(env, args, [], true, st, fuel);
      if Stops(a.code) then a
      else var x := env.expand(name, a.words, ViewOf(a.st)); ExprOutcome(x.code, x.words, a.st)
    else if name in st.replaceDefs then
      var a := EvalCallArgs(env, args, st, fuel);
      if Stops(a.code) then ExprOutcome(a.code, [], a.st)
      else if |a.st.stack| >= MAX_DEPTH then ExprOutcome(ReturnError, [], a.st)
      else EvalBody(env, a.st.replaceDefs[name], a.args, a.st, fuel)
    else ExprOutcome(ReturnFalse, [], SkipArgs(st, args))
  }

  function EvalTest(env: Env, name: Key, args: Args, st: State, fuel: nat): (r: Outcome)
    ensures Kept(st, r.st)
    decreases fuel, Room(st), args, 2
  {
    if name in env.testBuiltins then
      var a := EvalVarRefs(env, args, [], true, st, fuel);
      if Stops(a.code) then Outcome(a.code, a.st) else Builtin(env, name, a.words, a.st)
    else if name in st.testDefs then
      var a := EvalCallArgs(env, args, st, fuel);
      if Stops(a.code) then Outcome(a.code, a.st)
      else if |a.st.stack| >= MAX_DEPTH then Outcome(ReturnError, a.st)
      else
        var r := EvalBody(env, a.st.testDefs[name], a.args, a.st, fuel);
        Outcome(if r.code == ReturnTrue then TestResult(env, r.words) else r.code, r.st)
    else Outcome(ReturnFalse, SkipArgs(st, args))
  }

  /* ---- statements ---- */

  function EvalItems(env: Env, items: Items, regs: Regs, st: State, fuel: nat): (r: Outcome)
    ensures Kept(st, r.st)
    decreases fuel, Room(st), items, 0
  {
    match items
    case Done => Outcome(if regs.okey then ReturnTrue else ReturnFalse, st)
    case Then(item, rest) =>
      match EvalItem(env, item, regs, st, fuel)
      case Go(regs', st') => EvalItems(env, rest, regs', st', fuel)
      case Abort(code, st') => Outcome(code, st')
  }

  function EvalBlock(env: Env, b: Block, st: State, fuel: nat): (r: Outcome)
    ensures Kept(st, r.st)
    decreases fuel, Room(st), b, 0
  {
    match b
    case Absent => Outcome(ReturnTrue, st)
    case Present(items) => EvalItems(env, items, START, st, fuel)
  }

  // A nested statement has run: the flags start afresh unless it stopped the block.
  function Afresh(regs: Regs, r: Outcome): Step {
    if r.code == ReturnTrue || r.code == ReturnFalse then Go(regs.(okey := true, orOp := false), r.st)
    else Abort(r.code, r.st)
  }

  function Tested(regs: Regs, okey: bool, st: State): Step {
    Go(Regs([], okey, !okey, false), st)
  }

  function Control(regs: Regs, code: Code, st: State): Step {
    if regs.okey != regs.orOp then Abort(code, st) else Go(regs.(okey := false, orOp := true), st)
  }

  // An assignment whose left-hand side is not exactly one word does nothing.
  function EvalAssign(env: Env, op: AssignOp, curr: StrList, rhs: Args, st: State, fuel: nat): (r: Outcome)
    ensures Kept(st, r.st)
    ensures r.code == ReturnTrue || Stops(r.code)
    decreases fuel, Room(st), rhs, 1
  {
    if |curr| != 1 then Outcome(ReturnTrue, SkipArgs(st, rhs))
    else
      var r := EvalVarRefs(env, rhs, [], op == OpReplace, st, fuel);
      if Stops(r.code) then Outcome(r.code, r.st)
      else Outcome(ReturnTrue, r.st.(stack := Store(env, op, Alias(env, curr[0]), r.words, r.st.stack)))
  }

  function EvalItem(env: Env, item: Item, regs: Regs, st: State, fuel: nat): (r: Step)
    ensures Kept(st, StateOf(r))
    decreases fuel, Room(st), item, 1
  {
    var go := regs.okey != regs.orOp;
    match item
    case LineMark(n) => Go(regs, st.(cur := st.cur.(line := n)))
    case Words(e) =>
      var r := EvalExpr(env, e, Start(regs.curr, false), false, st, fuel);
      if Stops(r.code) then Abort(r.code, r.st) else Go(regs.(curr := r.words), r.st)
    case Assign(op, _, rhs) =>
      var r := EvalAssign(env, op, regs.curr, rhs, st, fuel);
      if Stops(r.code) then Abort(r.code, r.st) else Go(regs.(curr := []), r.st)
    case Branch(t, e) => Afresh(regs, EvalBlock(env, if regs.okey then t else e, st, fuel))
    case ForLoop(_, _, _) => Afresh(regs, if go then EvalLoop(env, item, st, fuel) else Outcome(ReturnTrue, st))
    case Bypass(b) => Afresh(regs, if go && b.Present? then EvalBypass(env, b, st, fuel) else Outcome(ReturnTrue, st))
    case TestDef(n, body) =>
      Go(regs.(okey := true, orOp := false),
        if go then st.(testDefs := st.testDefs[n.text := Def(st.cur.pro, body)]) else st)
    case ReplaceDef(n, body) =>
      Go(regs.(okey := true, orOp := false),
        if go then st.(replaceDefs := st.replaceDefs[n.text := Def(st.cur.pro, body)]) else st)
    case Not => Go(regs.(invert := !regs.invert), st)
    case And => Go(regs.(orOp := false), st)
    case Or => Go(regs.(orOp := true), st)
    case Condition =>
      var okey :=
        if !go then regs.okey
        else if |regs.curr| != 1 then false
        else IsActiveConfig(env, regs.curr[0], Values(st.stack, Text("CONFIG"))) != regs.invert;
      Tested(regs, okey, st)
    case TestCall(args) =>
      if !go then Tested(regs, regs.okey, SkipArgs(st, args))
      else if |regs.curr| != 1 then Tested(regs, false, SkipArgs(st, args))
      else
        var r := EvalTest(env, regs.curr[0], args, st, fuel);
        if r.code == ReturnTrue || r.code == ReturnFalse then Tested(regs, (r.code == ReturnTrue) != regs.invert, r.st)
        else Abort(r.code, r.st)
    // A return that is skipped still leaves its words as the return value.
    case Return => Control(regs.(curr := []), ReturnReturn, st.(retval := regs.curr))
    case Break => Control(regs, ReturnBreak, st)
    case Next => Control(regs, ReturnNext, st)
  }

  /** A bypass block sees only the bottom frame. It resets the recursion depth, so a function that
      calls itself from a bypass block recurses without limit: fuel bounds how deep such blocks
      nest, and Diverged says that it did not suffice. */
  function EvalBypass(env: Env, b: Block, st: State, fuel: nat): (r: Outcome)
    ensures Kept(st, r.st)
    decreases fuel, Room(st), b, 1
  {
    if |st.stack| == 1 then EvalBlock(env, b, st, fuel)
    else if fuel == 0 then Outcome(Diverged, st)
    else
      var r := EvalBlock(env, b, st.(stack := [st.stack[0]]), fuel - 1);
      Outcome(r.code, r.st.(stack := r.st.stack + st.stack[1..]))
  }

  function EvalLoop(env: Env, loop: Item, st: State, fuel: nat): (r: Outcome)
    requires loop.ForLoop?
    ensures Kept(st, r.st)
    decreases fuel, Room(st), loop, 0, 2
  {
    var e := EvalVarRefs(env, loop.list, [], true, st, fuel);
    if Stops(e.code) then Outcome(e.code, e.st)
    else
      var anonymous := loop.variable.text == [];
      if anonymous && e.words[0] != Text("ever") then Outcome(ReturnFalse, e.st)
      else
        var listName := if anonymous then Text("forever") else e.words[0];
        var variable := if anonymous then [] else Alias(env, loop.variable.text);
        var saved := if anonymous then [] else Values(e.st.stack, variable);
        var named := Values(e.st.stack, listName);
        var infinite := named == [] && listName == Text("forever");
        var list := if named == [] && !infinite then Range(env, listName) else named;
        var r := Iterate(env, loop, variable, infinite, list, 0, ReturnTrue, e.st, fuel);
        Outcome(r.code, if variable == [] then r.st else r.st.(stack := SetTop(r.st.stack, variable, saved)))
  }

  // What a completed iteration means for the loop: go on with this code, or leave with it.
  datatype Turn = Again(code: Code) | Leave(code: Code)

  function AfterBody(code: Code): Turn {
    match code
    case ReturnTrue => Again(code)
    case ReturnFalse => Again(code)
    case ReturnNext => Again(ReturnTrue)
    case ReturnBreak => Leave(ReturnTrue)
    case _ => Leave(code)
  }

  function SetLoopVar(st: State, variable: Key, value: Str): State {
    st.(stack := SetTop(st.stack, variable, [value]))
  }

  // Empty list elements are passed over. A forever loop gives up after its 1000th iteration.
  function Iterate(env: Env, loop: Item, variable: Key, infinite: bool, list: StrList, index: nat, last: Code,
                   st: State, fuel: nat): (r: Outcome)
    requires loop.ForLoop?
    requires if infinite then index <= MAX_ITERATIONS else index <= |list|
    ensures Kept(st, r.st)
    decreases fuel, Room(st), loop, 0, 1, if infinite then MAX_ITERATIONS - index else |list| - index
  {
    if !infinite && index == |list| then Outcome(last, st)
    else if !infinite && list[index] == [] then Iterate(env, loop, variable, infinite, list, index + 1, last, st, fuel)
    else
      var st' := if infinite then (if variable == [] then st else SetLoopVar(st, variable, Number(index)))
                 else SetLoopVar(st, variable, list[index]);
      if infinite && index == MAX_ITERATIONS then Outcome(last, st')
      else
        var r := EvalItems(env, loop.body, START, st', fuel);
        match AfterBody(r.code)
        case Again(code) => Iterate(env, loop, variable, infinite, list, index + 1, code, r.st, fuel)
        case Leave(code) => Outcome(code, r.st)
  }

  // The rest of a loop behind one iteration of its body.
  function AfterTurn(env: Env, loop: Item, variable: Key, infinite: bool, list: StrList, index: nat, r: Outcome,
                     fuel: nat): Outcome
    requires loop.ForLoop?
    requires if infinite then index <= MAX_ITERATIONS else index <= |list|
  {
    match AfterBody(r.code)
    case Again(code) => Iterate(env, loop, variable, infinite, list, index, code, r.st, fuel)
    case Leave(code) => Outcome(code, r.st)
  }

  lemma IterateTurn(env: Env, loop: Item, variable: Key, infinite: bool, list: StrList, index: nat, last: Code,
                    st: State, fuel: nat)
    requires loop.ForLoop?
    requires if infinite then index < MAX_ITERATIONS else index < |list| && list[index] != []
    ensures var st' := if infinite then (if variable == [] then st else SetLoopVar(st, variable, Number(index)))
                       else SetLoopVar(st, variable, list[index]);
      Iterate(env, loop, variable, infinite, list, index, last, st, fuel)
      == AfterTurn(env, loop, variable, infinite, list, index + 1, EvalItems(env, loop.body, START, st', fuel), fuel)
  {
    hide EvalItems;
  }

  lemma IterateEnd(env: Env, loop: Item, variable: Key, infinite: bool, list: StrList, last: Code, st: State, fuel: nat)
    requires loop.ForLoop?
    ensures var index := if infinite then MAX_ITERATIONS else |list|;
      Iterate(env, loop, variable, infinite, list, index, last, st, fuel)
      == Outcome(last, if infinite && variable != [] then SetLoopVar(st, variable, Number(index)) else st)
  {
  }
}
