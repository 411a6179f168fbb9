/** The program format of the qmake evaluator: a syntax tree, and the encoder that lays it out
    as the flat stream of 16-bit tokens documented in qmake/library/proitems.h:332-403. */
module QmakeProgram {

  type Ushort = x: int | 0 <= x < 0x10000

  // Strings are sequences of UTF-16 code units, as in the token payloads.
  type Str = seq<Ushort>
  type Key = Str

  const TOK_TERMINATOR: Ushort := 0
  const TOK_LINE: Ushort := 1
  const TOK_ASSIGN: Ushort := 2
  const TOK_APPEND: Ushort := 3
  const TOK_APPEND_UNIQUE: Ushort := 4
  const TOK_REMOVE: Ushort := 5
  const TOK_REPLACE: Ushort := 6
  const TOK_VALUE_TERMINATOR: Ushort := 7
  const TOK_LITERAL: Ushort := 8
  const TOK_HASH_LITERAL: Ushort := 9
  const TOK_VARIABLE: Ushort := 10
  const TOK_PROPERTY: Ushort := 11
  const TOK_ENV_VAR: Ushort := 12
  const TOK_FUNC_NAME: Ushort := 13
  const TOK_ARG_SEPARATOR: Ushort := 14
  const TOK_FUNC_TERMINATOR: Ushort := 15
  const TOK_CONDITION: Ushort := 16
  const TOK_TEST_CALL: Ushort := 17
  const TOK_RETURN: Ushort := 18
  const TOK_BREAK: Ushort := 19
  const TOK_NEXT: Ushort := 20
  const TOK_NOT: Ushort := 21
  const TOK_AND: Ushort := 22
  const TOK_OR: Ushort := 23
  const TOK_BRANCH: Ushort := 24
  const TOK_FOR_LOOP: Ushort := 25
  const TOK_TEST_DEF: Ushort := 26
  const TOK_REPLACE_DEF: Ushort := 27
  const TOK_BYPASS_NESTING: Ushort := 28

  // A name as it is stored in the stream: the text and the two words of its cached hash.
  datatype Name = Name(text: Key, hashLow: Ushort, hashHigh: Ushort)

  // The TokNewStr and TokQuoted bits of an expression token.
  datatype Flags = Flags(newStr: bool, quoted: bool)

  datatype Expr = ENil | ECons(atom: Atom, rest: Expr)

  datatype Atom =
    | SetLine(line: Ushort)
    | Literal(flags: Flags, text: Str)
    | HashLiteral(flags: Flags, name: Name)
    | Variable(flags: Flags, name: Name)
    | Property(flags: Flags, name: Name)
    | EnvVar(flags: Flags, text: Str)
    | FuncCall(flags: Flags, name: Name, args: Args)

  // A non-empty list of arguments; a call without arguments is Last(ENil).
  datatype Args = Last(arg: Expr) | More(arg: Expr, more: Args)

  datatype AssignOp = OpAssign | OpAppend | OpAppendUnique | OpRemove | OpReplace

  datatype Items = Done | Then(item: Item, rest: Items)

  // A block of length 0, or a block with its terminator.
  datatype Block = Absent | Present(items: Items)

  datatype Item =
    | LineMark(line: Ushort)
    | Words(expr: Expr)                 // leaves its words for the next item
    | Assign(op: AssignOp, hint: Ushort, rhs: Args)
    | Branch(thenBlock: Block, elseBlock: Block)
    | ForLoop(variable: Name, list: Args, body: Items)
    | Bypass(block: Block)
    | TestDef(name: Name, def: Items)
    | ReplaceDef(name: Name, def: Items)
    | Not
    | And
    | Or
    | Condition
    | TestCall(args: Args)
    | Return
    | Break
    | Next

  /* ---- the encoder ---- */

  function Flagged(tok: Ushort, f: Flags): Ushort
    requires tok < 0x100
  {
    tok + (if f.quoted then 0x100 else 0) + (if f.newStr then 0x200 else 0)
  }

  function EncodeStr(s: Str): Str {
    [|s| % 0x10000] + s
  }

  function EncodeName(n: Name): Str {
    [n.hashLow, n.hashHigh] + EncodeStr(n.text)
  }

  function EncodeLen(n: nat): Str {
    [n % 0x10000, n / 0x10000 % 0x10000]
  }

  // The token an atom starts with.
  function AtomToken(a: Atom): Ushort {
    match a
    case SetLine(_) => TOK_LINE
    case Literal(f, _) => Flagged(TOK_LITERAL, f)
    case HashLiteral(f, _) => Flagged(TOK_HASH_LITERAL, f)
    case Variable(f, _) => Flagged(TOK_VARIABLE, f)
    case Property(f, _) => Flagged(TOK_PROPERTY, f)
    case EnvVar(f, _) => Flagged(TOK_ENV_VAR, f)
    case FuncCall(f, _, _) => Flagged(TOK_FUNC_NAME, f)
  }

  // The payload behind that token.
  function AtomPayload(a: Atom): Str
    decreases a, 0
  {
    match a
    case SetLine(n) => [n]
    case Literal(_, s) => EncodeStr(s)
    case EnvVar(_, s) => EncodeStr(s)
    case FuncCall(_, n, args) => EncodeName(n) + EncodeArgs(args, TOK_FUNC_TERMINATOR)
    case HashLiteral(_, n) => EncodeName(n)
    case Variable(_, n) => EncodeName(n)
    case Property(_, n) => EncodeName(n)
  }

  function EncodeAtom(a: Atom): Str
    decreases a, 1
  {
    [AtomToken(a)] + AtomPayload(a)
  }

  function EncodeExpr(e: Expr): Str {
    match e
    case ENil => []
    case ECons(a, rest) => EncodeAtom(a) + EncodeExpr(rest)
  }

  function EncodeArgs(args: Args, terminator: Ushort): Str {
    match args
    case Last(e) => EncodeExpr(e) + [terminator]
    case More(e, more) => EncodeExpr(e) + ([TOK_ARG_SEPARATOR] + EncodeArgs(more, terminator))
  }

  function AssignToken(op: AssignOp): Ushort {
    match op
    case OpAssign => TOK_ASSIGN
    case OpAppend => TOK_APPEND
    case OpAppendUnique => TOK_APPEND_UNIQUE
    case OpRemove => TOK_REMOVE
    case OpReplace => TOK_REPLACE
  }

  function EncodeBlock(b: Block): Str {
    match b
    case Absent => []
    case Present(items) => EncodeItems(items)
  }

  // The token an item starts with, unless it is an expression.
  function ItemToken(i: Item): Ushort
    requires !i.Words?
  {
    match i
    case LineMark(_) => TOK_LINE
    case Assign(op, _, _) => AssignToken(op)
    case Branch(_, _) => TOK_BRANCH
    case ForLoop(_, _, _) => TOK_FOR_LOOP
    case Bypass(_) => TOK_BYPASS_NESTING
    case TestDef(_, _) => TOK_TEST_DEF
    case ReplaceDef(_, _) => TOK_REPLACE_DEF
    case Not => TOK_NOT
    case And => TOK_AND
    case Or => TOK_OR
    case Condition => TOK_CONDITION
    case TestCall(_) => TOK_TEST_CALL
    case Return => TOK_RETURN
    case Break => TOK_BREAK
    case Next => TOK_NEXT
  }

  // What follows that token.
  function ItemPayload(i: Item): Str
    requires !i.Words?
    decreases i, 0
  {
    match i
    case LineMark(n) => [n]
    case Assign(_, hint, rhs) => [hint] + EncodeArgs(rhs, TOK_VALUE_TERMINATOR)
    case Branch(t, e) =>
      EncodeLen(|EncodeBlock(t)|) + (EncodeBlock(t) + (EncodeLen(|EncodeBlock(e)|) + EncodeBlock(e)))
    case ForLoop(v, list, body) =>
      EncodeName(v) + (EncodeLen(|EncodeArgs(list, TOK_VALUE_TERMINATOR)|)
                   + (EncodeArgs(list, TOK_VALUE_TERMINATOR) + (EncodeLen(|EncodeItems(body)|) + EncodeItems(body))))
    case Bypass(b) => EncodeLen(|EncodeBlock(b)|) + EncodeBlock(b)
    case TestDef(n, body) => EncodeName(n) + (EncodeLen(|EncodeItems(body)|) + EncodeItems(body))
    case ReplaceDef(n, body) => EncodeName(n) + (EncodeLen(|EncodeItems(body)|) + EncodeItems(body))
    case TestCall(args) => EncodeArgs(args, TOK_FUNC_TERMINATOR)
    case _ => []
  }

  function EncodeItem(i: Item): Str
    decreases i, 1
  {
    if i.Words? then EncodeExpr(i.expr) else [ItemToken(i)] + ItemPayload(i)
  }

  function EncodeItems(items: Items): Str {
    match items
    case Done => [TOK_TERMINATOR]
    case Then(i, rest) => EncodeItem(i) + EncodeItems(rest)
  }

  /* ---- what the format can express ---- */

  // Lengths must fit their fields. A Words item must start with a proper expression token and
  // must be followed by the item that consumes it: two adjacent expressions are one expression.
  ghost predicate FitsStr(s: Str) { |s| < 0x10000 }

  ghost predicate FitsAtom(a: Atom) {
    match a
    case SetLine(_) => true
    case Literal(_, s) => FitsStr(s)
    case HashLiteral(_, n) => FitsStr(n.text)
    case Variable(_, n) => FitsStr(n.text)
    case Property(_, n) => FitsStr(n.text)
    case EnvVar(_, s) => FitsStr(s)
    case FuncCall(_, n, args) => FitsStr(n.text) && FitsArgs(args)
  }

  ghost predicate FitsExpr(e: Expr) {
    e.ECons? ==> FitsAtom(e.atom) && FitsExpr(e.rest)
  }

  ghost predicate FitsArgs(args: Args) {
    match args
    case Last(e) => FitsExpr(e)
    case More(e, more) => FitsExpr(e) && FitsArgs(more)
  }

  ghost predicate FitsLen(n: nat) { n < 0x1_0000_0000 }

  ghost predicate FitsBlock(b: Block) {
    b.Present? ==> FitsItems(b.items) && FitsLen(|EncodeItems(b.items)|)
  }

  ghost predicate FitsItem(i: Item) {
    match i
    case Words(e) => e.ECons? && !e.atom.SetLine? && FitsExpr(e)
    case Assign(op, _, rhs) => FitsArgs(rhs) && (op == OpReplace || rhs.Last?)
    case Branch(t, e) => FitsBlock(t) && FitsBlock(e)
    case ForLoop(v, list, body) =>
      FitsStr(v.text) && FitsArgs(list) && FitsLen(|EncodeArgs(list, TOK_VALUE_TERMINATOR)|)
      && FitsItems(body) && FitsLen(|EncodeItems(body)|)
    case Bypass(b) => FitsBlock(b)
    case TestDef(n, body) => FitsStr(n.text) && FitsItems(body) && FitsLen(|EncodeItems(body)|)
    case ReplaceDef(n, body) => FitsStr(n.text) && FitsItems(body) && FitsLen(|EncodeItems(body)|)
    case TestCall(args) => FitsArgs(args)
    case _ => true
  }

  ghost predicate ConsumesWords(rest: Items) {
    rest.Then? && !rest.item.Words? && !rest.item.LineMark?
  }

  ghost predicate FitsItems(items: Items) {
    items.Then? ==>
      FitsItem(items.item) && FitsItems(items.rest) && (items.item.Words? ==> ConsumesWords(items.rest))
  }
}
