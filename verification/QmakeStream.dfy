/** Reading the token stream: what the tokens at a position are when an encoding starts there. */
module QmakeStream {
  import opened QmakeProgram

  ghost predicate At(toks: Str, p: nat, code: Str) {
    p + |code| <= |toks| && forall i :: 0 <= i < |code| ==> code[i] == toks[p + i]
  }

  lemma Split(toks: Str, p: nat, a: Str, b: Str)
    requires At(toks, p, a + b)
    ensures At(toks, p, a) && At(toks, p + |a|, b)
  {
    forall i | 0 <= i < |a| ensures a[i] == toks[p + i] { assert (a + b)[i] == a[i]; }
    forall i | 0 <= i < |b| ensures b[i] == toks[p + |a| + i] { assert (a + b)[|a| + i] == b[i]; }
  }

  lemma Head(toks: Str, p: nat, code: Str, i: nat)
    requires At(toks, p, code) && i < |code|
    ensures p + i < |toks| && toks[p + i] == code[i]
  {
  }

  predicate IsExprToken(tok: Ushort) {
    tok % 0x100 == TOK_LINE || TOK_LITERAL <= tok % 0x100 <= TOK_FUNC_NAME
  }

  // An atom's token without the flag bits.
  function AtomKind(a: Atom): Ushort {
    match a
    case SetLine(_) => TOK_LINE
    case Literal(_, _) => TOK_LITERAL
    case HashLiteral(_, _) => TOK_HASH_LITERAL
    case Variable(_, _) => TOK_VARIABLE
    case Property(_, _) => TOK_PROPERTY
    case EnvVar(_, _) => TOK_ENV_VAR
    case FuncCall(_, _, _) => TOK_FUNC_NAME
  }

  predicate HasNewStr(tok: Ushort) { tok / 0x200 % 2 == 1 }

  predicate HasQuoted(tok: Ushort) { tok / 0x100 % 2 == 1 }

  lemma TokenParts(a: Atom)
    ensures AtomToken(a) % 0x100 == AtomKind(a) && IsExprToken(AtomToken(a))
    ensures HasNewStr(AtomToken(a)) <==> !a.SetLine? && a.flags.newStr
    ensures HasQuoted(AtomToken(a)) <==> !a.SetLine? && a.flags.quoted
  {
    if !a.SetLine? {
      assert AtomToken(a) == Flagged(AtomKind(a), a.flags);
      FlaggedParts(AtomKind(a), a.flags);
    }
  }

  lemma FlaggedParts(tok: Ushort, f: Flags)
    requires tok < 0x100
    ensures Flagged(tok, f) % 0x100 == tok
    ensures HasNewStr(Flagged(tok, f)) <==> f.newStr
    ensures HasQuoted(Flagged(tok, f)) <==> f.quoted
  {
  }

  lemma AtomAt(toks: Str, p: nat, a: Atom, rest: Str)
    requires At(toks, p, EncodeAtom(a) + rest)
    ensures At(toks, p + 1, AtomPayload(a)) && At(toks, p + 1 + |AtomPayload(a)|, rest)
    ensures p < |toks| && toks[p] == AtomToken(a)
    ensures |EncodeAtom(a)| == 1 + |AtomPayload(a)|
  {
    hide EncodeItems, EncodeArgs, EncodeExpr, EncodeBlock, EncodeName, EncodeStr, At;
    Split(toks, p, EncodeAtom(a), rest);
    Split(toks, p, [AtomToken(a)], AtomPayload(a));
    Head(toks, p, [AtomToken(a)], 0);
  }

  lemma StrAt(toks: Str, p: nat, s: Str)
    requires At(toks, p, EncodeStr(s)) && FitsStr(s)
    ensures p < |toks| && toks[p] == |s| && p + 1 + |s| <= |toks| && toks[p + 1..p + 1 + |s|] == s
    ensures |EncodeStr(s)| == 1 + |s|
  {
    Split(toks, p, [|s| % 0x10000], s);
    Head(toks, p, [|s| % 0x10000], 0);
    assert toks[p + 1..p + 1 + |s|] == s;
  }

  lemma NameAt(toks: Str, p: nat, n: Name)
    requires At(toks, p, EncodeName(n)) && FitsStr(n.text)
    ensures At(toks, p + 2, EncodeStr(n.text))
    ensures |EncodeName(n)| == 2 + |EncodeStr(n.text)|
  {
    Split(toks, p, [n.hashLow, n.hashHigh], EncodeStr(n.text));
  }

  lemma SplitOff(toks: Str, p: nat, a: Str, b: Str, c: Str)
    requires At(toks, p, a + (b + c))
    ensures At(toks, p, a + b) && At(toks, p + |a| + |b|, c)
  {
    assert a + (b + c) == (a + b) + c;
    Split(toks, p, a + b, c);
  }

  lemma LenAt(toks: Str, p: nat, n: nat, rest: Str)
    requires At(toks, p, EncodeLen(n) + rest) && FitsLen(n)
    ensures p + 2 <= |toks| && toks[p] as int + toks[p + 1] as int * 0x10000 == n
    ensures At(toks, p + 2, rest)
  {
    Split(toks, p, EncodeLen(n), rest);
    Head(toks, p, EncodeLen(n), 0);
    Head(toks, p, EncodeLen(n), 1);
  }

  // An argument list starts with its first expression and goes on with a separator or the terminator.
  function ArgsTail(args: Args, terminator: Ushort): Str {
    match args
    case Last(_) => [terminator]
    case More(_, more) => [TOK_ARG_SEPARATOR] + EncodeArgs(more, terminator)
  }

  function WithArg(args: Args, e: Expr): Args {
    match args
    case Last(_) => Last(e)
    case More(_, more) => More(e, more)
  }

  lemma ArgsAt(toks: Str, p: nat, args: Args, terminator: Ushort)
    requires At(toks, p, EncodeArgs(args, terminator))
    ensures At(toks, p, EncodeExpr(args.arg) + ArgsTail(args, terminator))
    ensures At(toks, p, EncodeExpr(args.arg)) && At(toks, p + |EncodeExpr(args.arg)|, ArgsTail(args, terminator))
    ensures |EncodeArgs(args, terminator)| == |EncodeExpr(args.arg)| + |ArgsTail(args, terminator)|
    ensures toks[p + |EncodeExpr(args.arg)|] == if args.Last? then terminator else TOK_ARG_SEPARATOR
  {
    assert EncodeArgs(args, terminator) == EncodeExpr(args.arg) + ArgsTail(args, terminator);
    Split(toks, p, EncodeExpr(args.arg), ArgsTail(args, terminator));
    Head(toks, p + |EncodeExpr(args.arg)|, ArgsTail(args, terminator), 0);
  }

  lemma TailAt(toks: Str, p: nat, args: Args, terminator: Ushort)
    requires args.More? && At(toks, p, ArgsTail(args, terminator))
    ensures At(toks, p + 1, EncodeArgs(args.more, terminator))
  {
    Split(toks, p, [TOK_ARG_SEPARATOR], EncodeArgs(args.more, terminator));
  }

  // One more atom at the front of the first argument.
  lemma ArgsAtom(args: Args, terminator: Ushort)
    requires args.arg.ECons?
    ensures EncodeArgs(args, terminator)
         == EncodeAtom(args.arg.atom) + EncodeArgs(WithArg(args, args.arg.rest), terminator)
  {
    var e := args.arg;
    match args
    case Last(_) =>
    case More(_, more) =>
      assert EncodeAtom(e.atom) + EncodeExpr(e.rest) + ([TOK_ARG_SEPARATOR] + EncodeArgs(more, terminator))
          == EncodeAtom(e.atom) + (EncodeExpr(e.rest) + ([TOK_ARG_SEPARATOR] + EncodeArgs(more, terminator)));
  }

  /* ---- items ---- */

  lemma ItemAt(toks: Str, p: nat, i: Item)
    requires !i.Words? && At(toks, p, EncodeItem(i))
    ensures p < |toks| && toks[p] == ItemToken(i) && At(toks, p + 1, ItemPayload(i))
    ensures |EncodeItem(i)| == 1 + |ItemPayload(i)|
  {
    hide EncodeItems, EncodeArgs, EncodeExpr, EncodeBlock, EncodeName, EncodeStr, At;
    Split(toks, p, [ItemToken(i)], ItemPayload(i));
    Head(toks, p, [ItemToken(i)], 0);
  }

  lemma WordsAt(toks: Str, p: nat, e: Expr)
    requires e.ECons? && !e.atom.SetLine? && At(toks, p, EncodeExpr(e))
    ensures p < |toks| && TOK_LITERAL <= toks[p] % 0x100 <= TOK_FUNC_NAME
  {
    AtomAt(toks, p, e.atom, EncodeExpr(e.rest));
    TokenParts(e.atom);
  }

  // The item behind an expression starts with no expression token.
  lemma ConsumerAt(toks: Str, p: nat, rest: Items)
    requires ConsumesWords(rest) && At(toks, p, EncodeItems(rest))
    ensures EndsExpr(toks, p)
  {
    hide EncodeArgs, EncodeExpr, EncodeBlock, EncodeName, EncodeStr, At;
    Split(toks, p, EncodeItem(rest.item), EncodeItems(rest.rest));
    ItemAt(toks, p, rest.item);
  }

  lemma ItemsAt(toks: Str, p: nat, items: Items)
    requires items.Then? && At(toks, p, EncodeItems(items)) && FitsItems(items)
    ensures p < |toks| && toks[p] != TOK_TERMINATOR
    ensures At(toks, p, EncodeItem(items.item)) && At(toks, p + |EncodeItem(items.item)|, EncodeItems(items.rest))
    ensures items.item.Words? ==> EndsExpr(toks, p + |EncodeItem(items.item)|)
  {
    hide EncodeArgs, EncodeExpr, EncodeBlock, EncodeName, EncodeStr, At;
    Split(toks, p, EncodeItem(items.item), EncodeItems(items.rest));
    if items.item.Words? {
      WordsAt(toks, p, items.item.expr);
      ConsumerAt(toks, p + |EncodeItem(items.item)|, items.rest);
    } else {
      ItemAt(toks, p, items.item);
    }
  }

  // An expression cannot go on here.
  predicate EndsExpr(toks: Str, p: nat) {
    p < |toks| && !IsExprToken(toks[p])
  }

  lemma BranchAt(toks: Str, p: nat, t: Block, e: Block)
    requires At(toks, p, ItemPayload(Branch(t, e))) && FitsItem(Branch(t, e))
    ensures At(toks, p, EncodeLen(|EncodeBlock(t)|) + EncodeBlock(t))
    ensures At(toks, p + 2 + |EncodeBlock(t)|, EncodeLen(|EncodeBlock(e)|) + EncodeBlock(e))
    ensures FitsLen(|EncodeBlock(t)|) && FitsLen(|EncodeBlock(e)|)
    ensures |ItemPayload(Branch(t, e))| == 4 + |EncodeBlock(t)| + |EncodeBlock(e)|
  {
    hide EncodeItems, EncodeArgs, EncodeExpr, EncodeName, EncodeStr, At;
    SplitOff(toks, p, EncodeLen(|EncodeBlock(t)|), EncodeBlock(t), EncodeLen(|EncodeBlock(e)|) + EncodeBlock(e));
  }

  lemma DefAt(toks: Str, p: nat, n: Name, body: Items)
    requires At(toks, p, EncodeName(n) + (EncodeLen(|EncodeItems(body)|) + EncodeItems(body)))
    requires FitsStr(n.text) && FitsLen(|EncodeItems(body)|)
    ensures At(toks, p, EncodeName(n))
    ensures At(toks, p + |EncodeName(n)|, EncodeLen(|EncodeItems(body)|) + EncodeItems(body))
  {
    hide EncodeItems, EncodeArgs, EncodeExpr, EncodeBlock, EncodeName, EncodeStr, At;
    Split(toks, p, EncodeName(n), EncodeLen(|EncodeItems(body)|) + EncodeItems(body));
  }

  lemma ForAt(toks: Str, p: nat, v: Name, list: Args, body: Items)
    requires At(toks, p, ItemPayload(ForLoop(v, list, body))) && FitsItem(ForLoop(v, list, body))
    ensures var code := EncodeArgs(list, TOK_VALUE_TERMINATOR);
      var q := p + |EncodeName(v)|;
      var m := q + 2 + |code|;
      && At(toks, p, EncodeName(v)) && At(toks, q, EncodeLen(|code|) + code)
      && At(toks, m, EncodeLen(|EncodeItems(body)|) + EncodeItems(body))
      && |ItemPayload(ForLoop(v, list, body))| == |EncodeName(v)| + 4 + |code| + |EncodeItems(body)|
  {
    hide EncodeItems, EncodeArgs, EncodeExpr, EncodeBlock, EncodeName, EncodeStr, At;
    var code := EncodeArgs(list, TOK_VALUE_TERMINATOR);
    var q := p + |EncodeName(v)|;
    Split(toks, p, EncodeName(v), EncodeLen(|code|) + (code + (EncodeLen(|EncodeItems(body)|) + EncodeItems(body))));
    SplitOff(toks, q, EncodeLen(|code|), code, EncodeLen(|EncodeItems(body)|) + EncodeItems(body));
  }
}
