/** The words that an expression makes of its operands. */
module QmakeWords {
  import opened Basics
  import opened QmakeProgram
  import opened QmakeValues
  import opened QmakeSemantics

  // The value of one operand: a text, or a list of values.
  datatype Operand =
    | Single(newStr: bool, text: Str)
    | Many(newStr: bool, quoted: bool, list: StrList)

  ghost function OperandOf(env: Env, atom: Atom, st: State, fuel: nat): Operand
    requires !atom.SetLine?
  {
    match atom
    case Literal(f, s) => Single(f.newStr, s)
    case HashLiteral(f, n) => Single(f.newStr, n.text)
    case Variable(f, n) => Many(f.newStr, f.quoted, Values(st.stack, Alias(env, n.text)))
    case Property(f, n) => Single(f.newStr, env.property(n.text))
    case EnvVar(f, s) => Single(f.newStr, env.getenv(s))
    case FuncCall(f, n, args) => Many(f.newStr, f.quoted, EvalExpand(env, n.text, args, st, fuel).words)
  }

  ghost function AfterAtom(env: Env, atom: Atom, st: State, fuel: nat): State {
    match atom
    case SetLine(n) => st.(cur := st.cur.(line := n))
    case FuncCall(_, n, args) => EvalExpand(env, n.text, args, st, fuel).st
    case _ => st
  }

  /** The operands of an expression, evaluated one after the other. */
  ghost function Operands(env: Env, e: Expr, st: State, fuel: nat): seq<Operand> {
    match e
    case ENil => []
    case ECons(atom, rest) =>
      (if atom.SetLine? then [] else [OperandOf(env, atom, st, fuel)])
      + Operands(env, rest, AfterAtom(env, atom, st, fuel), fuel)
  }

  /* ---- words ---- */

  // What an operand brings in: a quoted list brings one text, in which blanks part its elements.
  function Pieces(o: Operand): StrList {
    match o
    case Single(_, text) => [text]
    case Many(_, quoted, list) => if quoted && list != [] then [JoinedBy(list, SPACE)] else list
  }

  // An operand makes a word on its own, unless it is an unquoted list of nothing, or of one empty value;
  // if all is joined, an empty text makes none either.
  predicate Opens(o: Operand, joined: bool) {
    Pieces(o) != [] && if o.Single? then !joined || o.text != [] else o.quoted || o.list != [[]]
  }

  // Since the last new string some operand has made a word, which the next one goes on with.
  ghost predicate Pending(ops: seq<Operand>, joined: bool) {
    exists i :: 0 <= i < |ops| && Opens(ops[i], joined) && forall j :: i < j < |ops| ==> !ops[j].newStr
  }

  // In front of a word of its own, an unquoted list drops an empty first element.
  function Fresh(o: Operand): StrList {
    if o.Many? && !o.quoted && o.list != [] && o.list[0] == [] then o.list[1..] else Pieces(o)
  }

  // The words after one more operand: its first piece goes on with the last word, or all are new words.
  function Placed(words: StrList, glue: bool, o: Operand): StrList {
    var ps := Pieces(o);
    if !glue || words == [] then words + Fresh(o)
    else if ps == [] then words
    else words[..|words| - 1] + [words[|words| - 1] + ps[0]] + ps[1..]
  }

  /** The words of an expression that is not joined. */
  ghost function Words(ops: seq<Operand>): StrList {
    if ops == [] then []
    else
      var init, o := ops[..|ops| - 1], ops[|ops| - 1];
      Placed(Words(init), Pending(init, false) && !o.newStr, o)
  }

  lemma PendingMore(ops: seq<Operand>, o: Operand, joined: bool)
    ensures Pending(ops + [o], joined) <==> Opens(o, joined) || (!o.newStr && Pending(ops, joined))
    ensures !Pending([], joined)
  {
    var all := ops + [o];
    if Pending(all, joined) && !Opens(o, joined) {
      var i :| 0 <= i < |all| && Opens(all[i], joined) && forall j :: i < j < |all| ==> !all[j].newStr;
      assert all[|ops|] == o && all[i] == ops[i];
      assert forall j :: i < j < |ops| ==> all[j] == ops[j];
    }
    if Opens(o, joined) { assert all[|ops|] == o; }
    if !o.newStr && Pending(ops, joined) {
      var i :| 0 <= i < |ops| && Opens(ops[i], joined) && forall j :: i < j < |ops| ==> !ops[j].newStr;
      assert all[i] == ops[i];
      assert forall j :: i < j < |all| ==> all[j] == if j < |ops| then ops[j] else o;
    }
  }

  lemma WordsMore(ops: seq<Operand>, o: Operand)
    ensures Words(ops + [o]) == Placed(Words(ops), Pending(ops, false) && !o.newStr, o)
  {
    assert (ops + [o])[..|ops|] == ops;
  }

  lemma {:induction false} PendingWords(ops: seq<Operand>)
    ensures Pending(ops, false) ==> Words(ops) != []
    decreases |ops|
  {
    if ops != [] {
      var init, o := ops[..|ops| - 1], ops[|ops| - 1];
      assert ops == init + [o];
      PendingWords(init);
      PendingMore(init, o, false);
    }
  }

  lemma {:induction false} JoinWithBlanks(l: StrList)
    requires l != []
    ensures JoinWith(l, false) == JoinedBy(l, SPACE) && JoinWith(l, true) == [SPACE] + JoinedBy(l, SPACE)
    decreases |l|
  {
    if |l| > 1 {
      JoinWithBlanks(l[1..]);
    } else {
      assert JoinWith(l[1..], true) == [];
    }
  }

  // The expression so far holds these words behind the given ones.
  ghost predicate Holds(p: Partial, before: StrList, ops: seq<Operand>) {
    p.words == before + Words(ops) && (p.pending <==> Pending(ops, false))
  }

  lemma TextPlaced(p: Partial, before: StrList, ops: seq<Operand>, newStr: bool, text: Str)
    requires Holds(p, before, ops)
    ensures var q := if newStr then p.(pending := false) else p;
      (q.pending ==> q.words != []) && Holds(AddStr(text, q, false), before, ops + [Single(newStr, text)])
  {
    hide Words, Pending;
    PendingWords(ops);
    PendingMore(ops, Single(newStr, text), false);
    WordsMore(ops, Single(newStr, text));
    LastWord(before, Words(ops));
  }

  lemma LastWord(before: StrList, words: StrList)
    ensures words != [] ==> var all := before + words;
      all[..|all| - 1] == before + words[..|words| - 1] && all[|all| - 1] == words[|words| - 1]
  {
  }

  lemma ListPlaced(p: Partial, before: StrList, ops: seq<Operand>, newStr: bool, quoted: bool, list: StrList)
    requires Holds(p, before, ops)
    ensures var q := if newStr then p.(pending := false) else p;
      && (q.pending ==> q.words != [])
      && Holds(AddStrList(list, quoted, q, false), before, ops + [Many(newStr, quoted, list)])
  {
    hide Words, Pending, AddStrList, Placed;
    var o, w := Many(newStr, quoted, list), Words(ops);
    var q := if newStr then p.(pending := false) else p;
    PendingWords(ops);
    PendingMore(ops, o, false);
    WordsMore(ops, o);
    ListAdded(q, before, w, o);
  }

  lemma NewLast(words: StrList, text: Str)
    ensures ReplaceLast(words + [[]], (words + [[]])[|words|] + text) == words + [text]
  {
    assert (words + [[]])[..|words|] == words && [] + text == text;
  }

  lemma LastReplaced(before: StrList, words: StrList, text: Str)
    requires words != []
    ensures var all, last := before + words, words[|words| - 1];
      ReplaceLast(all, all[|all| - 1] + text) == before + (words[..|words| - 1] + [last + text])
  {
  }

  lemma ListAdded(q: Partial, before: StrList, words: StrList, o: Operand)
    requires o.Many? && q.words == before + words && (q.pending ==> words != [])
    ensures var r := AddStrList(o.list, o.quoted, q, false);
      r.words == before + Placed(words, q.pending, o) && (r.pending <==> Opens(o, false) || q.pending)
  {
    hide JoinWith, JoinedBy, ReplaceLast;
    LastWord(before, words);
    if o.list != [] {
      JoinWithBlanks(o.list);
      if o.quoted {
        NewLast(q.words, JoinWith(o.list, false));
        if q.pending { LastReplaced(before, words, JoinWith(o.list, false)); }
      } else if q.pending {
        LastReplaced(before, words, o.list[0]);
      }
    }
  }

  lemma {:induction false} ExprPlaces(env: Env, e: Expr, p: Partial, before: StrList, ops: seq<Operand>, st: State,
                                      fuel: nat)
    requires (p.pending ==> p.words != []) && Holds(p, before, ops)
    requires EvalExpr(env, e, p, false, st, fuel).code == ReturnTrue
    ensures EvalExpr(env, e, p, false, st, fuel).words == before + Words(ops + Operands(env, e, st, fuel))
    decreases e
  {
    hide Words, Pending;
    match e
    case ENil => assert ops + [] == ops;
    case ECons(atom, rest) =>
      var r := EvalAtom(env, atom, p, false, st, fuel);
      AtomPlaces(env, atom, p, before, ops, st, fuel);
      var more := if atom.SetLine? then [] else [OperandOf(env, atom, st, fuel)];
      ExprPlaces(env, rest, r.partial, before, ops + more, r.st, fuel);
      assert ops + more + Operands(env, rest, r.st, fuel) == ops + (more + Operands(env, rest, r.st, fuel));
  }

  lemma AtomPlaces(env: Env, atom: Atom, p: Partial, before: StrList, ops: seq<Operand>, st: State, fuel: nat)
    requires (p.pending ==> p.words != []) && Holds(p, before, ops)
    requires EvalAtom(env, atom, p, false, st, fuel).code == ReturnTrue
    ensures var r := EvalAtom(env, atom, p, false, st, fuel);
      && r.st == AfterAtom(env, atom, st, fuel)
      && Holds(r.partial, before, ops + if atom.SetLine? then [] else [OperandOf(env, atom, st, fuel)])
  {
    hide Holds, AddStr, AddStrList, EvalExpand, Values;
    if atom.SetLine? {
      assert ops + [] == ops;
    } else {
      var o := OperandOf(env, atom, st, fuel);
      if o.Single? { TextPlaced(p, before, ops, o.newStr, o.text); }
      else { ListPlaced(p, before, ops, o.newStr, o.quoted, o.list); }
    }
  }

  /** An expression that is evaluated without error adds the words of its operands to the given ones. */
  lemma ExprWords(env: Env, e: Expr, words: StrList, st: State, fuel: nat)
    requires EvalExpr(env, e, Start(words, false), false, st, fuel).code == ReturnTrue
    ensures EvalExpr(env, e, Start(words, false), false, st, fuel).words == words + Words(Operands(env, e, st, fuel))
  {
    PendingMore([], Single(false, []), false);
    assert words + Words([]) == words;
    hide Words, Pending;
    ExprPlaces(env, e, Start(words, false), words, [], st, fuel);
    assert [] + Operands(env, e, st, fuel) == Operands(env, e, st, fuel);
  }

  /* ---- what is in the words ---- */

  function AllPieces(ops: seq<Operand>): StrList {
    if ops == [] then [] else AllPieces(ops[..|ops| - 1]) + Pieces(ops[|ops| - 1])
  }

  lemma PlacedText(words: StrList, glue: bool, o: Operand)
    ensures Chars(Placed(words, glue, o)) == Chars(words) + Chars(Pieces(o))
  {
    var ps := Pieces(o);
    if !glue || words == [] {
      CharsAppend(words, Fresh(o));
    } else if ps != [] {
      var init, last := words[..|words| - 1], words[|words| - 1];
      assert words == init + [last];
      CharsAppend(init, [last]);
      CharsAppend(init + [last + ps[0]], ps[1..]);
      CharsAppend(init, [last + ps[0]]);
      CharsOne(last);
      CharsOne(last + ps[0]);
    }
  }

  /** The words hold the characters of all operands, in order, and no others. */
  lemma {:induction false} WordsText(ops: seq<Operand>)
    ensures Chars(Words(ops)) == Chars(AllPieces(ops))
    decreases |ops|
  {
    hide Placed, Pending;
    if ops != [] {
      var init, o := ops[..|ops| - 1], ops[|ops| - 1];
      WordsText(init);
      PlacedText(Words(init), Pending(init, false) && !o.newStr, o);
      CharsAppend(AllPieces(init), Pieces(o));
    }
  }

  /** One more operand leaves all words but the last; behind a pending word and without a new string its
      first piece opens no word, and otherwise none of its pieces goes on with a word. */
  lemma WordsBorders(ops: seq<Operand>, o: Operand)
    ensures var a, b, ps := Words(ops), Words(ops + [o]), Pieces(o);
      && (Pending(ops, false) && !o.newStr && ps != [] ==>
        && a != [] && |b| == |a| + |ps| - 1
        && a[..|a| - 1] <= b && a[|a| - 1] <= b[|a| - 1] && b[|a|..] == ps[1..])
      && (!Pending(ops, false) || o.newStr ==>
        a <= b && (b[|a|..] == ps || (ps != [] && ps[0] == [] && b[|a|..] == ps[1..])))
      && (ps == [] ==> b == a)
  {
    WordsMore(ops, o);
    PendingWords(ops);
    hide Words, Pending;
    PlacedBorders(Words(ops), Pending(ops, false) && !o.newStr, o);
    hide Placed, Pieces;
  }

  lemma PlacedBorders(a: StrList, glue: bool, o: Operand)
    requires glue ==> a != []
    ensures var b, ps := Placed(a, glue, o), Pieces(o);
      && (glue && ps != [] ==>
        |b| == |a| + |ps| - 1 && a[..|a| - 1] <= b && a[|a| - 1] <= b[|a| - 1] && b[|a|..] == ps[1..])
      && (!glue ==> a <= b && (b[|a|..] == ps || (ps != [] && ps[0] == [] && b[|a|..] == ps[1..])))
      && (ps == [] ==> b == a)
  {
    hide JoinedBy;
  }

  /* ---- joined expressions ---- */

  // The text that an operand adds.
  function Piece(o: Operand, glue: bool): Option<Str> {
    match o
    case Single(_, text) => if text == [] then None else Some(text)
    case Many(_, quoted, list) =>
      if list == [] then None
      else if quoted || glue || list[0] != [] then Some(JoinedBy(list, SPACE))
      else if |list| == 1 then None
      else Some(JoinedBy(list[1..], SPACE))
  }

  // Only what does not go on with a pending text is parted from it by a blank.
  function Appended(text: Str, glue: bool, o: Operand): Str {
    match Piece(o, glue)
    case None => text
    case Some(p) => if glue || text == [] then text + p else text + [SPACE] + p
  }

  /** The one word of an expression that is joined. */
  ghost function JoinedText(ops: seq<Operand>): Str {
    if ops == [] then []
    else
      var init, o := ops[..|ops| - 1], ops[|ops| - 1];
      Appended(JoinedText(init), Pending(init, true) && !o.newStr, o)
  }

  ghost predicate HoldsText(p: Partial, before: StrList, ops: seq<Operand>) {
    p.words == before + [JoinedText(ops)] && (p.pending <==> Pending(ops, true))
  }

  lemma TextMore(ops: seq<Operand>, o: Operand)
    ensures JoinedText(ops + [o]) == Appended(JoinedText(ops), Pending(ops, true) && !o.newStr, o)
  {
    assert (ops + [o])[..|ops|] == ops;
  }

  lemma LastText(before: StrList, a: Str, b: Str)
    ensures var all := before + [a]; all[|all| - 1] == a && ReplaceLast(all, b) == before + [b]
  {
  }

  lemma TextJoined(q: Partial, before: StrList, text: Str, newStr: bool, more: Str)
    requires q.words == before + [text]
    ensures var r, o := AddStr(more, q, true), Single(newStr, more);
      r.words == before + [Appended(text, q.pending, o)] && (r.pending <==> Opens(o, true) || q.pending)
  {
    hide ReplaceLast;
    LastText(before, text, if text != [] && !q.pending then text + [SPACE] + more else text + more);
  }

  lemma ListJoined(q: Partial, before: StrList, text: Str, o: Operand)
    requires q.words == before + [text] && o.Many?
    ensures var r := AddStrList(o.list, o.quoted, q, true);
      r.words == before + [Appended(text, q.pending, o)] && (r.pending <==> Opens(o, true) || q.pending)
  {
    hide ReplaceLast, JoinWith, JoinedBy;
    if o.list != [] {
      var skip := !q.pending && !o.quoted && o.list[0] == [];
      if !(skip && |o.list| == 1) {
        var l := if skip then o.list[1..] else o.list;
        JoinWithBlanks(l);
        LastText(before, text, text + JoinWith(l, !q.pending && text != []));
        assert text + ([SPACE] + JoinedBy(l, SPACE)) == text + [SPACE] + JoinedBy(l, SPACE);
      }
    }
  }

  lemma AtomJoins(env: Env, atom: Atom, p: Partial, before: StrList, ops: seq<Operand>, st: State, fuel: nat)
    requires p.words != [] && HoldsText(p, before, ops)
    requires EvalAtom(env, atom, p, true, st, fuel).code == ReturnTrue
    ensures var r := EvalAtom(env, atom, p, true, st, fuel);
      && r.st == AfterAtom(env, atom, st, fuel)
      && HoldsText(r.partial, before, ops + if atom.SetLine? then [] else [OperandOf(env, atom, st, fuel)])
  {
    hide AddStr, AddStrList, EvalExpand, Values, JoinedText, Pending, Appended;
    if atom.SetLine? {
      assert ops + [] == ops;
    } else {
      var o := OperandOf(env, atom, st, fuel);
      var q := Opened(atom, p);
      PendingMore(ops, o, true);
      TextMore(ops, o);
      if o.Single? { TextJoined(q, before, JoinedText(ops), o.newStr, o.text); }
      else { ListJoined(q, before, JoinedText(ops), o); }
    }
  }

  lemma {:induction false} ExprJoins(env: Env, e: Expr, p: Partial, before: StrList, ops: seq<Operand>, st: State,
                                     fuel: nat)
    requires p.words != [] && HoldsText(p, before, ops)
    requires EvalExpr(env, e, p, true, st, fuel).code == ReturnTrue
    ensures EvalExpr(env, e, p, true, st, fuel).words == before + [JoinedText(ops + Operands(env, e, st, fuel))]
    decreases e
  {
    hide JoinedText, Pending, EvalAtom, EvalExpand, WithOperand, OperandOf;
    match e
    case ENil => assert ops + [] == ops;
    case ECons(atom, rest) =>
      var r := EvalAtom(env, atom, p, true, st, fuel);
      AtomJoins(env, atom, p, before, ops, st, fuel);
      var more := if atom.SetLine? then [] else [OperandOf(env, atom, st, fuel)];
      ExprJoins(env, rest, r.partial, before, ops + more, r.st, fuel);
      assert ops + more + Operands(env, rest, r.st, fuel) == ops + (more + Operands(env, rest, r.st, fuel));
  }

  /** A joined expression that is evaluated without error adds one word, the text of its operands. */
  lemma ExprText(env: Env, e: Expr, words: StrList, st: State, fuel: nat)
    requires EvalExpr(env, e, Start(words, true), true, st, fuel).code == ReturnTrue
    ensures EvalExpr(env, e, Start(words, true), true, st, fuel).words
         == words + [JoinedText(Operands(env, e, st, fuel))]
  {
    PendingMore([], Single(false, []), true);
    assert JoinedText([]) == [];
    hide JoinedText, Pending;
    ExprJoins(env, e, Start(words, true), words, [], st, fuel);
    assert [] + Operands(env, e, st, fuel) == Operands(env, e, st, fuel);
  }

  // The texts of several arguments, evaluated one after the other.
  ghost function ArgTexts(env: Env, args: Args, st: State, fuel: nat): StrList {
    var text := JoinedText(Operands(env, args.arg, st, fuel));
    if args.Last? then [text]
    else [text] + ArgTexts(env, args.more, EvalExpr(env, args.arg, Start([], true), true, st, fuel).st, fuel)
  }

  /** Joined arguments make one word each. */
  lemma {:induction false} VarRefsTexts(env: Env, args: Args, words: StrList, st: State, fuel: nat)
    requires EvalVarRefs(env, args, words, true, st, fuel).code == ReturnTrue
    ensures EvalVarRefs(env, args, words, true, st, fuel).words == words + ArgTexts(env, args, st, fuel)
    decreases args
  {
    hide JoinedText, Operands, EvalExpr, EvalVarRefs;
    var r := EvalExpr(env, args.arg, Start(words, true), true, st, fuel);
    VarRefsStep(env, args, words, st, fuel);
    ExprText(env, args.arg, words, st, fuel);
    ExprState(env, args.arg, Start(words, true), Start([], true), true, st, fuel);
    if args.More? { VarRefsTexts(env, args.more, r.words, r.st, fuel); }
  }

  lemma VarRefsStep(env: Env, args: Args, words: StrList, st: State, fuel: nat)
    ensures var r := EvalExpr(env, args.arg, Start(words, true), true, st, fuel);
      && (Stops(r.code) <==> r.code != ReturnTrue)
      && EvalVarRefs(env, args, words, true, st, fuel)
         == if args.Last? || Stops(r.code) then r else EvalVarRefs(env, args.more, r.words, true, r.st, fuel)
  {
    hide EvalExpr;
  }

  // The words of several arguments, evaluated one after the other, a list for each.
  ghost function ArgLists(env: Env, args: Args, st: State, fuel: nat): seq<StrList> {
    var words := Words(Operands(env, args.arg, st, fuel));
    if args.Last? then [words]
    else [words] + ArgLists(env, args.more, EvalExpr(env, args.arg, Start([], false), false, st, fuel).st, fuel)
  }

  /** A user function gets a list for each argument, in order, and none for an empty argument list. */
  lemma CallArgsLists(env: Env, args: Args, st: State, fuel: nat)
    requires EvalCallArgs(env, args, st, fuel).code == ReturnTrue
    ensures EvalCallArgs(env, args, st, fuel).args == if args == Last(ENil) then [] else ArgLists(env, args, st, fuel)
  {
    hide EvalListArgs, ArgLists;
    if args != Last(ENil) {
      ListArgsLists(env, args, [], st, fuel);
      assert [] + ArgLists(env, args, st, fuel) == ArgLists(env, args, st, fuel);
    }
  }

  lemma {:induction false} ListArgsLists(env: Env, args: Args, done: seq<StrList>, st: State, fuel: nat)
    requires EvalListArgs(env, args, done, st, fuel).code == ReturnTrue
    ensures EvalListArgs(env, args, done, st, fuel).args == done + ArgLists(env, args, st, fuel)
    decreases args
  {
    hide Words, Operands, EvalExpr, EvalListArgs;
    var r := EvalExpr(env, args.arg, Start([], false), false, st, fuel);
    ListArgsStep(env, args, done, st, fuel);
    ExprWords(env, args.arg, [], st, fuel);
    assert [] + Words(Operands(env, args.arg, st, fuel)) == Words(Operands(env, args.arg, st, fuel));
    if args.More? {
      ListArgsLists(env, args.more, done + [r.words], r.st, fuel);
      Regroup(done, [r.words], ArgLists(env, args.more, r.st, fuel));
    }
  }

  lemma ListArgsStep(env: Env, args: Args, done: seq<StrList>, st: State, fuel: nat)
    ensures var r := EvalExpr(env, args.arg, Start([], false), false, st, fuel);
      && (Stops(r.code) <==> r.code != ReturnTrue)
      && EvalListArgs(env, args, done, st, fuel)
         == if Stops(r.code) then ArgsOutcome(r.code, done, r.st)
            else if args.Last? then ArgsOutcome(ReturnTrue, done + [r.words], r.st)
            else EvalListArgs(env, args.more, done + [r.words], r.st, fuel)
  {
    hide EvalExpr;
  }

  /** Arguments that are not joined make one list of all their words, behind the given ones. */
  lemma {:induction false} VarRefsWords(env: Env, args: Args, words: StrList, st: State, fuel: nat)
    requires EvalVarRefs(env, args, words, false, st, fuel).code == ReturnTrue
    ensures EvalVarRefs(env, args, words, false, st, fuel).words == words + Chars(ArgLists(env, args, st, fuel))
    decreases args
  {
    hide Words, Operands, EvalExpr, EvalVarRefs;
    var r, all := EvalExpr(env, args.arg, Start(words, false), false, st, fuel), ArgLists(env, args, st, fuel);
    WordListsStep(env, args, words, st, fuel);
    ExprWords(env, args.arg, words, st, fuel);
    ExprState(env, args.arg, Start(words, false), Start([], false), false, st, fuel);
    if args.More? {
      VarRefsWords(env, args.more, r.words, r.st, fuel);
      assert all[1..] == ArgLists(env, args.more, r.st, fuel);
      Regroup(words, all[0], Chars(all[1..]));
    } else {
      CharsOne(all[0]);
      assert all == [all[0]];
    }
  }

  lemma WordListsStep(env: Env, args: Args, words: StrList, st: State, fuel: nat)
    ensures var r := EvalExpr(env, args.arg, Start(words, false), false, st, fuel);
      && (Stops(r.code) <==> r.code != ReturnTrue)
      && EvalVarRefs(env, args, words, false, st, fuel)
         == if args.Last? || Stops(r.code) then r else EvalVarRefs(env, args.more, r.words, false, r.st, fuel)
  {
    hide EvalExpr;
  }

  // The words so far do not change what an expression does.
  lemma {:induction false} ExprState(env: Env, e: Expr, p: Partial, q: Partial, joined: bool, st: State, fuel: nat)
    requires (p.pending || joined ==> p.words != []) && (q.pending || joined ==> q.words != [])
    ensures EvalExpr(env, e, p, joined, st, fuel).st == EvalExpr(env, e, q, joined, st, fuel).st
    ensures EvalExpr(env, e, p, joined, st, fuel).code == EvalExpr(env, e, q, joined, st, fuel).code
    decreases e
  {
    hide AddStr, AddStrList, WithOperand, EvalExpand;
    if e.ECons? {
      var a, b := EvalAtom(env, e.atom, p, joined, st, fuel), EvalAtom(env, e.atom, q, joined, st, fuel);
      if !Stops(a.code) { ExprState(env, e.rest, a.partial, b.partial, joined, a.st, fuel); }
    }
  }

  /* ---- what is in the text ---- */

  predicate NotBlank(c: Ushort) {
    c != SPACE
  }

  lemma {:induction false} BlanksLeft(list: StrList)
    ensures Filter(JoinedBy(list, SPACE), NotBlank) == Filter(Chars(list), NotBlank)
    decreases |list|
  {
    if |list| == 1 {
      CharsOne(list[0]);
      assert list == [list[0]];
    } else if list != [] {
      hide Filter;
      BlanksLeft(list[1..]);
      FilterAppend(list[0], [SPACE] + JoinedBy(list[1..], SPACE), NotBlank);
      FilterAppend([SPACE], JoinedBy(list[1..], SPACE), NotBlank);
      FilterOne(SPACE, NotBlank);
      FilterAppend(list[0], Chars(list[1..]), NotBlank);
      assert list[0] + [SPACE] + JoinedBy(list[1..], SPACE) == list[0] + ([SPACE] + JoinedBy(list[1..], SPACE));
    }
  }

  lemma PieceText(o: Operand, glue: bool)
    ensures Filter(match Piece(o, glue) case None => [] case Some(p) => p, NotBlank)
         == Filter(Chars(Pieces(o)), NotBlank)
  {
    if o.Single? {
      CharsOne(o.text);
    } else if o.list != [] {
      BlanksLeft(o.list);
      CharsOne(JoinedBy(o.list, SPACE));
      if o.list[0] == [] {
        BlanksLeft(o.list[1..]);
        assert Chars(o.list) == Chars(o.list[1..]);
      }
    }
  }

  /** Apart from blanks, the text holds the characters of all operands, in order, and no others. */
  lemma {:induction false} TextChars(ops: seq<Operand>)
    ensures Filter(JoinedText(ops), NotBlank) == Filter(Chars(AllPieces(ops)), NotBlank)
    decreases |ops|
  {
    hide Pending, Piece, Pieces, Filter;
    if ops != [] {
      var init, o := ops[..|ops| - 1], ops[|ops| - 1];
      var glue, text := Pending(init, true) && !o.newStr, JoinedText(init);
      TextChars(init);
      PieceText(o, glue);
      CharsAppend(AllPieces(init), Pieces(o));
      FilterAppend(Chars(AllPieces(init)), Chars(Pieces(o)), NotBlank);
      if Piece(o, glue).Some? {
        var p := Piece(o, glue).value;
        FilterAppend(text, p, NotBlank);
        FilterAppend(text + [SPACE], p, NotBlank);
        FilterAppend(text, [SPACE], NotBlank);
        FilterOne(SPACE, NotBlank);
      } else {
        FilterNone();
      }
      assert AllPieces(ops) == AllPieces(init) + Pieces(o);
    }
  }

  lemma FilterNone()
    ensures Filter<Ushort>([], NotBlank) == []
  {
  }

  predicate NoEmpty(ops: seq<Operand>) {
    forall i :: 0 <= i < |ops| ==> Nonempty(ops[i])
  }

  // No text or element of the operand is empty.
  predicate Nonempty(o: Operand) {
    if o.Single? then o.text != [] else forall i :: 0 <= i < |o.list| ==> o.list[i] != []
  }

  lemma {:induction false} JoinedAppend(a: StrList, b: StrList)
    requires a != [] && b != []
    ensures JoinedBy(a + b, SPACE) == JoinedBy(a, SPACE) + [SPACE] + JoinedBy(b, SPACE)
    decreases |a|
  {
    assert (a + b)[0] == a[0];
    if |a| == 1 {
      assert (a + b)[1..] == b;
    } else {
      assert (a + b)[1..] == a[1..] + b;
      JoinedAppend(a[1..], b);
    }
  }

  lemma {:induction false} JoinedGlue(a: StrList, b: StrList)
    requires a != [] && b != []
    ensures JoinedBy(a[..|a| - 1] + [a[|a| - 1] + b[0]] + b[1..], SPACE) == JoinedBy(a, SPACE) + JoinedBy(b, SPACE)
    decreases |a|
  {
    var all := a[..|a| - 1] + [a[|a| - 1] + b[0]] + b[1..];
    if |a| == 1 {
      assert all == [a[0] + b[0]] + b[1..];
      assert all[1..] == b[1..];
    } else {
      var t := a[1..];
      assert all[0] == a[0] && all[1..] == t[..|t| - 1] + [t[|t| - 1] + b[0]] + b[1..];
      JoinedGlue(t, b);
    }
  }

  /** If nothing is empty, the joined text is the words with a blank between each two. */
  lemma {:induction false} TextIsWords(ops: seq<Operand>)
    requires NoEmpty(ops)
    ensures JoinedText(ops) == JoinedBy(Words(ops), SPACE)
    ensures (Words(ops) == [] <==> JoinedText(ops) == []) && (Pending(ops, true) <==> Pending(ops, false))
    decreases |ops|
  {
    PendingMore([], Single(false, []), true);
    PendingMore([], Single(false, []), false);
    if ops != [] {
      hide Pending, Placed, Appended, Nonempty;
      var init, o := ops[..|ops| - 1], ops[|ops| - 1];
      assert ops == init + [o];
      TextIsWords(init);
      PendingMore(init, o, true);
      PendingMore(init, o, false);
      PendingWords(init);
      PieceIsWords(JoinedText(init), Words(init), Pending(init, true) && !o.newStr, o);
    }
  }

  lemma PieceIsWords(text: Str, words: StrList, glue: bool, o: Operand)
    requires Nonempty(o) && text == JoinedBy(words, SPACE) && (words == [] <==> text == []) && (glue ==> words != [])
    ensures Appended(text, glue, o) == JoinedBy(Placed(words, glue, o), SPACE)
    ensures Placed(words, glue, o) == [] <==> Appended(text, glue, o) == []
    ensures Opens(o, true) <==> Opens(o, false)
  {
    var ps := Pieces(o);
    if ps == [] {
      assert words + Fresh(o) == words;
    } else {
      JoinedPieces(o);
      if words != [] {
        JoinedAppend(words, ps);
        JoinedGlue(words, ps);
      } else {
        assert words + ps == ps;
      }
    }
  }

  lemma JoinedPieces(o: Operand)
    requires Nonempty(o) && Pieces(o) != []
    ensures JoinedBy(Pieces(o), SPACE) != [] && Fresh(o) == Pieces(o)
    ensures Piece(o, true) == Piece(o, false) == Some(JoinedBy(Pieces(o), SPACE))
  {
    if o.Many? {
      assert o.list[0] != [];
      assert JoinedBy(o.list, SPACE) != [];
    }
    assert |Pieces(o)| == 1 ==> JoinedBy(Pieces(o), SPACE) == Pieces(o)[0];
  }
}
