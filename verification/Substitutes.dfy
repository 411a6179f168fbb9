/** The conditional lines of substitution templates. */
module Substitutes {
  import opened Basics

  datatype Kind = IfLine | ElifLine | ElseLine | EndifLine | TextLine

  function KindOf(line: string): Kind {
    if "!!IF " <= line then IfLine
    else if "!!ELIF " <= line then ElifLine
    else if "!!ELSE" <= line then ElseLine
    else if "!!ENDIF" <= line then EndifLine
    else TextLine
  }

  // The condition behind a keyword of that length. The last character is taken for the line end.
  function Condition(line: string, keyword: nat): string
    requires keyword <= |line|
  {
    if |line| == keyword then [] else line[keyword..|line| - 1]
  }

  /** Which lines are conditional ones, and what is tested: all that stands between the keyword and the
      last character of the line. */
  lemma LinesRead(condition: string, end: char)
    ensures var line := "!!IF " + condition + [end]; KindOf(line) == IfLine && Condition(line, |"!!IF "|) == condition
    ensures var line := "!!ELIF " + condition + [end];
      KindOf(line) == ElifLine && Condition(line, |"!!ELIF "|) == condition
    ensures KindOf("!!IF ") == IfLine && Condition("!!IF ", 5) == "" && KindOf("!!ELIF ") == ElifLine
    ensures Condition("!!ELIF ", 7) == ""
    ensures KindOf("!!ELSE" + condition) == ElseLine && KindOf("!!ENDIF" + condition) == EndifLine
  {
    var yes, no := "!!IF " + condition + [end], "!!ELIF " + condition + [end];
    assert yes[2] == 'I' && no[2] == 'E' && no[4] == 'I';
    assert yes[5..|yes| - 1] == condition && no[7..|no| - 1] == condition;
    var other, last := "!!ELSE" + condition, "!!ENDIF" + condition;
    assert other[2] == 'E' && other[3] == 'L' && other[4] == 'S' && last[2] == 'E' && last[3] == 'N';
  }

  // No other line is a conditional one.
  lemma TextRead(line: string)
    ensures (KindOf(line) != TextLine
      <==> exists rest :: line in {"!!IF " + rest, "!!ELIF " + rest, "!!ELSE" + rest, "!!ENDIF" + rest})
  {
    match KindOf(line)
    case IfLine => assert line == "!!IF " + line[5..];
    case ElifLine => assert line == "!!ELIF " + line[7..];
    case ElseLine => assert line == "!!ELSE" + line[6..];
    case EndifLine => assert line == "!!ENDIF" + line[7..];
    case TextLine =>
  }

  // The project, whose state both tests and expansions may change. Both get the line number.
  datatype Project<!S> = Project(
    test: (S, string, nat) -> (bool, S),
    expand: (S, string, nat) -> (string, S))

  /* ---- the line machine ---- */

  datatype Mode = InCondition | MetCondition | PendingCondition

  datatype Machine<S> = Machine(modes: seq<Mode>, contents: string, state: S)

  function Selected(modes: seq<Mode>): bool {
    modes == [] || modes[|modes| - 1] == InCondition
  }

  function SetTop(modes: seq<Mode>, mode: Mode): seq<Mode>
    requires modes != []
  {
    modes[..|modes| - 1] + [mode]
  }

  function Else(modes: seq<Mode>): seq<Mode> {
    if modes == [] then modes
    else if modes[|modes| - 1] == PendingCondition then SetTop(modes, InCondition)
    else if modes[|modes| - 1] == InCondition then SetTop(modes, MetCondition)
    else modes
  }

  function Step<S>(p: Project<S>, m: Machine<S>, line: string, count: nat): Machine<S> {
    match KindOf(line)
    case IfLine =>
      if Selected(m.modes) then
        var (ok, state) := p.test(m.state, Condition(line, 5), count);
        m.(modes := m.modes + [if ok then InCondition else PendingCondition], state := state)
      else m.(modes := m.modes + [MetCondition])
    case ElifLine =>
      if m.modes != [] && m.modes[|m.modes| - 1] == PendingCondition then
        var (ok, state) := p.test(m.state, Condition(line, 7), count);
        m.(modes := if ok then SetTop(m.modes, InCondition) else m.modes, state := state)
      else if m.modes != [] && m.modes[|m.modes| - 1] == InCondition then m.(modes := SetTop(m.modes, MetCondition))
      else m
    case ElseLine => m.(modes := Else(m.modes))
    case EndifLine => if m.modes == [] then m else m.(modes := m.modes[..|m.modes| - 1])
    case TextLine =>
      if Selected(m.modes) then
        var (text, state) := p.expand(m.state, line, count);
        m.(contents := m.contents + text, state := state)
      else m
  }

  // The machine after all lines, the first of which has the given number.
  function Steps<S>(p: Project<S>, m: Machine<S>, lines: seq<string>, count: nat): Machine<S>
    decreases |lines|
  {
    if lines == [] then m else Steps(p, Step(p, m, lines[0], count), lines[1..], count + 1)
  }

  method Substitute<S>(p: Project<S>, start: S, lines: seq<string>) returns (contents: string, end: S)
    ensures var m := Steps(p, Machine([], "", start), lines, 1); contents == m.contents && end == m.state
  {
    contents, end := "", start;
    var modes: seq<Mode> := [];
    var count := 1;
    assert lines[0..] == lines;
    while count <= |lines|
      invariant 1 <= count <= |lines| + 1
      invariant Steps(p, Machine(modes, contents, end), lines[count - 1..], count)
        == Steps(p, Machine([], "", start), lines, 1)
    {
      var line := lines[count - 1];
      assert lines[count - 1..][0] == line && lines[count - 1..][1..] == lines[count..];
      if "!!IF " <= line {
        if modes == [] || modes[|modes| - 1] == InCondition {
          var (ok, next) := p.test(end, Condition(line, 5), count);
          end := next;
          if ok {
            modes := modes + [InCondition];
          } else {
            modes := modes + [PendingCondition];
          }
        } else {
          modes := modes + [MetCondition];
        }
      } else if "!!ELIF " <= line {
        if modes == [] {
        } else if modes[|modes| - 1] == PendingCondition {
          var (ok, next) := p.test(end, Condition(line, 7), count);
          end := next;
          if ok { modes := modes[..|modes| - 1] + [InCondition]; }
        } else if modes[|modes| - 1] == InCondition {
          modes := modes[..|modes| - 1] + [MetCondition];
        }
      } else if "!!ELSE" <= line {
        if modes == [] {
        } else if modes[|modes| - 1] == PendingCondition {
          modes := modes[..|modes| - 1] + [InCondition];
        } else if modes[|modes| - 1] == InCondition {
          modes := modes[..|modes| - 1] + [MetCondition];
        }
      } else if "!!ENDIF" <= line {
        if modes != [] { modes := modes[..|modes| - 1]; }
      } else if modes == [] || modes[|modes| - 1] == InCondition {
        var (text, next) := p.expand(end, line, count);
        contents := contents + text;
        end := next;
      }
      count := count + 1;
    }
    assert lines[count - 1..] == [];
  }

  /* ---- the structured meaning ---- */

  // A template, and what may follow the lines of a condition up to its end. An alternative may
  // follow an unconditional one, but is then never selected.
  datatype Template =
    | Nil
    | Text(line: string, rest: Template)
    | If(line: string, body: Template, chain: Chain, rest: Template)
  datatype Chain =
    | End(line: string)
    | Elif(line: string, body: Template, chain: Chain)
    | Otherwise(line: string, body: Template, chain: Chain)

  predicate WellFormed(t: Template) {
    match t
    case Nil => true
    case Text(line, rest) => KindOf(line) == TextLine && WellFormed(rest)
    case If(line, body, chain, rest) =>
      KindOf(line) == IfLine && WellFormed(body) && WellFormedChain(chain) && WellFormed(rest)
  }

  predicate WellFormedChain(c: Chain) {
    match c
    case End(line) => KindOf(line) == EndifLine
    case Elif(line, body, chain) => KindOf(line) == ElifLine && WellFormed(body) && WellFormedChain(chain)
    case Otherwise(line, body, chain) => KindOf(line) == ElseLine && WellFormed(body) && WellFormedChain(chain)
  }

  function Lines(t: Template): seq<string> {
    match t
    case Nil => []
    case Text(line, rest) => [line] + Lines(rest)
    case If(line, body, chain, rest) => [line] + (Lines(body) + (ChainLines(chain) + Lines(rest)))
  }

  function ChainLines(c: Chain): seq<string> {
    match c
    case End(line) => [line]
    case Elif(line, body, chain) => [line] + (Lines(body) + ChainLines(chain))
    case Otherwise(line, body, chain) => [line] + (Lines(body) + ChainLines(chain))
  }

  // The text of a template at a line number, and the state behind it: of every condition one
  // branch at most, the first whose test succeeds, and no test behind that or in other branches.
  function Meaning<S>(p: Project<S>, t: Template, count: nat, s: S): (string, S)
    requires WellFormed(t)
  {
    match t
    case Nil => ("", s)
    case Text(line, rest) =>
      var (text, s1) := p.expand(s, line, count);
      var (more, s2) := Meaning(p, rest, count + 1, s1);
      (text + more, s2)
    case If(line, body, chain, rest) =>
      var (ok, s1) := p.test(s, Condition(line, 5), count);
      var (text, s2) :=
        if ok then Meaning(p, body, count + 1, s1) else ChainMeaning(p, chain, count + 1 + |Lines(body)|, s1);
      var (more, s3) := Meaning(p, rest, count + 1 + |Lines(body)| + |ChainLines(chain)|, s2);
      (text + more, s3)
  }

  function ChainMeaning<S>(p: Project<S>, c: Chain, count: nat, s: S): (string, S)
    requires WellFormedChain(c)
  {
    match c
    case End(_) => ("", s)
    case Elif(line, body, chain) =>
      var (ok, s1) := p.test(s, Condition(line, 7), count);
      if ok then Meaning(p, body, count + 1, s1) else ChainMeaning(p, chain, count + 1 + |Lines(body)|, s1)
    case Otherwise(_, body, _) => Meaning(p, body, count + 1, s)
  }

  /* ---- the machine runs the meaning ---- */

  lemma {:induction false} StepsSplit<S>(p: Project<S>, m: Machine<S>, a: seq<string>, b: seq<string>, count: nat)
    ensures Steps(p, m, a + b, count) == Steps(p, Steps(p, m, a, count), b, count + |a|)
    decreases |a|
  {
    hide Step;
    if a == [] {
      assert a + b == b;
    } else {
      assert (a + b)[1..] == a[1..] + b && (a + b)[0] == a[0];
      StepsSplit(p, Step(p, m, a[0], count), a[1..], b, count + 1);
    }
  }

  lemma StepsOne<S>(p: Project<S>, m: Machine<S>, line: string, b: seq<string>, count: nat)
    ensures Steps(p, m, [line] + b, count) == Steps(p, Step(p, m, line, count), b, count + 1)
  {
    assert ([line] + b)[1..] == b;
  }

  lemma StepsNone<S>(p: Project<S>, m: Machine<S>, count: nat)
    ensures Steps(p, m, [], count) == m
  {
  }

  function Pushed<S>(m: Machine<S>, mode: Mode): (r: Machine<S>)
    ensures r.modes != [] && r.modes[|r.modes| - 1] == mode && r.modes[..|r.modes| - 1] == m.modes
  {
    m.(modes := m.modes + [mode])
  }

  function Popped<S>(m: Machine<S>): Machine<S>
    requires m.modes != []
  {
    m.(modes := m.modes[..|m.modes| - 1])
  }

  predicate Met<S>(m: Machine<S>) {
    m.modes != [] && m.modes[|m.modes| - 1] == MetCondition
  }

  lemma SkippedStep<S>(p: Project<S>, m: Machine<S>, line: string, count: nat)
    requires !Selected(m.modes)
    ensures KindOf(line) == IfLine ==> Step(p, m, line, count) == Pushed(m, MetCondition)
    ensures KindOf(line) == TextLine ==> Step(p, m, line, count) == m
    ensures (KindOf(line) == ElifLine || KindOf(line) == ElseLine) && Met(m) ==> Step(p, m, line, count) == m
    ensures KindOf(line) == EndifLine ==> Step(p, m, line, count) == Popped(m)
  {
  }

  lemma PushedBack<S>(m: Machine<S>, mode: Mode)
    ensures Popped(Pushed(m, mode)) == m
  {
  }

  // The lines of one part and what follows them.
  lemma Part<S>(p: Project<S>, m: Machine<S>, line: string, body: seq<string>, tail: seq<string>, count: nat)
    ensures Steps(p, m, [line] + (body + tail), count)
         == Steps(p, Steps(p, Step(p, m, line, count), body, count + 1), tail, count + 1 + |body|)
  {
    StepsOne(p, m, line, body + tail, count);
    StepsSplit(p, Step(p, m, line, count), body, tail, count + 1);
  }

  lemma Last<S>(p: Project<S>, m: Machine<S>, line: string, count: nat)
    ensures Steps(p, m, [line], count) == Step(p, m, line, count)
  {
    StepsOne(p, m, line, [], count);
    assert [line] + [] == [line];
  }

  // Nothing happens in a region that is not selected, whatever it holds.
  lemma {:induction false} Unselected<S>(p: Project<S>, m: Machine<S>, t: Template, count: nat)
    requires WellFormed(t) && !Selected(m.modes)
    ensures Steps(p, m, Lines(t), count) == m
    decreases t
  {
    hide Steps, Step, KindOf, Pushed, Popped;
    match t
    case Nil => StepsNone(p, m, count);
    case Text(line, rest) =>
      StepsOne(p, m, line, Lines(rest), count);
      SkippedStep(p, m, line, count);
      Unselected(p, m, rest, count + 1);
    case If(line, body, chain, rest) =>
      var inner := Pushed(m, MetCondition);
      SkippedStep(p, m, line, count);
      Part(p, m, line, Lines(body), ChainLines(chain) + Lines(rest), count);
      Unselected(p, inner, body, count + 1);
      StepsSplit(p, inner, ChainLines(chain), Lines(rest), count + 1 + |Lines(body)|);
      UnselectedChain(p, inner, chain, count + 1 + |Lines(body)|);
      PushedBack(m, MetCondition);
      Unselected(p, m, rest, count + 1 + |Lines(body)| + |ChainLines(chain)|);
  }

  // Nor behind a branch that was taken, up to the end of the condition.
  lemma {:induction false} UnselectedChain<S>(p: Project<S>, m: Machine<S>, c: Chain, count: nat)
    requires WellFormedChain(c) && Met(m)
    ensures Steps(p, m, ChainLines(c), count) == Popped(m)
    decreases c
  {
    hide Steps, Step, KindOf, Popped;
    SkippedStep(p, m, c.line, count);
    match c
    case End(line) => Last(p, m, line, count);
    case Elif(line, body, chain) =>
      Part(p, m, line, Lines(body), ChainLines(chain), count);
      Unselected(p, m, body, count + 1);
      UnselectedChain(p, m, chain, count + 1 + |Lines(body)|);
    case Otherwise(line, body, chain) =>
      Part(p, m, line, Lines(body), ChainLines(chain), count);
      Unselected(p, m, body, count + 1);
      UnselectedChain(p, m, chain, count + 1 + |Lines(body)|);
  }

  lemma KeywordFits(line: string)
    ensures KindOf(line) == IfLine ==> 5 <= |line|
    ensures KindOf(line) == ElifLine ==> 7 <= |line|
  {
  }

  // The machine after a text was added and the state went on.
  function After<S>(m: Machine<S>, r: (string, S)): Machine<S> {
    m.(contents := m.contents + r.0, state := r.1)
  }

  lemma SelectedStep<S>(p: Project<S>, m: Machine<S>, line: string, count: nat)
    requires Selected(m.modes)
    ensures KindOf(line) == TextLine ==> Step(p, m, line, count) == After(m, p.expand(m.state, line, count))
    ensures (KindOf(line) == IfLine
      ==> var r := p.test(m.state, Condition(line, 5), count);
          Step(p, m, line, count) == Pushed(After(m, ("", r.1)), if r.0 then InCondition else PendingCondition))
  {
    assert m.contents + "" == m.contents;
  }

  // The next line of a condition whose branch was taken, or none of whose branches was.
  lemma ChainStep<S>(p: Project<S>, m: Machine<S>, mode: Mode, line: string, count: nat)
    requires mode != MetCondition
    ensures KindOf(line) == EndifLine ==> Step(p, Pushed(m, mode), line, count) == m
    ensures ((KindOf(line) == ElifLine || KindOf(line) == ElseLine) && mode == InCondition
      ==> Step(p, Pushed(m, mode), line, count) == Pushed(m, MetCondition))
    ensures (KindOf(line) == ElseLine && mode == PendingCondition
      ==> Step(p, Pushed(m, mode), line, count) == Pushed(m, InCondition))
    ensures (KindOf(line) == ElifLine && mode == PendingCondition
      ==> var r := p.test(m.state, Condition(line, 7), count);
          Step(p, Pushed(m, mode), line, count)
            == Pushed(After(m, ("", r.1)), if r.0 then InCondition else PendingCondition))
  {
    assert m.contents + "" == m.contents;
  }

  lemma AfterTwice<S>(m: Machine<S>, a: (string, S), b: (string, S), mode: Mode)
    ensures After(After(m, a), b) == After(m, (a.0 + b.0, b.1))
    ensures After(Pushed(m, mode), a) == Pushed(After(m, a), mode) && After(m, a).state == a.1
  {
    assert m.contents + (a.0 + b.0) == m.contents + a.0 + b.0;
  }

  /** On the lines of a template the machine adds the text the template means, tests what it tests
      in the same order and at the same lines, and leaves its stack as it was. */
  lemma {:induction false} MachineRunsMeaning<S>(p: Project<S>, m: Machine<S>, t: Template, count: nat)
    requires WellFormed(t) && Selected(m.modes)
    ensures Steps(p, m, Lines(t), count) == After(m, Meaning(p, t, count, m.state))
    decreases |Lines(t)|, 2
  {
    hide Steps, Step, KindOf, Pushed, Popped, After;
    match t
    case Nil =>
      StepsNone(p, m, count);
      AfterNothing(m);
    case Text(line, rest) =>
      var r := p.expand(m.state, line, count);
      StepsOne(p, m, line, Lines(rest), count);
      SelectedStep(p, m, line, count);
      AfterTwice(m, r, Meaning(p, rest, count + 1, r.1), InCondition);
      SameModes(m, r);
      MachineRunsMeaning(p, After(m, r), rest, count + 1);
    case If(line, body, chain, rest) =>
      IfRunsMeaning(p, m, t, count);
  }

  lemma AfterNothing<S>(m: Machine<S>)
    ensures After(m, ("", m.state)) == m
  {
    assert m.contents + "" == m.contents;
  }

  lemma SameModes<S>(m: Machine<S>, r: (string, S))
    ensures After(m, r).modes == m.modes && After(m, r).state == r.1
  {
  }

  lemma IfParts(t: Template)
    requires t.If? && WellFormed(t)
    ensures Lines(t) == [t.line] + (Lines(t.body) + (ChainLines(t.chain) + Lines(t.rest)))
  {
  }

  lemma IfRunsMeaning<S>(p: Project<S>, m: Machine<S>, t: Template, count: nat)
    requires t.If? && WellFormed(t) && Selected(m.modes)
    ensures Steps(p, m, Lines(t), count) == After(m, Meaning(p, t, count, m.state))
    decreases |Lines(t)|, 1
  {
    hide Steps, Step, KindOf, Pushed, Popped, After, ChainMeaning, Lines, ChainLines, Selected;
    var If(line, body, chain, rest) := t;
    KeywordFits(line);
    IfParts(t);
    var r := p.test(m.state, Condition(line, 5), count);
    var tested := After(m, ("", r.1));
    var tail := ChainLines(chain) + Lines(rest);
    SelectedStep(p, m, line, count);
    Part(p, m, line, Lines(body), tail, count);
    var at := count + 1 + |Lines(body)|;
    var branch := if r.0 then Meaning(p, body, count + 1, r.1) else ChainMeaning(p, chain, at, r.1);
    AfterTwice(m, ("", r.1), branch, InCondition);
    SameModes(m, ("", r.1));
    Conditional(p, tested, r.0, body, chain, count + 1);
    StepsSplit(p, Steps(p, Pushed(tested, if r.0 then InCondition else PendingCondition), Lines(body), count + 1),
      ChainLines(chain), Lines(rest), at);
    assert "" + branch.0 == branch.0;
    var done := After(m, branch);
    SameModes(m, branch);
    MachineRunsMeaning(p, done, rest, at + |ChainLines(chain)|);
    AfterTwice(m, branch, Meaning(p, rest, at + |ChainLines(chain)|, branch.1), InCondition);
  }

  // A branch, selected or not, and the rest of its condition.
  lemma {:induction false} Conditional<S>(p: Project<S>, m: Machine<S>, taken: bool, body: Template, chain: Chain,
                                          count: nat)
    requires WellFormed(body) && WellFormedChain(chain)
    ensures var at := count + |Lines(body)|;
      Steps(p, Steps(p, Pushed(m, if taken then InCondition else PendingCondition), Lines(body), count),
        ChainLines(chain), at)
      == After(m, if taken then Meaning(p, body, count, m.state) else ChainMeaning(p, chain, at, m.state))
    decreases |Lines(body)| + |ChainLines(chain)|, 1
  {
    hide Steps, Step, KindOf, Pushed, Popped, After;
    var at := count + |Lines(body)|;
    if taken {
      var inner := Pushed(m, InCondition);
      PushedState(m, InCondition);
      MachineRunsMeaning(p, inner, body, count);
      var r := Meaning(p, body, count, m.state);
      AfterTwice(m, r, r, InCondition);
      TakenChain(p, After(m, r), chain, at);
    } else {
      Unselected(p, Pushed(m, PendingCondition), body, count);
      PendingChain(p, m, chain, at);
    }
  }

  lemma PushedState<S>(m: Machine<S>, mode: Mode)
    ensures Pushed(m, mode).state == m.state
  {
  }

  lemma TakenChain<S>(p: Project<S>, m: Machine<S>, c: Chain, count: nat)
    requires WellFormedChain(c)
    ensures Steps(p, Pushed(m, InCondition), ChainLines(c), count) == m
  {
    hide Steps, Step, KindOf, Pushed, Popped;
    var inner, met := Pushed(m, InCondition), Pushed(m, MetCondition);
    ChainStep(p, m, InCondition, c.line, count);
    PushedBack(m, MetCondition);
    match c
    case End(line) => Last(p, inner, line, count);
    case Elif(line, body, chain) =>
      Part(p, inner, line, Lines(body), ChainLines(chain), count);
      Unselected(p, met, body, count + 1);
      UnselectedChain(p, met, chain, count + 1 + |Lines(body)|);
    case Otherwise(line, body, chain) =>
      Part(p, inner, line, Lines(body), ChainLines(chain), count);
      Unselected(p, met, body, count + 1);
      UnselectedChain(p, met, chain, count + 1 + |Lines(body)|);
  }

  lemma {:induction false} PendingChain<S>(p: Project<S>, m: Machine<S>, c: Chain, count: nat)
    requires WellFormedChain(c)
    ensures Steps(p, Pushed(m, PendingCondition), ChainLines(c), count) == After(m, ChainMeaning(p, c, count, m.state))
    decreases |ChainLines(c)|, 0
  {
    hide Steps, Step, KindOf, Pushed, Popped, After;
    var inner := Pushed(m, PendingCondition);
    ChainStep(p, m, PendingCondition, c.line, count);
    match c
    case End(line) =>
      Last(p, inner, line, count);
      AfterNothing(m);
    case Elif(line, body, chain) =>
      KeywordFits(line);
      var r := p.test(m.state, Condition(line, 7), count);
      Part(p, inner, line, Lines(body), ChainLines(chain), count);
      SameModes(m, ("", r.1));
      Conditional(p, After(m, ("", r.1)), r.0, body, chain, count + 1);
      var s := ChainMeaning(p, c, count, m.state);
      AfterTwice(m, ("", r.1), s, InCondition);
      assert "" + s.0 == s.0;
    case Otherwise(line, body, chain) =>
      Part(p, inner, line, Lines(body), ChainLines(chain), count);
      Conditional(p, m, true, body, chain, count + 1);
  }

  /* ---- every balanced file is a template ---- */

  // Every end and alternative belongs to a condition, and every condition ends.
  predicate Balanced(lines: seq<string>, depth: nat) {
    if lines == [] then depth == 0
    else match KindOf(lines[0])
      case IfLine => Balanced(lines[1..], depth + 1)
      case ElifLine => depth > 0 && Balanced(lines[1..], depth)
      case ElseLine => depth > 0 && Balanced(lines[1..], depth)
      case EndifLine => depth > 0 && Balanced(lines[1..], depth - 1)
      case TextLine => Balanced(lines[1..], depth)
  }

  predicate Stops(lines: seq<string>) {
    lines == [] || KindOf(lines[0]) == ElifLine || KindOf(lines[0]) == ElseLine || KindOf(lines[0]) == EndifLine
  }

  lemma TextLines(line: string, rest: Template, left: seq<string>)
    requires KindOf(line) == TextLine && WellFormed(rest)
    ensures WellFormed(Text(line, rest)) && Lines(Text(line, rest)) + left == [line] + (Lines(rest) + left)
  {
    assert [line] + Lines(rest) + left == [line] + (Lines(rest) + left);
  }

  lemma IfLines(line: string, body: Template, chain: Chain, rest: Template, left: seq<string>)
    requires KindOf(line) == IfLine && WellFormed(body) && WellFormedChain(chain) && WellFormed(rest)
    ensures WellFormed(If(line, body, chain, rest))
    ensures Lines(If(line, body, chain, rest)) + left
      == [line] + (Lines(body) + (ChainLines(chain) + (Lines(rest) + left)))
  {
    Regroup([line], Lines(body) + (ChainLines(chain) + Lines(rest)), left);
    Regroup(Lines(body), ChainLines(chain) + Lines(rest), left);
    Regroup(ChainLines(chain), Lines(rest), left);
  }

  lemma BranchLines(line: string, body: Template, chain: Chain, left: seq<string>)
    requires WellFormed(body) && WellFormedChain(chain)
    ensures KindOf(line) == ElifLine ==> WellFormedChain(Elif(line, body, chain))
    ensures KindOf(line) == ElseLine ==> WellFormedChain(Otherwise(line, body, chain))
    ensures ChainLines(Elif(line, body, chain)) == ChainLines(Otherwise(line, body, chain))
    ensures ChainLines(Elif(line, body, chain)) + left == [line] + (Lines(body) + (ChainLines(chain) + left))
  {
    Regroup([line], Lines(body) + ChainLines(chain), left);
    Regroup(Lines(body), ChainLines(chain), left);
  }

  lemma NoLines(left: seq<string>)
    ensures WellFormed(Nil) && Lines(Nil) + left == left
  {
  }

  lemma BalancedStep(lines: seq<string>, depth: nat)
    requires Balanced(lines, depth)
    ensures lines == [] ==> depth == 0
    ensures lines != [] ==>
      lines == [lines[0]] + lines[1..] && |lines[1..]| == |lines| - 1
      && match KindOf(lines[0])
         case IfLine => Balanced(lines[1..], depth + 1)
         case EndifLine => depth > 0 && Balanced(lines[1..], depth - 1)
         case TextLine => Balanced(lines[1..], depth)
         case _ => depth > 0 && Balanced(lines[1..], depth)
  {
  }

  // The template at the front, up to the end of the file or of the branch it is in.
  function Parse(lines: seq<string>, depth: nat): (r: (Template, seq<string>))
    requires Balanced(lines, depth)
    ensures WellFormed(r.0) && Lines(r.0) + r.1 == lines && |r.1| <= |lines|
    ensures Balanced(r.1, depth) && Stops(r.1)
    decreases |lines|, 0
  {
    hide KindOf, Lines, ChainLines, WellFormed, WellFormedChain, Balanced;
    BalancedStep(lines, depth);
    if Stops(lines) then NoLines(lines); (Nil, lines)
    else if KindOf(lines[0]) == TextLine then
      var (rest, left) := Parse(lines[1..], depth);
      TextLines(lines[0], rest, left);
      (Text(lines[0], rest), left)
    else
      var (body, tail) := Parse(lines[1..], depth + 1);
      var (chain, tail2) := ParseChain(tail, depth);
      var (rest, left) := Parse(tail2, depth);
      IfLines(lines[0], body, chain, rest, left);
      (If(lines[0], body, chain, rest), left)
  }

  function ParseChain(lines: seq<string>, depth: nat): (r: (Chain, seq<string>))
    requires Balanced(lines, depth + 1) && Stops(lines)
    ensures WellFormedChain(r.0) && ChainLines(r.0) + r.1 == lines
    ensures Balanced(r.1, depth) && |r.1| < |lines|
    decreases |lines|, 1
  {
    hide KindOf, Lines, WellFormed, Balanced;
    BalancedStep(lines, depth + 1);
    if KindOf(lines[0]) == EndifLine then (End(lines[0]), lines[1..])
    else
      var (body, tail) := Parse(lines[1..], depth + 1);
      var (chain, left) := ParseChain(tail, depth);
      BranchLines(lines[0], body, chain, left);
      if KindOf(lines[0]) == ElifLine then (Elif(lines[0], body, chain), left)
      else (Otherwise(lines[0], body, chain), left)
  }

  /** For every balanced file, whatever it holds, the substitution is the meaning of its template. */
  lemma SubstituteMeaning<S>(p: Project<S>, start: S, lines: seq<string>) returns (t: Template)
    requires Balanced(lines, 0)
    ensures WellFormed(t) && Lines(t) == lines
    ensures var m := Steps(p, Machine([], "", start), lines, 1);
      (m.contents, m.state) == Meaning(p, t, 1, start) && m.modes == []
  {
    hide Steps, Meaning;
    var parsed := Parse(lines, 0);
    t := parsed.0;
    assert parsed.1 == [] && Lines(t) + [] == Lines(t);
    MachineRunsMeaning(p, Machine([], "", start), t, 1);
    assert "" + Meaning(p, t, 1, start).0 == Meaning(p, t, 1, start).0;
  }
}
