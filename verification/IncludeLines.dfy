/** The grammar of include directives, over which the in-place reader has to agree. */
module IncludeLines {
  import opened Basics
  import opened LineSplicing

  /* ---- logical lines ---- */

  /** How a text is made of characters and deleted line ends: LF, CR and CR LF are one line end each, and
      a backslash in front of anything else stays. */
  lemma SpliceText(c: char, s: Text)
    ensures Splice([]) == [] && Joined([]) == 0
    ensures Splice("\\\n" + s) == Splice(s) && Joined("\\\n" + s) == Joined(s) + 1
    ensures Splice("\\\r\n" + s) == Splice(s) && Joined("\\\r\n" + s) == Joined(s) + 1
    ensures s == [] || s[0] != '\n' ==> Splice("\\\r" + s) == Splice(s) && Joined("\\\r" + s) == Joined(s) + 1
    ensures c != '\\' || s == [] || s[0] !in "\r\n" ==>
      Splice([c] + s) == [c] + Splice(s) && Joined([c] + s) == Joined(s)
  {
    hide Splice, Joined;
    EmptySplice();
    assert Joined([]) == 0 by { NoneJoined(); }
    JoinedOne("\\\n" + s, s);
    JoinedOne("\\\r\n" + s, s);
    if s == [] || s[0] != '\n' { JoinedOne("\\\r" + s, s); }
    if c != '\\' || s == [] || s[0] !in "\r\n" {
      assert ([c] + s)[1..] == s;
      CharStep([c] + s);
      SkippedSplice(s);
    }
  }

  lemma NoneJoined()
    ensures Joined([]) == 0
  {
  }

  lemma JoinedOne(t: Text, s: Text)
    requires t == "\\\n" + s || t == "\\\r\n" + s || (t == "\\\r" + s && (s == [] || s[0] != '\n'))
    ensures Splice(t) == Splice(s) && Joined(t) == Joined(s) + 1
  {
    assert t[JoinLength(t)..] == s;
    JoinStep(t);
  }

  /* ---- space ---- */

  // Blanks, line ends, comments to the end of the line, and bracketed comments.
  datatype Space = Blank(c: char) | LineEnd(c: char) | LineComment(text: Text, end: char) | Comment(body: Text)

  function Shown(p: Space): Text {
    match p
    case Blank(c) => [c]
    case LineEnd(c) => [c]
    case LineComment(text, end) => "//" + text + [end]
    case Comment(body) => "/*" + body + "*/"
  }

  ghost predicate Proper(p: Space) {
    match p
    case Blank(c) => c in " \t"
    case LineEnd(c) => c in "\r\n"
    case LineComment(text, end) => end in "\r\n" && forall i :: 0 <= i < |text| ==> text[i] !in "\r\n"
    case Comment(body) => var t := body + "*/"; forall i :: 0 <= i < |body| ==> t[i] != '*' || t[i + 1] != '/'
  }

  // A line ends in it.
  predicate Ends(p: Space) {
    p.LineEnd? || p.LineComment?
  }

  function AllShown(ps: seq<Space>): Text {
    if ps == [] then [] else Shown(ps[0]) + AllShown(ps[1..])
  }

  ghost predicate AllProper(ps: seq<Space>) {
    forall i :: 0 <= i < |ps| ==> Proper(ps[i])
  }

  predicate AnyEnds(ps: seq<Space>) {
    exists i :: 0 <= i < |ps| && Ends(ps[i])
  }

  lemma {:induction false} LinePassed(text: Text, end: char, s: Text)
    requires Proper(LineComment(text, end))
    ensures AfterLine(text + [end] + s) == s
    decreases |text|
  {
    var t := text + [end] + s;
    if text == [] {
      assert t[1..] == s;
    } else {
      assert text[0] !in "\r\n" && t[0] == text[0];
      assert t[1..] == text[1..] + [end] + s;
      LinePassed(text[1..], end, s);
    }
  }

  lemma {:induction false} CommentPassed(body: Text, s: Text)
    requires Proper(Comment(body))
    ensures AfterComment(body + "*/" + s) == s
    decreases |body|
  {
    var t := body + "*/" + s;
    if body == [] {
      assert t[2..] == s;
    } else {
      var u := body + "*/";
      assert u[0] != '*' || u[1] != '/';
      assert t[0] == u[0] && t[1] == u[1];
      assert t[1..] == body[1..] + "*/" + s;
      forall i | 0 <= i < |body[1..]| ensures (body[1..] + "*/")[i] != '*' || (body[1..] + "*/")[i + 1] != '/' {
        assert u[i + 1] == (body[1..] + "*/")[i] && u[i + 2] == (body[1..] + "*/")[i + 1];
      }
      CommentPassed(body[1..], s);
    }
  }

  lemma LineCommentPassed(text: Text, end: char, s: Text, atStart: bool)
    requires Proper(LineComment(text, end))
    ensures Code("//" + text + [end] + s, atStart) == Code(s, true)
  {
    var t := "//" + text + [end] + s;
    CodeStep(t, atStart);
    hide Code, AfterLine, Proper;
    assert t[2..] == text + [end] + s;
    LinePassed(text, end, s);
  }

  lemma CommentSkipped(body: Text, s: Text, atStart: bool)
    requires Proper(Comment(body))
    ensures Code("/*" + body + "*/" + s, atStart) == Code(s, atStart)
  {
    var t := "/*" + body + "*/" + s;
    CodeStep(t, atStart);
    hide Code, AfterComment, Proper;
    assert t[2..] == body + "*/" + s;
    CommentPassed(body, s);
  }

  lemma SpacePassed(p: Space, s: Text, atStart: bool)
    requires Proper(p)
    ensures Code(Shown(p) + s, atStart) == Code(s, atStart || Ends(p))
  {
    match p
    case Blank(c) => CodeStep([c] + s, atStart); assert ([c] + s)[1..] == s;
    case LineEnd(c) => CodeStep([c] + s, atStart); assert ([c] + s)[1..] == s;
    case LineComment(text, end) =>
      hide Code;
      LineCommentPassed(text, end, s, atStart);
    case Comment(body) =>
      hide Code;
      CommentSkipped(body, s, atStart);
  }

  /** Space of every kind is passed over; afterwards a line starts if one ended. */
  lemma {:induction false} CodeSkips(ps: seq<Space>, s: Text, atStart: bool)
    requires AllProper(ps)
    ensures Code(AllShown(ps) + s, atStart) == Code(s, atStart || AnyEnds(ps))
    decreases |ps|
  {
    hide Code, Shown, Proper, Ends;
    if ps == [] {
      assert AllShown(ps) + s == s;
    } else {
      var p, rest := ps[0], ps[1..];
      Regroup(Shown(p), AllShown(rest), s);
      SpacePassed(p, AllShown(rest) + s, atStart);
      CodeSkips(rest, s, atStart || Ends(p));
      AnyFirst(ps);
    }
  }

  lemma AnyFirst(ps: seq<Space>)
    requires ps != []
    ensures AnyEnds(ps) <==> Ends(ps[0]) || AnyEnds(ps[1..])
  {
    hide Ends;
    if i :| 0 <= i < |ps[1..]| && Ends(ps[1..][i]) { assert Ends(ps[i + 1]); }
    if i :| 0 <= i < |ps| && Ends(ps[i]) { assert i > 0 ==> Ends(ps[1..][i - 1]); }
  }

  // No space comes first.
  predicate IsCode(s: Text) {
    s != [] && s[0] !in " \t\r\n" && (s[0] == '/' ==> |s| > 1 && s[1] !in "/*")
  }

  lemma {:induction false} CutLine(t: Text) returns (text: Text, end: char)
    requires AfterLine(t) != []
    ensures Proper(LineComment(text, end)) && t == text + [end] + AfterLine(t)
    decreases |t|
  {
    if Eol(t[0]) {
      text, end := [], t[0];
      assert t == [t[0]] + t[1..];
    } else {
      var more;
      more, end := CutLine(t[1..]);
      text := [t[0]] + more;
      assert t == [t[0]] + t[1..];
      assert [t[0]] + (more + [end] + AfterLine(t)) == text + [end] + AfterLine(t);
    }
  }

  lemma {:induction false} CutComment(t: Text) returns (body: Text)
    requires AfterComment(t) != []
    ensures Proper(Comment(body)) && t == body + "*/" + AfterComment(t)
    decreases |t|
  {
    if t[0] == '*' && |t| > 1 && t[1] == '/' {
      body := [];
      assert t == "*/" + t[2..];
    } else {
      var more := CutComment(t[1..]);
      body := [t[0]] + more;
      assert t == [t[0]] + t[1..];
      var rest := AfterComment(t);
      assert [t[0]] + (more + "*/" + rest) == body + "*/" + rest;
      CommentMore(t, more, rest);
    }
  }

  lemma CommentMore(t: Text, more: Text, rest: Text)
    requires t != [] && t == [t[0]] + more + "*/" + rest && Proper(Comment(more))
    requires t[0] != '*' || t[1] != '/'
    ensures Proper(Comment([t[0]] + more))
  {
    var u, v := [t[0]] + more + "*/", more + "*/";
    forall i | 0 <= i < |more| + 1 ensures u[i] != '*' || u[i + 1] != '/' {
      if i == 0 { assert u[1] == t[1]; } else { assert u[i] == v[i - 1] && u[i + 1] == v[i]; }
    }
  }

  lemma NoCode(atStart: bool)
    ensures Code([], atStart) == ([], atStart)
  {
  }

  // What is passed over in front of code is space.
  lemma {:induction false} CodeParts(t: Text, atStart: bool) returns (ps: seq<Space>)
    requires Code(t, atStart).0 != []
    ensures AllProper(ps) && t == AllShown(ps) + Code(t, atStart).0 && IsCode(Code(t, atStart).0)
    ensures Code(t, atStart).1 == (atStart || AnyEnds(ps))
    decreases |t|
  {
    var (s, e) := Code(t, atStart);
    CodeStep(t, atStart);
    hide Code;
    if s == t && IsCode(t) {
      ps := [];
      assert AllShown(ps) + s == s;
    } else {
      var p, rest := FirstSpace(t, atStart);
      SpacePassed(p, rest, atStart);
      var more := CodeParts(rest, atStart || Ends(p));
      ps := [p] + more;
      assert ps[1..] == more;
      AnyFirst(ps);
      Regroup(Shown(p), AllShown(more), s);
    }
  }

  lemma FirstSpace(t: Text, atStart: bool) returns (p: Space, rest: Text)
    requires Code(t, atStart).0 != [] && !(Code(t, atStart).0 == t && IsCode(t))
    ensures Proper(p) && t == Shown(p) + rest && |rest| < |t|
  {
    CodeStep(t, atStart);
    NoCode(true);
    NoCode(atStart);
    hide Code;
    if t[0] in " \t" {
      p, rest := Blank(t[0]), t[1..];
    } else if t[0] in "\r\n" {
      p, rest := LineEnd(t[0]), t[1..];
    } else if t[1] == '/' {
      p, rest := FirstLine(t);
    } else {
      p, rest := FirstComment(t);
    }
  }

  lemma FirstLine(t: Text) returns (p: Space, rest: Text)
    requires "//" <= t && AfterLine(t[2..]) != []
    ensures Proper(p) && t == Shown(p) + rest && |rest| < |t|
  {
    hide Proper;
    rest := AfterLine(t[2..]);
    var text, end := CutLine(t[2..]);
    p := LineComment(text, end);
    assert t == "//" + (text + [end] + rest);
  }

  lemma FirstComment(t: Text) returns (p: Space, rest: Text)
    requires "/*" <= t && AfterComment(t[2..]) != []
    ensures Proper(p) && t == Shown(p) + rest && |rest| < |t|
  {
    hide Proper;
    rest := AfterComment(t[2..]);
    var body := CutComment(t[2..]);
    p := Comment(body);
    assert t == "/*" + (body + "*/" + rest);
  }

  /* ---- include directives ---- */

  // The parts of a directive behind its hash sign.
  datatype Parts = Parts(first: seq<Space>, word: Text, second: seq<Space>, name: Text, rest: Text)

  // No line ends in front of the name or in it.
  ghost predicate IsInclude(t: Text, p: Parts, tryLocal: bool) {
    var open, close := if tryLocal then '\"' else '<', if tryLocal then '\"' else '>';
    && t == AllShown(p.first) + (p.word + (AllShown(p.second) + ([open] + (p.name + ([close] + p.rest)))))
    && AllProper(p.first) && AllProper(p.second) && !AnyEnds(p.first) && !AnyEnds(p.second)
    && (p.word == "include" || p.word == "import")
    && close !in p.name && '\r' !in p.name && '\n' !in p.name
  }

  lemma {:induction false} NamePassed(name: Text, term: char, rest: Text)
    requires term !in name && '\r' !in name && '\n' !in name
    ensures UpTo(name + ([term] + rest), term) == name
    decreases |name|
  {
    if name == [] {
      assert name + ([term] + rest) == [term] + rest;
      UpToStep(term, rest, term);
    } else {
      assert name + ([term] + rest) == [name[0]] + (name[1..] + ([term] + rest));
      UpToStep(name[0], name[1..] + ([term] + rest), term);
      NamePassed(name[1..], term, rest);
    }
  }

  lemma {:induction false} NameClear(s: Text, term: char)
    ensures var name := UpTo(s, term); term !in name && '\r' !in name && '\n' !in name
    ensures |UpTo(s, term)| < |s| ==> s[|UpTo(s, term)|] == term || s[|UpTo(s, term)|] in "\r\n"
    decreases |s|
  {
    if s != [] && s[0] != term && !Eol(s[0]) { NameClear(s[1..], term); }
  }

  lemma WordPassed(word: Text, s: Text)
    requires word == "include" || word == "import"
    requires s != [] && !Lower(s[0])
    ensures Word(word + s) == word && (word + s)[|word|..] == s
  {
    if word == "include" {
      Letters(word, s);
    } else {
      Letters(word, s);
    }
  }

  lemma {:induction false} Letters(word: Text, s: Text)
    requires (forall i :: 0 <= i < |word| ==> Lower(word[i])) && s != [] && !Lower(s[0])
    ensures Word(word + s) == word
    decreases |word|
  {
    if word == [] {
      assert word + s == s && s == [s[0]] + s[1..];
      WordStep(s[0], s[1..]);
    } else {
      assert word + s == [word[0]] + (word[1..] + s);
      WordStep(word[0], word[1..] + s);
      Letters(word[1..], s);
    }
  }

  // Space and what opens a name start with no letter.
  lemma NoLetter(ps: seq<Space>, s: Text)
    requires AllProper(ps) && s != [] && !Lower(s[0])
    ensures AllShown(ps) + s != [] && !Lower((AllShown(ps) + s)[0])
  {
    if ps == [] {
      assert AllShown(ps) + s == s;
    } else {
      assert (AllShown(ps) + s)[0] == Shown(ps[0])[0];
    }
  }

  lemma CodeStays(s: Text, atStart: bool)
    requires IsCode(s)
    ensures Code(s, atStart) == (s, atStart)
  {
    CodeStep(s, atStart);
  }

  // The name behind its opening delimiter.
  lemma NameRead(tryLocal: bool, name: Text, rest: Text)
    requires var close := if tryLocal then '\"' else '>'; close !in name && '\r' !in name && '\n' !in name
    ensures var open, close := if tryLocal then '\"' else '<', if tryLocal then '\"' else '>';
      NameOf([open] + (name + ([close] + rest))) == Include(name, tryLocal)
  {
    var open, close := if tryLocal then '\"' else '<', if tryLocal then '\"' else '>';
    var r := [open] + (name + ([close] + rest));
    assert r[1..] == name + ([close] + rest);
    NamePassed(name, close, rest);
    assert r[1 + |name|] == close;
  }

  lemma IncludeRead(t: Text, p: Parts, tryLocal: bool)
    requires IsInclude(t, p, tryLocal)
    ensures IncludeOf(t) == Include(p.name, tryLocal)
  {
    var open, close := if tryLocal then '\"' else '<', if tryLocal then '\"' else '>';
    var r := [open] + (p.name + ([close] + p.rest));
    var second := AllShown(p.second) + r;
    var first := p.word + second;
    NoLetter(p.second, r);
    WordPassed(p.word, second);
    assert IsCode(first) && IsCode(r);
    hide Code, AllShown, AllProper, AnyEnds, Word;
    CodeSkips(p.first, first, false);
    CodeStays(first, false);
    CodeSkips(p.second, r, false);
    CodeStays(r, false);
    NameRead(tryLocal, p.name, p.rest);
  }

  lemma NameParts(r: Text, name: Text, tryLocal: bool) returns (rest: Text)
    requires NameOf(r) == Include(name, tryLocal)
    ensures var open, close := if tryLocal then '\"' else '<', if tryLocal then '\"' else '>';
      && r == [open] + (name + ([close] + rest))
      && close !in name && '\r' !in name && '\n' !in name
  {
    var close := Closing(r[0]);
    NameClear(r[1..], close);
    rest := r[|name| + 2..];
    assert r[1..] == name + ([close] + rest);
    assert r == [r[0]] + r[1..];
  }

  /** Exactly the include directives are read: the keyword and the name, with blanks and bracketed comments,
      but no line end, in front of each. */
  lemma IncludeOfIff(t: Text, name: Text, tryLocal: bool)
    ensures IncludeOf(t) == Include(name, tryLocal) <==> exists p :: IsInclude(t, p, tryLocal) && p.name == name
  {
    hide IncludeOf, IsInclude;
    if p :| IsInclude(t, p, tryLocal) && p.name == name { IncludeRead(t, p, tryLocal); }
    if IncludeOf(t) == Include(name, tryLocal) { var p := IncludeParts(t, name, tryLocal); }
  }

  lemma IncludeParts(t: Text, name: Text, tryLocal: bool) returns (p: Parts)
    requires IncludeOf(t) == Include(name, tryLocal)
    ensures IsInclude(t, p, tryLocal) && p.name == name
  {
    var (first, ended) := Code(t, false);
    var word := Word(first);
    var behind := first[|word|..];
    var (r, ended2) := Code(behind, false);
    hide Code, Word, AllShown, AllProper, AnyEnds, NameOf;
    assert NamesInclude(word) && !ended && !ended2 && NameOf(r) == Include(name, tryLocal);
    hide IncludeOf;
    var rest := NameParts(r, name, tryLocal);
    assert word <= first && first == word + behind;
    var before := CodeParts(t, false);
    var between := CodeParts(behind, false);
    p := Parts(before, word, between, name, rest);
  }
}
