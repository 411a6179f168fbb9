/** The writer of project files in XML. */
module XmlWriter {
  import opened Basics

  datatype Conversion = NoConversion | EscapeConversion | XMLConversion
  datatype Format = NoNewLine | NewLine
  datatype State = Bare | Tag | Attribute

  /* ---- conversion of text ---- */

  function HexDigit(n: nat): char
    requires n < 16
  {
    "0123456789abcdef"[n]
  }

  // What looks like a reference of four digits is passed through, whatever the digits are.
  predicate PassesThrough(s: string) {
    |s| > 7 && s[0] == '&' && s[1] == '#' && s[2] == 'x' && s[7] == ';'
  }

  // The first character as it is written at first; more of the text may follow it.
  function Escaped(s: string): string
    requires s != []
  {
    if s[0] == '&' then (if PassesThrough(s) then "&" else "&amp;")
    else if s[0] == '<' then "&lt;"
    else if s[0] == '>' then "&gt;"
    else if s[0] < ' ' then "&#x" + [HexDigit(s[0] as int / 16), HexDigit(s[0] as int % 16)] + ";"
    else [s[0]]
  }

  function EscapedText(s: string): string {
    if s == [] then [] else Escaped(s) + EscapedText(s[1..])
  }

  function Quoted(s: string): string {
    ReplaceChar(ReplaceChar(s, '\"', "&quot;"), '\'', "&apos;")
  }

  function Converted(text: string, conversion: Conversion): string {
    if text == [] || conversion == NoConversion then text
    else if conversion == XMLConversion then Quoted(EscapedText(text))
    else ReplaceChar(ReplaceChar(text, '\"', "\\\""), '\'', "\\\'")
  }

  method DoConversion(text: string, conversion: Conversion) returns (output: string)
    ensures output == Converted(text, conversion)
  {
    if text == [] { return ""; }
    if conversion == NoConversion { return text; }
    output := "";
    if conversion == XMLConversion {
      assert text[0..] == text;
      for i := 0 to |text|
        invariant output + EscapedText(text[i..]) == EscapedText(text)
      {
        hide EscapedText;
        EscapeOne(text, i, output);
        var c := text[i];
        if c == '&' {
          if i + 7 < |text| && text[i + 1] == '#' && text[i + 2] == 'x' && text[i + 7] == ';' {
            output := output + [text[i]];
          } else {
            output := output + "&amp;";
          }
        } else if c == '<' {
          output := output + "&lt;";
        } else if c == '>' {
          output := output + "&gt;";
        } else {
          if c < ' ' {
            output := output + ("&#x" + [HexDigit(c as int / 16), HexDigit(c as int % 16)] + ";");
          } else {
            output := output + [c];
          }
        }
      }
      assert EscapedText(text[|text|..]) == [];
      assert output + [] == output;
    } else {
      output := text;
    }
    if conversion == XMLConversion {
      output := ReplaceChar(output, '\"', "&quot;");
      output := ReplaceChar(output, '\'', "&apos;");
    } else if conversion == EscapeConversion {
      output := ReplaceChar(output, '\"', "\\\"");
      output := ReplaceChar(output, '\'', "\\\'");
    }
  }

  lemma EscapeOne(text: string, i: nat, output: string)
    requires i < |text|
    ensures output + EscapedText(text[i..]) == output + Escaped(text[i..]) + EscapedText(text[i + 1..])
    ensures Escaped(text[i..]) ==
      if text[i] == '&' then
        (if i + 7 < |text| && text[i + 1] == '#' && text[i + 2] == 'x' && text[i + 7] == ';' then "&" else "&amp;")
      else if text[i] == '<' then "&lt;"
      else if text[i] == '>' then "&gt;"
      else if text[i] < ' ' then "&#x" + [HexDigit(text[i] as int / 16), HexDigit(text[i] as int % 16)] + ";"
      else [text[i]]
  {
    var s := text[i..];
    assert s[1..] == text[i + 1..];
  }

  // Both passes at once.
  function Char(s: string): string
    requires s != []
  {
    if s[0] == '\"' then "&quot;" else if s[0] == '\'' then "&apos;" else Escaped(s)
  }

  function Chars(s: string): string {
    if s == [] then [] else Char(s) + Chars(s[1..])
  }

  lemma {:induction false} ReplaceAppend(a: string, b: string, c: char, repl: string)
    ensures ReplaceChar(a + b, c, repl) == ReplaceChar(a, c, repl) + ReplaceChar(b, c, repl)
    decreases |a|
  {
    if a == [] {
      assert a + b == b;
    } else {
      assert (a + b)[1..] == a[1..] + b;
      ReplaceAppend(a[1..], b, c, repl);
    }
  }

  lemma {:induction false} ReplaceNone(a: string, c: char, repl: string)
    requires c !in a
    ensures ReplaceChar(a, c, repl) == a
    decreases |a|
  {
    if a != [] {
      assert a[0] in a;
      ReplaceNone(a[1..], c, repl);
    }
  }

  lemma QuotedAppend(a: string, b: string)
    ensures Quoted(a + b) == Quoted(a) + Quoted(b)
  {
    ReplaceAppend(a, b, '\"', "&quot;");
    ReplaceAppend(ReplaceChar(a, '\"', "&quot;"), ReplaceChar(b, '\"', "&quot;"), '\'', "&apos;");
  }

  lemma ReplaceOnly(c: char, repl: string)
    ensures ReplaceChar([c], c, repl) == repl
  {
    assert ReplaceChar([], c, repl) == [];
  }

  lemma QuotedEscaped(s: string)
    requires s != []
    ensures Quoted(Escaped(s)) == Char(s)
  {
    hide ReplaceChar;
    var q, a := "&quot;", "&apos;";
    if s[0] == '\"' {
      assert Escaped(s) == ['\"'];
      ReplaceOnly('\"', q);
      ReplaceNone(q, '\'', a);
    } else {
      ReplaceNone(Escaped(s), '\"', q);
      if s[0] == '\'' { ReplaceOnly('\'', a); } else { ReplaceNone(Escaped(s), '\'', a); }
    }
  }

  lemma {:induction false} QuotedIsChars(s: string)
    ensures Quoted(EscapedText(s)) == Chars(s)
    decreases |s|
  {
    hide Quoted, Escaped, Char;
    if s == [] {
      QuotedNothing();
    } else {
      QuotedAppend(Escaped(s), EscapedText(s[1..]));
      QuotedEscaped(s);
      QuotedIsChars(s[1..]);
    }
  }

  lemma QuotedNothing()
    ensures Quoted("") == ""
  {
  }

  /* ---- reading it back ---- */

  function HexValue(c: char): Option<nat> {
    if '0' <= c <= '9' then Some(c as int - '0' as int)
    else if 'a' <= c <= 'f' then Some(c as int - 'a' as int + 10)
    else if 'A' <= c <= 'F' then Some(c as int - 'A' as int + 10)
    else None
  }

  // The digits of a reference up to its semicolon: the number, and what follows.
  function Digits(s: string, value: nat, some: bool): Option<(nat, string)> {
    if s == [] then None
    else if s[0] == ';' then (if some then Some((value, s[1..])) else None)
    else match HexValue(s[0]) case None => None case Some(d) => Digits(s[1..], value * 16 + d, true)
  }

  predicate IsChar(n: nat) {
    n < 0xD800 || 0xE000 <= n < 0x110000
  }

  function Cons(c: char, rest: Option<string>): Option<string> {
    match rest case None => None case Some(t) => Some([c] + t)
  }

  // The text with its hexadecimal character references and predefined entities replaced (sections
  // 4.1 and 4.6 of XML 1.0); none if an ampersand starts something else.
  function Decode(s: string): Option<string>
    decreases |s|
  {
    if s == [] then Some([])
    else if s[0] != '&' then Cons(s[0], Decode(s[1..]))
    else if "&amp;" <= s then Cons('&', Decode(s[5..]))
    else if "&lt;" <= s then Cons('<', Decode(s[4..]))
    else if "&gt;" <= s then Cons('>', Decode(s[4..]))
    else if "&quot;" <= s then Cons('\"', Decode(s[6..]))
    else if "&apos;" <= s then Cons('\'', Decode(s[6..]))
    else if "&#x" <= s then
      var number := Digits(s[3..], 0, false);
      if number.None? || !IsChar(number.value.0) then None
      else
        DigitsShorter(s[3..], 0, false);
        Cons(number.value.0 as char, Decode(number.value.1))
    else None
  }

  lemma {:induction false} DigitsShorter(s: string, value: nat, some: bool)
    ensures var r := Digits(s, value, some); r.Some? ==> |r.value.1| < |s|
    decreases |s|
  {
    if s != [] && s[0] != ';' && HexValue(s[0]).Some? {
      DigitsShorter(s[1..], value * 16 + HexValue(s[0]).value, true);
    }
  }

  // Somewhere a character is passed through.
  predicate Passes(s: string) {
    s != [] && (PassesThrough(s) || Passes(s[1..]))
  }

  lemma DecodeEntity(s: string, rest: string)
    requires s != [] && !PassesThrough(s) && s[0] >= ' '
    ensures Decode(Char(s) + rest) == Cons(s[0], Decode(rest))
  {
    var t := Char(s) + rest;
    assert t[|Char(s)|..] == rest;
    assert t[..|Char(s)|] == Char(s);
    if s[0] !in "&<>\"'" {
      assert t[0] == s[0];
    } else {
      assert t[0] == '&' && t[1] == Char(s)[1] && t[2] == Char(s)[2];
    }
  }

  lemma DecodeChar(s: string, rest: string)
    requires s != [] && !PassesThrough(s)
    ensures Decode(Char(s) + rest) == Cons(s[0], Decode(rest))
  {
    var t := Char(s) + rest;
    assert t[|Char(s)|..] == rest;
    if s[0] < ' ' {
      var digits := [HexDigit(s[0] as int / 16), HexDigit(s[0] as int % 16), ';'];
      ControlDigits(s[0], rest);
      assert t == "&#x" + (digits + rest);
      assert t[3..] == digits + rest;
      DecodeReference(t);
    } else {
      DecodeEntity(s, rest);
    }
  }

  lemma ControlDigits(c: char, rest: string)
    requires c < ' '
    ensures Digits([HexDigit(c as int / 16), HexDigit(c as int % 16), ';'] + rest, 0, false) == Some((c as int, rest))
  {
    var a, b := HexDigit(c as int / 16), HexDigit(c as int % 16);
    var s := [a, b, ';'] + rest;
    assert HexValue(a) == Some(c as int / 16) && HexValue(b) == Some(c as int % 16);
    assert s[1..] == [b, ';'] + rest && s[1..][1..] == [';'] + rest && s[1..][1..][1..] == rest;
    assert Digits([';'] + rest, c as int, true) == Some((c as int, rest));
    assert Digits([b, ';'] + rest, c as int / 16, true) == Digits([';'] + rest, c as int, true);
  }

  lemma {:induction false} DecodeInverts(s: string)
    requires !Passes(s)
    ensures Decode(Chars(s)) == Some(s)
    decreases |s|
  {
    hide Decode, Char, PassesThrough;
    if s == [] {
      DecodeNothing();
    } else {
      DecodeInverts(s[1..]);
      DecodeChar(s, Chars(s[1..]));
      assert [s[0]] + s[1..] == s;
    }
  }

  lemma DecodeNothing()
    ensures Decode("") == Some("")
  {
  }

  lemma PlainChar(s: string)
    requires s != [] && s[0] >= ' ' && s[0] !in "&<>\"'"
    ensures Char(s) == [s[0]]
  {
  }

  lemma SplitFirst(c: char, t: string)
    ensures ([c] + t)[0] == c && ([c] + t)[1..] == t
  {
  }

  // What does not start with a digit or a semicolon does not do so when it is converted.
  lemma NotDigit(s: string)
    requires s != []
    ensures Chars(s) != []
    ensures HexValue(s[0]).None? && s[0] != ';' ==> HexValue(Chars(s)[0]).None? && Chars(s)[0] != ';'
    ensures HexValue(s[0]).Some? || s[0] == ';' ==> s[0] >= ' ' && s[0] !in "&<>\"'"
  {
    hide Chars;
    OneChar(s);
    assert Chars(s)[0] == Char(s)[0];
  }

  lemma DigitsStep(s: string, value: nat, some: bool)
    ensures Digits(s, value, some)
         == if s == [] then None
            else if s[0] == ';' then (if some then Some((value, s[1..])) else None)
            else match HexValue(s[0]) case None => None case Some(d) => Digits(s[1..], value * 16 + d, true)
  {
  }

  // What follows the number of a reference that was passed through.
  lemma {:induction false} DigitsOfText(s: string, value: nat, some: bool) returns (k: nat)
    ensures Digits(Chars(s), value, some).Some?
      ==> k < |s| && Digits(Chars(s), value, some).value.1 == Chars(s[k + 1..])
    decreases |s|
  {
    hide Chars, Char, Digits, HexValue;
    k := 0;
    DigitsStep(Chars(s), value, some);
    if s == [] {
      NoChars();
    } else {
      OneChar(s);
      NotDigit(s);
      if HexValue(s[0]).Some? || s[0] == ';' {
        PlainChar(s);
        SplitFirst(s[0], Chars(s[1..]));
        if s[0] != ';' {
          var j := DigitsOfText(s[1..], value * 16 + HexValue(s[0]).value, true);
          k := j + 1;
          if Digits(Chars(s), value, some).Some? { assert s[1..][j + 1..] == s[k + 1..]; }
        }
      }
    }
  }

  // A reference stands for several characters of the text that was converted.
  lemma {:induction false} DecodeShorter(s: string)
    ensures Decode(Chars(s)).Some? ==> |Decode(Chars(s)).value| <= |s|
    ensures Decode(Chars(s)).Some? && Passes(s) ==> |Decode(Chars(s)).value| < |s|
    decreases |s|
  {
    hide Char, PassesThrough, Decode, Chars;
    if s == [] {
      DecodeNothing();
      assert Chars("") == "" by { NoChars(); }
    } else if PassesThrough(s) {
      var k, number, after := DecodePassed(s);
      if Decode(Chars(s)).Some? {
        DecodeShorter(after);
      }
    } else {
      DecodeShorter(s[1..]);
      DecodeChar(s, Chars(s[1..]));
      OneChar(s);
    }
  }

  lemma NoChars()
    ensures Chars("") == ""
  {
  }

  lemma OneChar(s: string)
    requires s != []
    ensures Chars(s) == Char(s) + Chars(s[1..])
  {
  }

  lemma PassedChar(s: string)
    requires PassesThrough(s)
    ensures Char(s) == "&"
  {
  }

  lemma DecodeReference(t: string)
    requires "&#x" <= t
    ensures var d := Digits(t[3..], 0, false);
      Decode(t) == if d.Some? && IsChar(d.value.0) then Cons(d.value.0 as char, Decode(d.value.1)) else None
  {
    assert t[0] == '&' && t[1] == '#';
  }

  lemma DecodePassed(s: string) returns (k: nat, number: char, after: string)
    requires PassesThrough(s)
    ensures |after| < |s| - 1
    ensures Decode(Chars(s)).Some? ==> Decode(Chars(s)) == Cons(number, Decode(Chars(after)))
  {
    hide Chars, Char;
    var t, s1, s2, s3 := Chars(s), s[1..], s[2..], s[3..];
    assert s1[1..] == s2 && s2[1..] == s3;
    OneChar(s);
    OneChar(s1);
    OneChar(s2);
    PassedChar(s);
    PlainChar(s1);
    PlainChar(s2);
    assert t == "&#x" + Chars(s3);
    assert t[3..] == Chars(s3);
    k := DigitsOfText(s3, 0, false);
    number, after := ' ', [];
    var d := Digits(t[3..], 0, false);
    if d.Some? && IsChar(d.value.0) {
      number := d.value.0 as char;
      after := s3[k + 1..];
    }
    DecodeReference(t);
  }

  /** Reading the converted text back gives the text, iff nothing in it looks like a reference. */
  lemma ConversionInverts(text: string)
    ensures Decode(Converted(text, XMLConversion)) == Some(text) <==> !Passes(text)
  {
    QuotedIsChars(text);
    NoChars();
    if Passes(text) { DecodeShorter(text); } else { DecodeInverts(text); }
  }

  // The text without the backslashes in front of quotes.
  function Unescaped(s: string): string {
    if s == "" then ""
    else if |s| > 1 && s[0] == '\\' && s[1] in "\"'" then [s[1]] + Unescaped(s[2..])
    else [s[0]] + Unescaped(s[1..])
  }

  // One character with the backslash it may get.
  function Slashed(c: char): string {
    if c in "\"'" then ['\\', c] else [c]
  }

  lemma SlashedOne(c: char)
    ensures ReplaceChar(ReplaceChar([c], '\"', "\\\""), '\'', "\\\'") == Slashed(c)
  {
    hide ReplaceChar;
    if c == '\"' {
      ReplaceOnly(c, "\\\"");
      ReplaceNone("\\\"", '\'', "\\\'");
    } else {
      ReplaceNone([c], '\"', "\\\"");
      if c == '\'' { ReplaceOnly(c, "\\\'"); } else { ReplaceNone([c], '\'', "\\\'"); }
    }
  }

  /** The backslashes can always be taken out again; without conversion the text is left as it is. */
  lemma {:induction false} EscapeInverts(text: string)
    ensures Unescaped(Converted(text, EscapeConversion)) == text && Converted(text, NoConversion) == text
    decreases |text|
  {
    if text != "" {
      var c, rest := text[0], text[1..];
      EscapeInverts(rest);
      assert text == [c] + rest;
      EscapedRest(c, rest);
      hide Converted, ReplaceChar;
      var more := Converted(rest, EscapeConversion);
      assert (Slashed(c) + more)[|Slashed(c)|..] == more;
      EscapedStart(rest);
    }
  }

  lemma EscapedRest(c: char, rest: string)
    ensures Converted([c] + rest, EscapeConversion) == Slashed(c) + Converted(rest, EscapeConversion)
  {
    var q, a := "\\\"", "\\\'";
    SlashedOne(c);
    ReplaceAppend([c], rest, '\"', q);
    ReplaceAppend(ReplaceChar([c], '\"', q), ReplaceChar(rest, '\"', q), '\'', a);
    if rest == "" { assert ReplaceChar(ReplaceChar(rest, '\"', q), '\'', a) == ""; }
    hide ReplaceChar;
  }

  // No quote comes first.
  lemma EscapedStart(text: string)
    ensures var s := Converted(text, EscapeConversion); s != "" ==> s[0] !in "\"'"
  {
    if text != "" {
      assert text == [text[0]] + text[1..];
      EscapedRest(text[0], text[1..]);
      hide Converted;
    }
  }

  // Every line of a text behind the same lead.
  function Indented(lines: seq<string>, lead: string): string {
    if lines == [] then "" else lead + lines[0] + Indented(lines[1..], lead)
  }

  lemma {:induction false} LinesIndented(lines: seq<string>, lead: string)
    requires lines != [] && forall i :: 0 <= i < |lines| ==> '\n' !in lines[i]
    ensures lead + ReplaceChar(JoinedBy(lines, '\n'), '\n', lead) == Indented(lines, lead)
    decreases |lines|
  {
    hide ReplaceChar;
    ReplaceNone(lines[0], '\n', lead);
    if |lines| > 1 {
      var rest := JoinedBy(lines[1..], '\n');
      LinesIndented(lines[1..], lead);
      ReplaceAppend(lines[0] + ['\n'], rest, '\n', lead);
      ReplaceAppend(lines[0], ['\n'], '\n', lead);
      ReplaceOnly('\n', lead);
    } else {
      assert Indented(lines[1..], lead) == "" && lead + lines[0] + "" == lead + lines[0];
    }
  }

  // No markup character or control character is left in it, so it can stand in a tag, in an
  // attribute or between tags.
  lemma {:induction false} ConvertedIsPlain(s: string)
    ensures forall c :: c in Chars(s) ==> c >= ' ' && c !in "<>\"'"
    decreases |s|
  {
    if s != [] {
      ConvertedIsPlain(s[1..]);
      CharIsPlain(s);
    }
  }

  lemma DigitPlain(n: nat)
    requires n < 16
    ensures HexDigit(n) >= '0' && HexDigit(n) !in "<>\"'"
  {
  }

  lemma CharIsPlain(s: string)
    requires s != []
    ensures forall c :: c in Char(s) ==> c >= ' ' && c !in "<>\"'"
  {
    if s[0] < ' ' { DigitPlain(s[0] as int / 16); DigitPlain(s[0] as int % 16); }
  }

  /* ---- what is written ---- */

  // The start of a start tag, its end, the end of an empty element, an end tag, an attribute, and
  // text in front of, between or behind tags.
  datatype Piece =
    | Start(name: string)
    | StartEnd
    | EmptyEnd
    | End(name: string)
    | Attr(text: string)
    | Text(text: string)

  function Shown(p: Piece): string {
    match p
    case Start(name) => "<" + name
    case StartEnd => ">"
    case EmptyEnd => " />"
    case End(name) => "</" + name + ">"
    case Attr(text) => text
    case Text(text) => text
  }

  function Flat(ps: seq<Piece>): string {
    if ps == [] then "" else Flat(ps[..|ps| - 1]) + Shown(ps[|ps| - 1])
  }

  // A reader: the names of the elements that are open, and whether the last start tag is.
  datatype Reader = Reader(open: seq<string>, inTag: bool)

  function ReadOne(r: Reader, p: Piece): Option<Reader> {
    match p
    case Start(name) => if r.inTag then None else Some(Reader(r.open + [name], true))
    case StartEnd => if r.inTag then Some(Reader(r.open, false)) else None
    case EmptyEnd => if r.inTag && r.open != [] then Some(Reader(r.open[..|r.open| - 1], false)) else None
    case End(name) =>
      if !r.inTag && r.open != [] && r.open[|r.open| - 1] == name then Some(Reader(r.open[..|r.open| - 1], false))
      else None
    case Attr(_) => if r.inTag then Some(r) else None
    case Text(_) => if r.inTag then None else Some(r)
  }

  /** What a reader finds: every end tag ends the element opened last under its own name, attributes
      stand in start tags and text outside them. */
  function Read(ps: seq<Piece>): Option<Reader> {
    if ps == [] then Some(Reader([], false))
    else match Read(ps[..|ps| - 1]) case None => None case Some(r) => ReadOne(r, ps[|ps| - 1])
  }

  lemma OneMore(ps: seq<Piece>, p: Piece)
    ensures Flat(ps + [p]) == Flat(ps) + Shown(p)
    ensures Read(ps + [p]) == match Read(ps) case None => None case Some(r) => ReadOne(r, p)
  {
    assert (ps + [p])[..|ps|] == ps;
  }

  /* ---- reading the text ---- */

  // Where a reader of the text is: between tags, behind "<", in a name, in a start tag behind its
  // name, in the value of an attribute, behind the slash of an empty element, in an end tag.
  datatype Mode = Content | Opening | Name | Inside | Value | Slash | Closing(name: string)

  datatype Scanner = Scanner(open: seq<string>, mode: Mode)

  const START := Scanner([], Content)

  predicate NameChar(c: char) {
    c > ' ' && c !in "<>&\"'/="
  }

  function Last(open: seq<string>): string {
    if open == [] then "" else open[|open| - 1]
  }

  function ScanInside(s: Scanner, c: char): Option<Scanner> {
    if c == '>' then Some(s.(mode := Content))
    else if c == '/' then Some(s.(mode := Slash))
    else if c == '\"' then Some(s.(mode := Value))
    else if NameChar(c) || c == '=' || c in " \n\t" then Some(s.(mode := Inside))
    else None
  }

  // One character of a document (sections 2.3, 2.4 and 3.1 of XML 1.0, without comments, processing
  // instructions and CDATA sections); in a start tag, names, equals signs and quoted values may follow
  // each other in any way.
  function ScanChar(s: Scanner, c: char): Option<Scanner> {
    match s.mode
    case Content => Some(if c == '<' then s.(mode := Opening) else s)
    case Opening =>
      if c == '/' then Some(s.(mode := Closing("")))
      else if NameChar(c) then Some(Scanner(s.open + [[c]], Name))
      else None
    case Name =>
      if NameChar(c) then Some(s.(open := Pop(s.open) + [Last(s.open) + [c]])) else ScanInside(s, c)
    case Inside => ScanInside(s, c)
    case Value => if c == '<' then None else Some(if c == '\"' then s.(mode := Inside) else s)
    case Slash => if c == '>' then Some(Scanner(Pop(s.open), Content)) else None
    case Closing(name) =>
      if c == '>' then (if s.open != [] && Last(s.open) == name then Some(Scanner(Pop(s.open), Content)) else None)
      else if NameChar(c) then Some(s.(mode := Closing(name + [c])))
      else None
  }

  function Scan(s: Scanner, text: string): Option<Scanner>
    decreases |text|
  {
    if text == [] then Some(s)
    else match ScanChar(s, text[0]) case None => None case Some(t) => Scan(t, text[1..])
  }

  lemma {:induction false} ScanAppend(s: Scanner, a: string, b: string)
    ensures Scan(s, a + b) == match Scan(s, a) case None => None case Some(t) => Scan(t, b)
    decreases |a|
  {
    hide ScanChar;
    if a == [] {
      assert a + b == b;
    } else {
      assert (a + b)[0] == a[0] && (a + b)[1..] == a[1..] + b;
      if ScanChar(s, a[0]).Some? { ScanAppend(ScanChar(s, a[0]).value, a[1..], b); }
    }
  }

  lemma ScanOne(s: Scanner, c: char)
    ensures Scan(s, [c]) == ScanChar(s, c)
  {
    hide ScanChar;
    assert [c][1..] == [];
  }

  predicate PlainName(name: string) {
    name != "" && forall i :: 0 <= i < |name| ==> NameChar(name[i])
  }

  predicate Without(text: string, c: char) {
    forall i :: 0 <= i < |text| ==> text[i] != c
  }

  predicate Blanks(s: string) {
    forall i :: 0 <= i < |s| ==> s[i] == '\n' || s[i] == '\t' || s[i] == ' '
  }

  // An attribute behind the blanks in front of it.
  ghost predicate PlainAttribute(text: string, lead: string, name: string, value: string) {
    && text == lead + (name + ("=\"" + (value + "\"")))
    && lead != "" && Blanks(lead) && PlainName(name) && Without(value, '\"') && Without(value, '<')
  }

  ghost predicate PlainPiece(p: Piece) {
    match p
    case Start(name) => PlainName(name)
    case End(name) => PlainName(name)
    case Attr(text) => exists lead, name, value :: PlainAttribute(text, lead, name, value)
    case Text(text) => Without(text, '<')
    case _ => true
  }

  ghost predicate PlainPieces(ps: seq<Piece>) {
    forall i :: 0 <= i < |ps| ==> PlainPiece(ps[i])
  }

  lemma PlainAppend(a: seq<Piece>, b: seq<Piece>)
    requires PlainPieces(a) && PlainPieces(b)
    ensures PlainPieces(a + b)
  {
    hide PlainPiece;
  }

  lemma PlainOne(p: Piece)
    requires PlainPiece(p)
    ensures PlainPieces([p]) && PlainPieces([])
  {
    hide PlainPiece;
  }

  lemma {:induction false} ScanText(s: Scanner, text: string)
    requires Without(text, '<') && (s.mode == Content || (s.mode == Value && Without(text, '\"')))
    ensures Scan(s, text) == Some(s)
    decreases |text|
  {
    if text != [] { ScanText(s, text[1..]); }
  }

  lemma {:induction false} ScanName(open: seq<string>, done: string, name: string)
    requires forall i :: 0 <= i < |name| ==> NameChar(name[i])
    ensures Scan(Scanner(open + [done], Name), name) == Some(Scanner(open + [done + name], Name))
    decreases |name|
  {
    if name == [] {
      assert done + name == done;
    } else {
      assert Pop(open + [done]) == open;
      ScanName(open, done + [name[0]], name[1..]);
      assert done + [name[0]] + name[1..] == done + name;
    }
  }

  lemma {:induction false} ScanClosing(open: seq<string>, done: string, name: string)
    requires forall i :: 0 <= i < |name| ==> NameChar(name[i])
    ensures Scan(Scanner(open, Closing(done)), name) == Some(Scanner(open, Closing(done + name)))
    decreases |name|
  {
    if name == [] {
      assert done + name == done;
    } else {
      ScanClosing(open, done + [name[0]], name[1..]);
      assert done + [name[0]] + name[1..] == done + name;
    }
  }

  // Blanks and the name of an attribute.
  lemma {:induction false} ScanBlanks(s: Scanner, text: string)
    requires s.mode == Inside
    requires forall i :: 0 <= i < |text| ==> NameChar(text[i]) || text[i] in " \n\t"
    ensures Scan(s, text) == Some(s)
    decreases |text|
  {
    if text != [] { ScanBlanks(s, text[1..]); }
  }

  lemma ScanAttribute(s: Scanner, text: string, lead: string, name: string, value: string)
    requires PlainAttribute(text, lead, name, value) && (s.mode == Inside || s.mode == Name)
    ensures Scan(s, text) == Some(Scanner(s.open, Inside))
  {
    var inside := Scanner(s.open, Inside);
    var rest := name + ("=\"" + (value + "\""));
    assert text == [lead[0]] + (lead[1..] + rest);
    hide Scan;
    ScanAppend(s, [lead[0]], lead[1..] + rest);
    ScanOne(s, lead[0]);
    ScanAppend(inside, lead[1..], rest);
    ScanBlanks(inside, lead[1..]);
    ScanAppend(inside, name, "=\"" + (value + "\""));
    ScanBlanks(inside, name);
    ScanValue(inside, value);
  }

  lemma ScanValue(s: Scanner, value: string)
    requires s.mode == Inside && Without(value, '\"') && Without(value, '<')
    ensures Scan(s, "=\"" + (value + "\"")) == Some(s)
  {
    hide Scan;
    var v := s.(mode := Value);
    assert "=\"" + (value + "\"") == ['='] + (['\"'] + (value + "\""));
    ScanAppend(s, ['='], ['\"'] + (value + "\""));
    ScanOne(s, '=');
    ScanAppend(s, ['\"'], value + "\"");
    ScanOne(s, '\"');
    ScanAppend(v, value, "\"");
    ScanText(v, value);
    ScanOne(v, '\"');
  }

  lemma ScanStart(s: Scanner, name: string)
    requires s.mode == Content && PlainName(name)
    ensures Scan(s, "<" + name) == Some(Scanner(s.open + [name], Name))
  {
    hide Scan;
    var tail := name[1..];
    assert "<" + name == ['<'] + ([name[0]] + tail);
    ScanAppend(s, ['<'], [name[0]] + tail);
    ScanOne(s, '<');
    ScanAppend(s.(mode := Opening), [name[0]], tail);
    ScanOne(s.(mode := Opening), name[0]);
    ScanName(s.open, [name[0]], tail);
    assert [name[0]] + tail == name;
  }

  lemma ScanEnd(s: Scanner, name: string)
    requires s.mode == Content && PlainName(name) && s.open != [] && Last(s.open) == name
    ensures Scan(s, "</" + name + ">") == Some(Scanner(Pop(s.open), Content))
  {
    hide Scan;
    assert "</" + name + ">" == ['<'] + (['/'] + (name + ['>']));
    ScanAppend(s, ['<'], ['/'] + (name + ['>']));
    ScanOne(s, '<');
    ScanAppend(s.(mode := Opening), ['/'], name + ['>']);
    ScanOne(s.(mode := Opening), '/');
    ScanAppend(s.(mode := Closing("")), name, ['>']);
    ScanClosing(s.open, "", name);
    assert "" + name == name;
    ScanOne(s.(mode := Closing(name)), '>');
  }

  lemma ScanEmptyEnd(s: Scanner)
    requires s.mode == Inside || s.mode == Name
    ensures Scan(s, " />") == Some(Scanner(Pop(s.open), Content))
  {
    hide Scan;
    assert " />" == [' '] + (['/'] + ['>']);
    ScanAppend(s, [' '], ['/'] + ['>']);
    ScanOne(s, ' ');
    ScanAppend(s.(mode := Inside), ['/'], ['>']);
    ScanOne(s.(mode := Inside), '/');
    ScanOne(s.(mode := Slash), '>');
  }

  // The reader of the pieces and the one of the text are at the same place.
  predicate Agrees(r: Reader, s: Scanner) {
    s.open == r.open && if r.inTag then s.mode == Inside || s.mode == Name else s.mode == Content
  }

  lemma ScanPiece(r: Reader, s: Scanner, p: Piece)
    requires Agrees(r, s) && PlainPiece(p) && ReadOne(r, p).Some?
    ensures Scan(s, Shown(p)).Some? && Agrees(ReadOne(r, p).value, Scan(s, Shown(p)).value)
  {
    hide Scan, PlainAttribute;
    match p
    case Start(name) => ScanStart(s, name);
    case StartEnd => ScanOne(s, '>');
    case EmptyEnd => ScanEmptyEnd(s);
    case End(name) => ScanEnd(s, name);
    case Attr(text) =>
      var lead, name, value :| PlainAttribute(text, lead, name, value);
      ScanAttribute(s, text, lead, name, value);
    case Text(text) => ScanText(s, text);
  }

  /** A text written in plain pieces that read back as open tags reads back as the same open tags. */
  lemma {:induction false} ScanPieces(ps: seq<Piece>)
    requires PlainPieces(ps) && Read(ps).Some?
    ensures Scan(START, Flat(ps)).Some? && Agrees(Read(ps).value, Scan(START, Flat(ps)).value)
    decreases |ps|
  {
    hide Scan, PlainPiece, ReadOne, Shown;
    if ps == [] {
      ScanNothing(START);
    } else {
      var init, p := ps[..|ps| - 1], ps[|ps| - 1];
      ScanPieces(init);
      ScanAppend(START, Flat(init), Shown(p));
      ScanPiece(Read(init).value, Scan(START, Flat(init)).value, p);
    }
  }

  lemma ScanNothing(s: Scanner)
    ensures Scan(s, "") == Some(s)
  {
  }

  lemma {:induction false} PlainChars(name: string)
    requires forall i :: 0 <= i < |name| ==> NameChar(name[i])
    ensures Chars(name) == name
    decreases |name|
  {
    if name != [] {
      PlainChar(name);
      PlainChars(name[1..]);
    }
  }

  // Plain names are written as they are.
  lemma PlainConverted(name: string)
    requires PlainName(name)
    ensures Converted(name, XMLConversion) == name
  {
    PlainChars(name);
    ConvertedChars(name);
  }

  lemma ConvertedText(text: string)
    ensures var t := Converted(text, XMLConversion); Without(t, '<') && Without(t, '\"') && Without(t, '\n')
  {
    ConvertedIsPlain(text);
    ConvertedChars(text);
    hide Chars, Converted;
    var t := Converted(text, XMLConversion);
    forall i | 0 <= i < |t| ensures t[i] != '<' && t[i] != '\"' && t[i] != '\n' { assert t[i] in Chars(text); }
  }

  lemma ConvertedChars(text: string)
    ensures Converted(text, XMLConversion) == Chars(text)
  {
    hide Quoted, EscapedText;
    QuotedIsChars(text);
    if text == [] { NoChars(); }
  }

  function Repeat(s: string, n: nat): string {
    if n == 0 then "" else Repeat(s, n - 1) + s
  }

  // The names as they are written.
  function Written(tags: seq<string>, conversion: Conversion): (r: seq<string>)
    ensures |r| == |tags| && forall i :: 0 <= i < |tags| ==> r[i] == Converted(tags[i], conversion)
  {
    seq(|tags|, i requires 0 <= i < |tags| => Converted(tags[i], conversion))
  }

  /* ---- the items of a document ---- */

  datatype Item =
    | TagItem(name: string)
    | TagValueItem(name: string, text: string)
    | ValueTagItem(text: string)
    | CloseTagItem
    | CloseToItem(name: string)
    | CloseAllItem
    | AttributeItem(name: string, text: string)
    | AttributeTagItem(name: string, text: string)
    | DataItem(text: string)

  // The position of the last occurrence.
  function LastOf(tags: seq<string>, tag: string): (k: nat)
    requires tag in tags
    ensures k < |tags| && tags[k] == tag && tag !in tags[k + 1..]
  {
    if tags[|tags| - 1] == tag then |tags| - 1
    else
      var k := LastOf(tags[..|tags| - 1], tag);
      assert tags[k + 1..] == tags[..|tags| - 1][k + 1..] + [tags[|tags| - 1]];
      k
  }

  function Pop(tags: seq<string>): seq<string> {
    if tags == [] then [] else tags[..|tags| - 1]
  }

  // The names of an item are plain.
  predicate PlainItem(item: Item) {
    match item
    case TagItem(name) => PlainName(name)
    case TagValueItem(name, _) => PlainName(name)
    case AttributeItem(name, _) => PlainName(name)
    case AttributeTagItem(name, _) => PlainName(name)
    case _ => true
  }

  // The tags that are open behind an item.
  function OpenAfter(tags: seq<string>, item: Item): seq<string> {
    match item
    case TagItem(name) => tags + [name]
    case ValueTagItem(_) => Pop(tags)
    case CloseTagItem => Pop(tags)
    case CloseToItem(name) =>
      if name == "" then Pop(tags) else if name in tags then tags[..LastOf(tags, name)] else tags
    case CloseAllItem => []
    case _ => tags
  }

  // The level at which closing stops.
  function CloseLevel(tags: seq<string>, tag: Option<string>): (k: nat)
    ensures k <= |tags|
  {
    if tag.None? then 0 else if tag.value in tags then LastOf(tags, tag.value) else |tags|
  }

  // Tags have names; the message about a tag that is not open names the innermost one that is.
  predicate Admissible(tags: seq<string>, item: Item) {
    && (item.TagItem? ==> item.name != "")
    && (item.CloseToItem? && item.name != "" && item.name !in tags ==> tags != [])
  }

  function OpenAfterAll(tags: seq<string>, items: seq<Item>): seq<string>
    decreases |items|
  {
    if items == [] then tags else OpenAfterAll(OpenAfter(tags, items[0]), items[1..])
  }

  predicate AllAdmissible(tags: seq<string>, items: seq<Item>)
    decreases |items|
  {
    items == [] || (Admissible(tags, items[0]) && AllAdmissible(OpenAfter(tags, items[0]), items[1..]))
  }

  /* ---- how tags end ---- */

  datatype Style = Style(conversion: Conversion, indent: string, format: Format)

  // The end of the tag at that level.
  function Ended(style: Style, tag: string, level: nat, inTag: bool): seq<Piece> {
    if inTag then [EmptyEnd]
    else
      (if style.format == NewLine then [Text("\n" + Repeat(style.indent, level))] else [])
      + [End(Converted(tag, style.conversion))]
  }

  // The ends of the tags from that level on, innermost first; it may still be a start tag.
  function AllEnded(style: Style, tags: seq<string>, level: nat, inTag: bool): seq<Piece>
    requires level <= |tags|
    decreases |tags| - level
  {
    if level == |tags| then []
    else AllEnded(style, tags, level + 1, inTag) + Ended(style, tags[level], level, inTag && level == |tags| - 1)
  }

  lemma AllEndedStep(style: Style, tags: seq<string>, level: nat, inTag: bool)
    requires level < |tags|
    ensures AllEnded(style, tags, level, inTag)
         == AllEnded(style, tags, level + 1, inTag) + Ended(style, tags[level], level, inTag && level == |tags| - 1)
  {
  }

  lemma NoneEnded(style: Style, tags: seq<string>, inTag: bool)
    ensures AllEnded(style, tags, |tags|, inTag) == []
    ensures (tags != []
      ==> AllEnded(style, tags, |tags| - 1, inTag) == Ended(style, tags[|tags| - 1], |tags| - 1, inTag))
  {
  }

  /* ---- what a document tells its reader ---- */

  // An element starts, holds an attribute, holds text, and ends.
  datatype Event = Opened(name: string) | Held(name: string, value: string) | Said(text: string) | Closed(name: string)

  // What a piece tells behind a document with these open elements.
  ghost function EventsOf(open: seq<string>, p: Piece): seq<Event> {
    match p
    case Start(name) => [Opened(name)]
    case StartEnd => []
    case EmptyEnd => [Closed(Last(open))]
    case End(name) => [Closed(name)]
    case Attr(text) =>
      if exists lead, name, value :: PlainAttribute(text, lead, name, value) && Decode(value).Some? then
        var lead, name, value :| PlainAttribute(text, lead, name, value) && Decode(value).Some?;
        [Held(name, Decode(value).value)]
      else []
    case Text(text) => if Decode(text).Some? then [Said(Decode(text).value)] else []
  }

  function OpenBehind(open: seq<string>, p: Piece): seq<string> {
    match p
    case Start(name) => open + [name]
    case EmptyEnd => Pop(open)
    case End(_) => Pop(open)
    case _ => open
  }

  function AllOpen(open: seq<string>, ps: seq<Piece>): seq<string>
    decreases |ps|
  {
    if ps == [] then open else AllOpen(OpenBehind(open, ps[0]), ps[1..])
  }

  // All that the pieces tell, except for text that is blank.
  ghost function Events(open: seq<string>, ps: seq<Piece>): seq<Event>
    decreases |ps|
  {
    if ps == [] then [] else Essence(EventsOf(open, ps[0])) + Events(OpenBehind(open, ps[0]), ps[1..])
  }

  predicate Matters(e: Event) {
    e.Said? ==> !Blanks(e.text)
  }

  function Essence(events: seq<Event>): seq<Event> {
    Filter(events, Matters)
  }

  // The ends of the elements from that level on, innermost first.
  function Closes(tags: seq<string>, level: nat): (r: seq<Event>)
    ensures |r| == if level <= |tags| then |tags| - level else 0
    ensures forall i :: 0 <= i < |r| ==> r[i] == Closed(tags[|tags| - 1 - i])
    decreases |tags|
  {
    if level >= |tags| then [] else [Closed(tags[|tags| - 1])] + Closes(tags[..|tags| - 1], level)
  }

  /** What an item says, given the tags that are open and whether the last start tag is. */
  function Meant(tags: seq<string>, inTag: bool, item: Item): seq<Event> {
    match item
    case TagItem(name) => [Opened(name)]
    case TagValueItem(name, text) => [Opened(name), Said(text), Closed(name)]
    case ValueTagItem(text) => [Said(text)] + Closes(tags, |Pop(tags)|)
    case AttributeItem(name, text) => if inTag then [Held(name, text)] else []
    case AttributeTagItem(name, text) => if inTag then [Held(name, text)] else []
    case DataItem(text) => if text == "" then [] else [Said("\n" + Repeat("\t", |tags|) + text)]
    case _ => Closes(tags, |OpenAfter(tags, item)|)
  }

  function InTagAfter(tags: seq<string>, inTag: bool, item: Item): bool {
    match item
    case TagItem(_) => true
    case AttributeItem(_, _) => inTag
    case AttributeTagItem(_, _) => inTag
    case CloseToItem(name) => inTag && name != "" && name !in tags
    case _ => false
  }

  function AllMeant(tags: seq<string>, inTag: bool, items: seq<Item>): seq<Event>
    decreases |items|
  {
    if items == [] then []
    else
      Essence(Meant(tags, inTag, items[0]))
      + AllMeant(OpenAfter(tags, items[0]), InTagAfter(tags, inTag, items[0]), items[1..])
  }

  // No text of the item holds what is passed through.
  predicate Unpassed(item: Item) {
    match item
    case TagValueItem(_, text) => !Passes(text)
    case ValueTagItem(text) => !Passes(text)
    case AttributeItem(_, text) => !Passes(text)
    case AttributeTagItem(_, text) => !Passes(text)
    case DataItem(text) => !Passes(text)
    case _ => true
  }

  lemma {:induction false} EventsAppend(open: seq<string>, a: seq<Piece>, b: seq<Piece>)
    ensures AllOpen(open, a + b) == AllOpen(AllOpen(open, a), b)
    ensures Events(open, a + b) == Events(open, a) + Events(AllOpen(open, a), b)
    decreases |a|
  {
    hide EventsOf, Essence, OpenBehind;
    if a == [] {
      assert a + b == b;
    } else {
      assert (a + b)[0] == a[0] && (a + b)[1..] == a[1..] + b;
      EventsAppend(OpenBehind(open, a[0]), a[1..], b);
    }
  }

  lemma EventsOne(open: seq<string>, p: Piece)
    ensures AllOpen(open, [p]) == OpenBehind(open, p) && Events(open, [p]) == Essence(EventsOf(open, p))
  {
    hide EventsOf, Essence, OpenBehind;
    assert [p][1..] == [];
    assert Events(OpenBehind(open, p), []) == [];
  }

  // One piece behind others.
  lemma EventsMore(open: seq<string>, a: seq<Piece>, p: Piece)
    ensures AllOpen(open, a + [p]) == OpenBehind(AllOpen(open, a), p)
    ensures Events(open, a + [p]) == Events(open, a) + Essence(EventsOf(AllOpen(open, a), p))
  {
    EventsAppend(open, a, [p]);
    EventsOne(AllOpen(open, a), p);
  }

  // The parts of an attribute can be told apart.
  lemma AttributeUnique(text: string, l: string, n: string, v: string, l': string, n': string, v': string)
    requires PlainAttribute(text, l, n, v) && PlainAttribute(text, l', n', v')
    ensures l == l' && n == n' && v == v'
  {
    SameLead(text, l, n + ("=\"" + (v + "\"")), l', n' + ("=\"" + (v' + "\"")));
    assert "=\"" + (v + "\"") == "=" + ("\"" + (v + "\"")) && "=\"" + (v' + "\"") == "=" + ("\"" + (v' + "\""));
    SameName(n, "\"" + (v + "\""), n', "\"" + (v' + "\""));
    assert v + "\"" == ("\"" + (v + "\""))[1..] == v' + "\"";
    assert v == (v + "\"")[..|v|] && v' == (v' + "\"")[..|v'|];
  }

  lemma SameLead(text: string, l: string, rest: string, l': string, rest': string)
    requires text == l + rest == l' + rest' && Blanks(l) && Blanks(l')
    requires rest != "" && rest' != "" && NameChar(rest[0]) && NameChar(rest'[0])
    ensures l == l' && rest == rest'
  {
    forall i | 0 <= i < |l| ensures !NameChar(text[i]) { assert text[i] == l[i]; }
    forall i | 0 <= i < |l'| ensures !NameChar(text[i]) { assert text[i] == l'[i]; }
    assert NameChar(text[|l|]) && NameChar(text[|l'|]);
    assert l == text[..|l|] && l' == text[..|l|];
    assert rest == text[|l|..] && rest' == text[|l|..];
  }

  lemma SameName(n: string, rest: string, n': string, rest': string)
    requires n + ("=" + rest) == n' + ("=" + rest') && PlainName(n) && PlainName(n')
    ensures n == n' && rest == rest'
  {
    var text := n + ("=" + rest);
    forall i | 0 <= i < |n| ensures text[i] != '=' { assert text[i] == n[i] && NameChar(n[i]); }
    forall i | 0 <= i < |n'| ensures text[i] != '=' { assert text[i] == n'[i] && NameChar(n'[i]); }
    assert text[|n|] == '=' && text[|n'|] == '=';
    assert n == text[..|n|] && n' == text[..|n|];
    assert rest == text[|n| + 1..] && rest' == text[|n| + 1..];
  }

  // Text in front of which no ampersand stands is read as it is.
  lemma {:induction false} DecodeBehind(a: string, b: string)
    requires Without(a, '&') && Decode(b).Some?
    ensures Decode(a + b) == Some(a + Decode(b).value)
    decreases |a|
  {
    hide Decode;
    if a == "" {
      assert a + b == b && a + Decode(b).value == Decode(b).value;
    } else {
      assert (a + b)[1..] == a[1..] + b;
      DecodeBehind(a[1..], b);
      DecodeFirst(a + b);
      assert [a[0]] + (a[1..] + Decode(b).value) == a + Decode(b).value;
    }
  }

  lemma DecodeFirst(s: string)
    requires s != "" && s[0] != '&'
    ensures Decode(s) == Cons(s[0], Decode(s[1..]))
  {
  }

  /* ---- what the pieces of an item tell ---- */

  lemma EssenceOne(e: Event)
    ensures Essence([e]) == if Matters(e) then [e] else []
  {
    FilterOne(e, Matters);
  }

  lemma EssenceNone()
    ensures Essence([]) == [] && forall open :: Events(open, []) == []
  {
  }

  lemma EssenceAppend(a: seq<Event>, b: seq<Event>)
    ensures Essence(a + b) == Essence(a) + Essence(b)
  {
    FilterAppend(a, b, Matters);
  }

  lemma EssenceAll(events: seq<Event>)
    requires forall i :: 0 <= i < |events| ==> events[i].Closed?
    ensures Essence(events) == events
  {
    FilterAll(events, Matters);
  }

  // Converted text is read as the text.
  lemma TextTold(open: seq<string>, text: string)
    requires !Passes(text)
    ensures EventsOf(open, Text(Converted(text, XMLConversion))) == [Said(text)]
  {
    hide Decode, Converted;
    ConversionInverts(text);
  }

  lemma DecodePlain(text: string)
    requires Without(text, '&')
    ensures Decode(text) == Some(text)
  {
    hide Decode;
    DecodeNothing();
    DecodeBehind(text, "");
    assert text + "" == text;
  }

  lemma BlankTold(open: seq<string>, text: string)
    requires Blanks(text)
    ensures Essence(EventsOf(open, Text(text))) == []
  {
    hide Decode;
    DecodePlain(text);
    EssenceOne(Said(text));
  }

  // Blanks and converted text behind them.
  lemma BlockTold(open: seq<string>, lead: string, text: string)
    requires Blanks(lead) && !Passes(text)
    ensures EventsOf(open, Text(lead + Converted(text, XMLConversion))) == [Said(lead + text)]
  {
    hide Decode, Converted;
    ConversionInverts(text);
    DecodeBehind(lead, Converted(text, XMLConversion));
  }

  lemma PairTold(open: seq<string>, lead: string, name: string, value: string)
    requires lead != "" && Blanks(lead) && PlainName(name) && !Passes(value)
    ensures EventsOf(open, Attr(lead + name + "=\"" + Converted(value, XMLConversion) + "\"")) == [Held(name, value)]
  {
    hide Decode, Converted, PlainName;
    var v := Converted(value, XMLConversion);
    var text := lead + name + "=\"" + v + "\"";
    ConversionInverts(value);
    ConvertedText(value);
    assert text == lead + (name + ("=\"" + (v + "\"")));
    assert PlainAttribute(text, lead, name, v);
    hide PlainAttribute;
    forall l, n, w | PlainAttribute(text, l, n, w) ensures n == name && w == v {
      AttributeUnique(text, lead, name, v, l, n, w);
    }
  }

  // The end of the innermost tag, in a start tag, behind it, and on a line of its own.
  lemma EndTold(tags: seq<string>, p: Piece)
    requires tags != [] && (p == EmptyEnd || p == End(Last(tags)))
    ensures Events(tags, [p]) == [Closed(Last(tags))] && AllOpen(tags, [p]) == Pop(tags)
  {
    hide Essence, EventsOf, Events;
    EssenceOne(Closed(Last(tags)));
    EndsOf(tags, Last(tags));
    EventsOne(tags, p);
  }

  lemma LineEndTold(tags: seq<string>, level: nat)
    requires tags != []
    ensures var ps := [Text("\n" + Repeat("\t", level))] + [End(Last(tags))];
      Events(tags, ps) == [Closed(Last(tags))] && AllOpen(tags, ps) == Pop(tags)
  {
    hide Essence, EventsOf, Events, Repeat;
    var t := Text("\n" + Repeat("\t", level));
    BlankIndent(level);
    BlankTold(tags, t.text);
    EndTold(tags, End(Last(tags)));
    EventsAppend(tags, [t], [End(Last(tags))]);
    EventsOne(tags, t);
    assert [] + [Closed(Last(tags))] == [Closed(Last(tags))];
  }

  lemma TagEndTold(style: Style, tags: seq<string>, inTag: bool)
    requires style.conversion == XMLConversion && style.indent == "\t" && tags != [] && PlainName(Last(tags))
    ensures var ps := Ended(style, Last(tags), |tags| - 1, inTag);
      Events(tags, ps) == [Closed(Last(tags))] && AllOpen(tags, ps) == Pop(tags)
  {
    hide Converted, PlainName, Repeat, Essence, EventsOf, Events, AllOpen;
    PlainConverted(Last(tags));
    EndTold(tags, if inTag then EmptyEnd else End(Last(tags)));
    LineEndTold(tags, |tags| - 1);
    assert [] + [End(Last(tags))] == [End(Last(tags))];
  }

  lemma EndsOf(open: seq<string>, name: string)
    ensures EventsOf(open, End(name)) == [Closed(name)] && EventsOf(open, EmptyEnd) == [Closed(Last(open))]
    ensures EventsOf(open, Start(name)) == [Opened(name)] && Essence(EventsOf(open, StartEnd)) == []
  {
  }

  lemma {:induction false} BlankIndent(level: nat)
    ensures Blanks(Repeat("\t", level)) && Blanks("\n" + Repeat("\t", level))
    decreases level
  {
    if level > 0 { BlankIndent(level - 1); }
  }

  lemma {:induction false} EndedTold(style: Style, tags: seq<string>, level: nat, inTag: bool)
    requires style.conversion == XMLConversion && style.indent == "\t" && level <= |tags|
    requires forall i :: 0 <= i < |tags| ==> PlainName(tags[i])
    ensures var ps := AllEnded(style, tags, level, inTag);
      Events(tags, ps) == Closes(tags, level) && AllOpen(tags, ps) == tags[..level]
    decreases |tags| - level
  {
    hide Converted, PlainName, Repeat, Essence, EventsOf, Ended;
    if level < |tags| {
      EndedTold(style, tags, level + 1, inTag);
      var inner, outer := AllEnded(style, tags, level + 1, inTag), tags[..level + 1];
      assert Last(outer) == tags[level] && Pop(outer) == tags[..level];
      TagEndTold(style, outer, inTag && level == |tags| - 1);
      EventsAppend(tags, inner, Ended(style, tags[level], level, inTag && level == |tags| - 1));
      assert Closes(tags, level) == Closes(tags, level + 1) + [Closed(tags[level])];
    } else {
      assert AllEnded(style, tags, level, inTag) == [] && tags[..level] == tags;
    }
  }

  // A reader of pieces knows the open elements.
  lemma {:induction false} ReadOpen(ps: seq<Piece>)
    requires Read(ps).Some?
    ensures AllOpen([], ps) == Read(ps).value.open
    decreases |ps|
  {
    hide Events, EventsOf, Essence;
    if ps != [] {
      var p := ps[|ps| - 1];
      ReadOpen(ps[..|ps| - 1]);
      EventsMore([], ps[..|ps| - 1], p);
      hide AllOpen;
      assert ps == ps[..|ps| - 1] + [p];
    }
  }

  lemma {:induction false} WrittenPlain(tags: seq<string>)
    requires forall i :: 0 <= i < |tags| ==> PlainName(tags[i])
    ensures Written(tags, XMLConversion) == tags
  {
    forall i | 0 <= i < |tags| ensures Converted(tags[i], XMLConversion) == tags[i] { PlainConverted(tags[i]); }
  }

  class XmlOutput {
    var xmlFile: string
    var currentIndent: string
    var currentLevel: nat
    var currentState: State
    var format: Format
    var tagStack: seq<string>
    const conversion: Conversion
    const indent: string
    ghost var pieces: seq<Piece>

    /** Bare iff no tag is open iff the level is zero, and what was written so far reads back as the
        tags that are open. */
    ghost predicate Valid()
      reads this
    {
      && Settled()
      && Read(pieces) == Some(Reader(Written(tagStack, conversion), currentState == Attribute))
    }

    ghost predicate Settled()
      reads this
    {
      && xmlFile == Flat(pieces)
      && currentLevel == |tagStack| && currentIndent == Repeat(indent, currentLevel)
      && (currentState == Bare <==> tagStack == [])
      && forall i :: 0 <= i < |tagStack| ==> tagStack[i] != ""
    }

    /** Under the XML conversion and with plain names, what was written is plain. */
    ghost predicate Plain()
      reads this
    {
      && conversion == XMLConversion && indent == "\t" && PlainPieces(pieces)
      && forall i :: 0 <= i < |tagStack| ==> PlainName(tagStack[i])
    }

    constructor (conversion: Conversion)
      ensures Valid() && tagStack == [] && xmlFile == "" && format == NewLine && this.conversion == conversion
      ensures conversion == XMLConversion ==> Plain()
    {
      this.conversion := conversion;
      indent := "\t";
      xmlFile, currentIndent, currentLevel, currentState, format, tagStack, pieces := "", "", 0, Bare, NewLine, [], [];
    }

    method Write(p: Piece)
      modifies this`xmlFile, this`pieces
      ensures pieces == old(pieces) + [p]
      ensures old(xmlFile == Flat(pieces)) ==> xmlFile == Flat(pieces)
      ensures Read(pieces) == match old(Read(pieces)) case None => None case Some(r) => ReadOne(r, p)
    {
      OneMore(pieces, p);
      xmlFile := xmlFile + Shown(p);
      pieces := pieces + [p];
    }

    method UpdateIndent()
      modifies this`currentIndent
      ensures currentIndent == Repeat(indent, currentLevel)
    {
      currentIndent := "";
      for i := 0 to currentLevel
        invariant currentIndent == Repeat(indent, i)
      {
        currentIndent := currentIndent + indent;
      }
    }

    method IncreaseIndent()
      modifies this`currentLevel, this`currentIndent
      ensures currentLevel == old(currentLevel) + 1 && currentIndent == Repeat(indent, currentLevel)
    {
      currentLevel := currentLevel + 1;
      UpdateIndent();
    }

    method DecreaseIndent()
      modifies this`currentLevel, this`currentIndent, this`currentState
      ensures currentLevel == (if old(currentLevel) == 0 then 0 else old(currentLevel) - 1)
      ensures currentIndent == Repeat(indent, currentLevel)
      ensures currentState == if currentLevel == 0 then Bare else old(currentState)
    {
      if currentLevel != 0 { currentLevel := currentLevel - 1; }
      UpdateIndent();
      if currentLevel == 0 { currentState := Bare; }
    }

    // The end of a start tag that is open.
    ghost function Ending(): seq<Piece>
      reads this
    {
      if currentState == Attribute then [StartEnd] else []
    }

    method CloseOpen()
      requires Valid()
      modifies this`xmlFile, this`pieces, this`currentState
      ensures Valid() && currentState == if old(currentState) == Attribute then Tag else old(currentState)
      ensures pieces == old(pieces) + old(Ending())
    {
      hide Read, Flat;
      if currentState != Attribute { return; }
      Write(StartEnd);
      currentState := Tag;
    }

    method AddRaw(text: string)
      requires Valid()
      modifies this`xmlFile, this`pieces, this`currentState
      ensures Valid() && currentState == if old(currentState) == Attribute then Tag else old(currentState)
      ensures pieces == old(pieces) + (old(Ending()) + [Text(text)])
    {
      hide Read, Flat;
      CloseOpen();
      Write(Text(text));
    }

    ghost function Break(): seq<Piece>
      reads this
    {
      if format == NewLine then [Text("\n" + currentIndent)] else []
    }

    method WriteBreak()
      requires Settled() && currentState != Attribute && Read(pieces).Some? && !Read(pieces).value.inTag
      modifies this`xmlFile, this`pieces
      ensures Settled() && Read(pieces) == old(Read(pieces)) && pieces == old(pieces) + Break()
    {
      hide Read, Flat;
      if format == NewLine { Write(Text("\n" + currentIndent)); }
    }

    method NewTagOpen(tag: string)
      requires Valid() && tag != ""
      modifies this
      ensures Valid() && format == old(format)
      ensures tagStack == old(tagStack) + [tag] && currentState == Attribute
      ensures pieces == old(pieces) + (old(Ending() + Break()) + [Start(Converted(tag, conversion))])
    {
      hide Read, Flat, Repeat, Converted;
      CloseOpen();
      WriteBreak();
      var name := DoConversion(tag, conversion);
      Write(Start(name));
      currentState := Attribute;
      assert Written(tagStack + [tag], conversion) == Written(tagStack, conversion) + [name];
      tagStack := tagStack + [tag];
      IncreaseIndent();
    }

    ghost function Styled(): Style
      reads this`format
    {
      Style(conversion, indent, format)
    }

    method CloseTag()
      requires Valid()
      modifies this
      ensures Valid() && format == old(format) && tagStack == Pop(old(tagStack)) && currentState != Attribute
      ensures var ended :=
        if old(tagStack) == [] then []
        else old(Ended(Styled(), tagStack[|tagStack| - 1], |tagStack| - 1, currentState == Attribute));
        pieces == old(pieces) + ended
      ensures old(currentState) == Bare ==> pieces == old(pieces)
      ensures old(currentState) == Attribute ==> pieces == old(pieces) + [EmptyEnd]
      ensures (old(currentState) == Tag
        ==> pieces == old(pieces) + (Break() + [End(Converted(old(tagStack[|tagStack| - 1]), conversion))]))
    {
      hide Read, Flat, Repeat, Converted;
      if currentState == Bare { return; }
      var last := tagStack[|tagStack| - 1];
      ghost var rest := tagStack[..|tagStack| - 1];
      assert Written(rest, conversion) == Written(tagStack, conversion)[..|rest|];
      if currentState == Tag {
        DecreaseIndent();
        if format == NewLine { Write(Text("\n" + currentIndent)); }
        var name := DoConversion(last, conversion);
        Write(End(name));
        tagStack := tagStack[..|tagStack| - 1];
      } else {
        Write(EmptyEnd);
        tagStack := tagStack[..|tagStack| - 1];
        currentState := Tag;
        DecreaseIndent();
      }
    }

    // Closes tags up to the given one, or all of them.
    method CloseTo(tag: Option<string>)
      requires Valid() && (tag.Some? && tag.value !in tagStack ==> tagStack != [])
      modifies this
      ensures Valid() && format == old(format)
      ensures tagStack == old(tagStack)[..CloseLevel(old(tagStack), tag)]
      ensures pieces == old(pieces)
        + old(AllEnded(Styled(), tagStack, CloseLevel(tagStack, tag), currentState == Attribute))
      ensures (currentState == Attribute
        <==> old(currentState) == Attribute && CloseLevel(old(tagStack), tag) == |old(tagStack)|)
    {
      hide Read, Flat, Repeat, Converted, LastOf, Written, Ended, AllEnded;
      ghost var was, inTag, style := tagStack, currentState == Attribute, Styled();
      NoneEnded(style, was, inTag);
      if tag.Some? && tag.value !in tagStack {
        assert tagStack[..|tagStack|] == tagStack;
        return;
      }
      var cont := true;
      var left := |tagStack|;
      ghost var k := CloseLevel(was, tag);
      assert was[..|was|] == was;
      while left > 0 && cont
        invariant Valid() && format == old(format) && 0 <= left == |tagStack| <= |was| && tagStack == was[..left]
        invariant if cont then left >= (if tag.None? then 0 else k + 1) else left == k
        invariant pieces == old(pieces) + AllEnded(style, was, left, inTag)
        invariant currentState == Attribute <==> inTag && left == |was|
        decreases left
      {
        left := left - 1;
        var last := tagStack[|tagStack| - 1];
        cont := tag.None? || last != tag.value;
        CloseTag();
        AllEndedStep(style, was, left, inTag);
        assert was[..left + 1][..left] == was[..left];
        assert left == k ==> last == was[k];
      }
    }

    /** Closes what is open, and what was written then reads back as a whole document. */
    method CloseAll()
      requires Valid()
      modifies this
      ensures Valid() && format == old(format) && tagStack == []
      ensures pieces == old(pieces) + old(AllEnded(Styled(), tagStack, 0, currentState == Attribute))
      ensures Read(pieces) == Some(Reader([], false)) && currentState == Bare && currentLevel == 0
    {
      if tagStack == [] { return; }
      CloseTo(None);
    }

    // An attribute behind the space in front of it.
    function Pair(lead: string, attribute: string, value: string): string {
      lead + Converted(attribute, conversion) + "=\"" + Converted(value, conversion) + "\""
    }

    // A text on lines of its own.
    function Block(text: string): string
      reads this
    {
      "\n" + currentIndent + ReplaceChar(Converted(text, conversion), '\n', "\n" + currentIndent)
    }

    // Under every conversion, each line of the text is indented.
    lemma BlockLines(text: string, lines: seq<string>)
      requires lines != [] && Fields(Converted(text, conversion), '\n', lines)
      ensures Block(text) == Indented(lines, "\n" + currentIndent)
    {
      hide Converted;
      LinesIndented(lines, "\n" + currentIndent);
    }

    method AddAttribute(attribute: string, value: string)
      requires Valid()
      modifies this`xmlFile, this`pieces
      ensures Valid()
      ensures currentState != Attribute ==> pieces == old(pieces)
      ensures var lead := (if format == NewLine then "\n" else "") + currentIndent;
        currentState == Attribute ==> pieces == old(pieces) + [Attr(Pair(lead, attribute, value))]
    {
      hide Read, Flat, Repeat, Converted;
      if currentState != Attribute { return; }
      var name := DoConversion(attribute, conversion);
      var text := DoConversion(value, conversion);
      var lead := (if format == NewLine then "\n" else "") + currentIndent;
      Write(Attr(lead + name + "=\"" + text + "\""));
    }

    method AddAttributeTag(attribute: string, value: string)
      requires Valid()
      modifies this`xmlFile, this`pieces
      ensures Valid()
      ensures currentState != Attribute ==> pieces == old(pieces)
      ensures currentState == Attribute ==> pieces == old(pieces) + [Attr(Pair(" ", attribute, value))]
    {
      hide Read, Flat, Repeat, Converted;
      if currentState != Attribute { return; }
      var name := DoConversion(attribute, conversion);
      var text := DoConversion(value, conversion);
      Write(Attr(" " + name + "=\"" + text + "\""));
    }

    method WriteElement(name: string, text: string)
      requires Settled() && Read(pieces).Some? && !Read(pieces).value.inTag
      modifies this`xmlFile, this`pieces
      ensures Settled() && Read(pieces) == old(Read(pieces))
      ensures pieces == old(pieces) + [Start(name), StartEnd, Text(text), End(name)]
    {
      hide Read, Flat, Repeat;
      Write(Start(name));
      Write(StartEnd);
      Write(Text(text));
      Write(End(name));
    }

    // A whole element: its name is not converted, but its text is.
    method AddTagValue(name: string, value: string)
      requires Valid()
      modifies this`xmlFile, this`pieces, this`currentState
      ensures Valid() && currentState == if old(currentState) == Attribute then Tag else old(currentState)
      ensures pieces == old(pieces) + (old(Ending()) + [Text("\n" + currentIndent), Start(name), StartEnd,
                                       Text(Converted(value, conversion)), End(name)])
    {
      hide Read, Flat, Repeat, Converted, ReadOne;
      AddRaw("\n" + currentIndent);
      var text := DoConversion(value, conversion);
      WriteElement(name, text);
    }

    // The text of the tag that is open, and its end on the same line.
    method AddValueTag(value: string)
      requires Valid()
      modifies this
      ensures Valid() && tagStack == Pop(old(tagStack)) && format == NewLine && currentState != Attribute
      ensures var text := old(Ending()) + [Text(Converted(value, conversion))];
        pieces == old(pieces) + (if old(tagStack) == [] then text
                                 else text + [End(Converted(old(tagStack)[|old(tagStack)| - 1], conversion))])
    {
      hide Read, Flat, Repeat, Converted;
      var text := DoConversion(value, conversion);
      AddRaw(text);
      format := NoNewLine;
      CloseTag();
      format := NewLine;
    }

    method AddData(text: string)
      requires Valid()
      modifies this`xmlFile, this`pieces, this`currentState
      ensures Valid() && currentState == if old(currentState) == Attribute then Tag else old(currentState)
      ensures text == "" ==> pieces == old(pieces) + old(Ending())
      ensures text != "" ==> pieces == old(pieces) + (old(Ending()) + [Text(Block(text))])
    {
      hide Read, Flat, Repeat, Converted, ReplaceChar;
      if text == "" {
        CloseOpen();
        return;
      }
      var output := DoConversion(text, conversion);
      output := ReplaceChar(output, '\n', "\n" + currentIndent);
      AddRaw("\n" + currentIndent + output);
    }

    // What an item writes.
    ghost function Output(item: Item): seq<Piece>
      reads this
    {
      match item
      case TagItem(name) => Ending() + Break() + [Start(Converted(name, conversion))]
      case TagValueItem(name, text) =>
        Ending() + [Text("\n" + currentIndent), Start(name), StartEnd, Text(Converted(text, conversion)), End(name)]
      case ValueTagItem(text) =>
        Ending() + [Text(Converted(text, conversion))]
        + (if tagStack == [] then [] else [End(Converted(tagStack[|tagStack| - 1], conversion))])
      case AttributeItem(name, text) =>
        var lead := (if format == NewLine then "\n" else "") + currentIndent;
        if currentState == Attribute then [Attr(Pair(lead, name, text))] else []
      case AttributeTagItem(name, text) => if currentState == Attribute then [Attr(Pair(" ", name, text))] else []
      case DataItem(text) => Ending() + (if text == "" then [] else [Text(Block(text))])
      case CloseTagItem => AllEnded(Styled(), tagStack, |Pop(tagStack)|, currentState == Attribute)
      case CloseToItem(name) =>
        var level := if name == "" then |Pop(tagStack)| else CloseLevel(tagStack, Some(name));
        AllEnded(Styled(), tagStack, level, currentState == Attribute)
      case CloseAllItem => AllEnded(Styled(), tagStack, 0, currentState == Attribute)
    }

    lemma EndingPlain()
      requires Valid() && Plain()
      ensures PlainPieces(Ending()) && PlainPieces(Break()) && PlainPiece(Text("\n" + currentIndent))
    {
      PlainBreak(currentLevel);
    }

    lemma ElementPlain(name: string, text: string)
      requires Valid() && Plain() && PlainName(name)
      ensures PlainPieces([Text("\n" + currentIndent), Start(name), StartEnd, Text(Converted(text, conversion)),
                           End(name)])
    {
      hide Converted, PlainName, Read, Flat, Repeat;
      EndingPlain();
      ConvertedText(text);
    }

    lemma ValuePlain(text: string)
      requires Valid() && Plain()
      ensures PlainPieces(Output(ValueTagItem(text)))
    {
      hide Converted, PlainName, Read, Flat, Repeat, PlainPieces;
      EndingPlain();
      ConvertedText(text);
      PlainOne(Text(Converted(text, conversion)));
      PlainAppend(Ending(), [Text(Converted(text, conversion))]);
      if tagStack != [] {
        PlainConverted(tagStack[|tagStack| - 1]);
        PlainOne(End(Converted(tagStack[|tagStack| - 1], conversion)));
        PlainAppend(Ending() + [Text(Converted(text, conversion))],
          [End(Converted(tagStack[|tagStack| - 1], conversion))]);
      } else {
        assert Output(ValueTagItem(text)) == Ending() + [Text(Converted(text, conversion))];
      }
    }

    // Behind a plain document, an item with plain names writes something plain.
    lemma OutputPlain(item: Item)
      requires Valid() && Plain() && PlainItem(item) && Admissible(tagStack, item)
      ensures PlainPieces(Output(item))
    {
      hide Converted, PlainName, PlainAttribute, PlainPieces, Read, Flat, Repeat, AllEnded, Ending, Break, Pair, Block;
      EndingPlain();
      PlainOne(StartEnd);
      match item
      case TagItem(name) =>
        PlainConverted(name);
        PlainAppend(Ending(), Break());
        PlainOne(Start(name));
        PlainAppend(Ending() + Break(), [Start(name)]);
      case TagValueItem(name, text) =>
        ElementPlain(name, text);
        PlainAppend(Ending(), [Text("\n" + currentIndent), Start(name), StartEnd, Text(Converted(text, conversion)),
                               End(name)]);
      case ValueTagItem(text) => ValuePlain(text);
      case AttributeItem(name, text) =>
        PlainBreak(currentLevel);
        if currentState == Attribute {
          PlainPair((if format == NewLine then "\n" else "") + currentIndent, name, text);
        }
      case AttributeTagItem(name, text) => PlainPair(" ", name, text);
      case DataItem(text) =>
        PlainBlock(text);
        PlainOne(Text(Block(text)));
        PlainAppend(Ending(), [Text(Block(text))]);
        PlainAppend(Ending(), []);
      case CloseTagItem => PlainEnded(tagStack, |Pop(tagStack)|, currentState == Attribute);
      case CloseToItem(name) =>
        var level := if name == "" then |Pop(tagStack)| else CloseLevel(tagStack, Some(name));
        PlainEnded(tagStack, level, currentState == Attribute);
      case CloseAllItem => PlainEnded(tagStack, 0, currentState == Attribute);
    }

    lemma OpenPlain(tags: seq<string>, item: Item)
      requires PlainItem(item) && forall i :: 0 <= i < |tags| ==> PlainName(tags[i])
      ensures var r := OpenAfter(tags, item); forall i :: 0 <= i < |r| ==> PlainName(r[i])
    {
    }

    lemma {:induction false} PlainBreak(level: nat)
      requires indent == "\t"
      ensures Blanks(Repeat(indent, level)) && |Repeat(indent, level)| == level
      ensures Without("\n" + Repeat(indent, level), '<')
      decreases level
    {
      if level > 0 { PlainBreak(level - 1); }
    }

    lemma PlainPair(lead: string, attribute: string, value: string)
      requires Plain() && lead != "" && Blanks(lead) && PlainName(attribute)
      ensures PlainPieces([Attr(Pair(lead, attribute, value))])
    {
      hide Converted, PlainName;
      PlainConverted(attribute);
      ConvertedText(value);
      var text := Converted(value, conversion);
      assert Pair(lead, attribute, value) == lead + (attribute + ("=\"" + (text + "\"")));
      assert PlainAttribute(Pair(lead, attribute, value), lead, attribute, text);
    }

    lemma PlainBlock(text: string)
      requires Valid() && Plain()
      ensures Without(Block(text), '<')
    {
      hide Converted, Read, Flat, Repeat;
      ConvertedText(text);
      PlainBreak(currentLevel);
      ReplaceNone(Converted(text, conversion), '\n', "\n" + currentIndent);
    }

    lemma {:induction false} PlainEnded(tags: seq<string>, level: nat, inTag: bool)
      requires level <= |tags| && Plain() && forall i :: 0 <= i < |tags| ==> PlainName(tags[i])
      ensures PlainPieces(AllEnded(Styled(), tags, level, inTag))
      decreases |tags| - level
    {
      hide Converted, PlainName, Repeat;
      if level < |tags| {
        PlainEnded(tags, level + 1, inTag);
        PlainConverted(tags[level]);
        PlainBreak(level);
      }
    }

    // The effect of an item on the tags that are open.
    method PutItem(item: Item)
      requires Valid() && Admissible(tagStack, item)
      modifies this
      ensures Valid() && tagStack == OpenAfter(old(tagStack), item)
      ensures pieces == old(pieces) + old(Output(item))
      ensures (currentState == Attribute) == InTagAfter(old(tagStack), old(currentState) == Attribute, item)
      ensures format == if item.ValueTagItem? then NewLine else old(format)
    {
      hide Read, Flat, Repeat, Converted, ReplaceChar, Written, LastOf, Ended, AllEnded;
      NoneEnded(Styled(), tagStack, currentState == Attribute);
      match item
      case TagItem(name) => NewTagOpen(name);
      case TagValueItem(name, value) => AddTagValue(name, value);
      case ValueTagItem(value) => AddValueTag(value);
      case CloseTagItem => CloseTag();
      case CloseToItem(name) => if name != "" { CloseTo(Some(name)); } else { CloseTag(); }
      case CloseAllItem => CloseAll();
      case AttributeItem(name, value) => AddAttribute(name, value);
      case AttributeTagItem(name, value) => AddAttributeTag(name, value);
      case DataItem(text) => AddData(text);
    }

    /** The stream operator: one item. */
    method Put(item: Item)
      requires Valid() && Admissible(tagStack, item)
      modifies this
      ensures Valid() && tagStack == OpenAfter(old(tagStack), item)
      ensures pieces == old(pieces) + old(Output(item))
      ensures old(Plain()) && PlainItem(item) ==> Plain()
      ensures old(Plain()) && PlainItem(item) && Unpassed(item) ==>
        Story() == old(Story()) + Essence(old(Meant(tagStack, currentState == Attribute, item)))
      ensures (currentState == Attribute) == InTagAfter(old(tagStack), old(currentState) == Attribute, item)
      ensures format == if item.ValueTagItem? then NewLine else old(format)
    {
      hide Read, Flat, Output, LastOf, PlainName, PlainPiece, Meant, Events, Essence, Passes;
      if Plain() && PlainItem(item) {
        OutputPlain(item);
        OpenPlain(tagStack, item);
        if Unpassed(item) { OutputTold(item); }
        OpenNow();
        EventsAppend([], pieces, Output(item));
      }
      PutItem(item);
    }

    // What the document tells so far.
    ghost function Story(): seq<Event>
      reads this`pieces
    {
      Events([], pieces)
    }

    lemma OpenNow()
      requires Valid() && Plain()
      ensures AllOpen([], pieces) == tagStack
    {
      hide Read, Flat, PlainName;
      ReadOpen(pieces);
      WrittenPlain(tagStack);
    }

    // The blanks in front of what an item tells.
    lemma LeadTold()
      requires Valid() && Plain()
      ensures Events(tagStack, Ending()) == [] && AllOpen(tagStack, Ending()) == tagStack
      ensures Events(tagStack, Break()) == [] && AllOpen(tagStack, Break()) == tagStack
      ensures Essence(EventsOf(tagStack, Text("\n" + currentIndent))) == []
    {
      hide Essence, EventsOf, Read, Flat, Repeat;
      BlankIndent(currentLevel);
      BlankTold(tagStack, "\n" + currentIndent);
      EventsOne(tagStack, StartEnd);
      EndsOf(tagStack, "");
      EventsOne(tagStack, Text("\n" + currentIndent));
    }

    lemma StartTold(name: string)
      requires Valid() && Plain() && PlainName(name)
      ensures Events(tagStack, Output(TagItem(name))) == Essence([Opened(name)])
    {
      hide Essence, EventsOf, Events, Read, Flat, Repeat, Ending, Break, Converted, PlainName, AllOpen;
      LeadTold();
      PlainConverted(name);
      EventsAppend(tagStack, Ending(), Break());
      Regroup<Event>([], [], []);
      EventsMore(tagStack, Ending() + Break(), Start(name));
      EndsOf(tagStack, name);
    }

    lemma ElementTold(name: string, text: string)
      requires Valid() && Plain() && !Passes(text)
      ensures Events(tagStack, Output(TagValueItem(name, text))) == Essence([Opened(name), Said(text), Closed(name)])
    {
      hide Essence, EventsOf, Events, Read, Flat, Repeat, Ending, Break, Converted, AllOpen, Passes;
      LeadTold();
      var t, inner := Text("\n" + currentIndent), tagStack + [name];
      var said := Text(Converted(text, conversion));
      EventsMore(tagStack, Ending(), t);
      EventsMore(tagStack, Ending() + [t], Start(name));
      EventsMore(tagStack, Ending() + [t] + [Start(name)], StartEnd);
      EventsMore(tagStack, Ending() + [t] + [Start(name)] + [StartEnd], said);
      EventsMore(tagStack, Ending() + [t] + [Start(name)] + [StartEnd] + [said], End(name));
      assert Output(TagValueItem(name, text)) == Ending() + [t] + [Start(name)] + [StartEnd] + [said] + [End(name)];
      EndsOf(tagStack, name);
      EndsOf(inner, name);
      TextTold(inner, text);
      EssenceAppend([Opened(name)], [Said(text)]);
      EssenceAppend([Opened(name)] + [Said(text)], [Closed(name)]);
      assert [Opened(name)] + [Said(text)] + [Closed(name)] == [Opened(name), Said(text), Closed(name)];
    }

    lemma ValueTold(text: string)
      requires Valid() && Plain() && !Passes(text)
      ensures Events(tagStack, Output(ValueTagItem(text))) == Essence([Said(text)] + Closes(tagStack, |Pop(tagStack)|))
    {
      hide Essence, EventsOf, Events, Read, Flat, Repeat, Ending, Break, Converted, AllOpen, Passes, PlainName;
      LeadTold();
      var said := Text(Converted(text, conversion));
      EventsMore(tagStack, Ending(), said);
      TextTold(tagStack, text);
      if tagStack == [] {
        assert Output(ValueTagItem(text)) == Ending() + [said];
        assert [Said(text)] + Closes(tagStack, 0) == [Said(text)];
      } else {
        PlainConverted(Last(tagStack));
        EventsMore(tagStack, Ending() + [said], End(Last(tagStack)));
        EndsOf(tagStack, Last(tagStack));
        assert Closes(tagStack, |Pop(tagStack)|) == [Closed(Last(tagStack))];
        EssenceAppend([Said(text)], [Closed(Last(tagStack))]);
      }
    }

    lemma DataTold(text: string)
      requires Valid() && Plain() && !Passes(text)
      ensures Events(tagStack, Output(DataItem(text)))
           == Essence(Meant(tagStack, currentState == Attribute, DataItem(text)))
    {
      hide Essence, EventsOf, Events, Read, Flat, Repeat, Ending, Break, Converted, AllOpen, Passes, ReplaceChar;
      LeadTold();
      if text == "" {
        assert Ending() + [] == Ending();
        assert Essence([]) == [] by { EssenceNone(); }
      } else {
        var lead := "\n" + currentIndent;
        ConvertedText(text);
        ReplaceNone(Converted(text, conversion), '\n', lead);
        BlankIndent(currentLevel);
        BlockTold(tagStack, lead, text);
        EventsMore(tagStack, Ending(), Text(Block(text)));
      }
    }

    lemma HeldTold(lead: string, name: string, text: string)
      requires Valid() && Plain() && PlainName(name) && !Passes(text) && lead != "" && Blanks(lead)
      ensures Events(tagStack, [Attr(Pair(lead, name, text))]) == Essence([Held(name, text)])
    {
      hide Essence, EventsOf, Events, Read, Flat, Repeat, Converted, AllOpen, Passes, PlainName;
      PlainConverted(name);
      PairTold(tagStack, lead, name, text);
      EventsOne(tagStack, Attr(Pair(lead, name, text)));
    }

    // What ends tells just that.
    lemma EndsTold(level: nat)
      requires Valid() && Plain() && level <= |tagStack|
      ensures Events(tagStack, AllEnded(Styled(), tagStack, level, currentState == Attribute))
           == Essence(Closes(tagStack, level))
    {
      hide Events, Read, Flat, Repeat, AllOpen, PlainName, Essence, AllEnded;
      EndedTold(Styled(), tagStack, level, currentState == Attribute);
      EssenceAll(Closes(tagStack, level));
    }

    /** Read back, what an item writes tells what the item says, and nothing else but blank text. */
    lemma OutputTold(item: Item)
      requires Valid() && Plain() && PlainItem(item) && Admissible(tagStack, item) && Unpassed(item)
      ensures Events(tagStack, Output(item)) == Essence(Meant(tagStack, currentState == Attribute, item))
    {
      hide Essence, EventsOf, Events, Read, Flat, Repeat, Ending, Break, Converted, AllOpen, Passes, PlainName, Pair;
      hide Closes, AllEnded, LastOf;
      EssenceNone();
      match item
      case TagItem(name) => StartTold(name);
      case TagValueItem(name, text) => ElementTold(name, text);
      case ValueTagItem(text) => ValueTold(text);
      case AttributeItem(name, text) =>
        BlankIndent(currentLevel);
        PlainBreak(currentLevel);
        if currentState == Attribute { HeldTold((if format == NewLine then "\n" else "") + currentIndent, name, text); }
      case AttributeTagItem(name, text) => if currentState == Attribute { HeldTold(" ", name, text); }
      case DataItem(text) => DataTold(text);
      case CloseTagItem => EndsTold(|Pop(tagStack)|);
      case CloseToItem(name) => EndsTold(if name == "" then |Pop(tagStack)| else CloseLevel(tagStack, Some(name)));
      case CloseAllItem => EndsTold(0);
    }

    /** A whole document: any items, and the destructor. Every tag ends up closed, under its own name
        and in the opposite order. */
    method Document(items: seq<Item>)
      requires Valid() && AllAdmissible(tagStack, items)
      modifies this
      ensures Valid() && tagStack == [] && currentState == Bare && currentLevel == 0
      ensures Read(pieces) == Some(Reader([], false)) && xmlFile == Flat(pieces)
      ensures (old(Plain()) && (forall i :: 0 <= i < |items| ==> PlainItem(items[i]))
        ==> Plain() && Scan(START, xmlFile) == Some(START))
      ensures old(Plain()) && (forall i :: 0 <= i < |items| ==> PlainItem(items[i]) && Unpassed(items[i])) ==>
        Story() == old(Story()) + AllMeant(old(tagStack), old(currentState) == Attribute, items)
                   + Closes(OpenAfterAll(old(tagStack), items), 0)
    {
      hide Read, Flat, Repeat, Converted, Written, PlainItem, Scan;
      hide Unpassed, Events, Essence, Meant, Closes, InTagAfter;
      ghost var told := AllMeant(tagStack, currentState == Attribute, items);
      assert items[0..] == items;
      for i := 0 to |items|
        invariant Valid() && AllAdmissible(tagStack, items[i..])
        invariant old(Plain()) && (forall j :: 0 <= j < i ==> PlainItem(items[j])) ==> Plain()
        invariant OpenAfterAll(tagStack, items[i..]) == OpenAfterAll(old(tagStack), items)
        invariant old(Plain()) && (forall j :: 0 <= j < i ==> PlainItem(items[j]) && Unpassed(items[j])) ==>
          Story() + AllMeant(tagStack, currentState == Attribute, items[i..]) == old(Story()) + told
      {
        assert items[i..][0] == items[i] && items[i..][1..] == items[i + 1..];
        ghost var story, meant := Story(), Essence(Meant(tagStack, currentState == Attribute, items[i]));
        Put(items[i]);
        Regroup(story, meant, AllMeant(tagStack, currentState == Attribute, items[i + 1..]));
      }
      if Plain() {
        PlainEnded(tagStack, 0, currentState == Attribute);
        OpenNow();
        EndedTold(Styled(), tagStack, 0, currentState == Attribute);
        EventsAppend([], pieces, AllEnded(Styled(), tagStack, 0, currentState == Attribute));
      }
      assert items[|items|..] == [] && Story() + [] == Story();
      CloseAll();
      if Plain() { ScanPieces(pieces); }
    }
  }
}
