/** Joining physical lines into logical ones while a C source is scanned in its buffer (phase 2 in
    section 2.1.1.2 of ANSI X3.159-1989). */
module LineSplicing {
  import opened Basics

  type Text = seq<char>

  predicate Eol(c: char) {
    c == '\r' || c == '\n'
  }

  // A backslash in front of a line end.
  predicate Starts(s: Text) {
    |s| >= 2 && s[0] == '\\' && Eol(s[1])
  }

  // The length of that: CR LF is one line end.
  function JoinLength(s: Text): (n: nat)
    requires Starts(s)
    ensures 2 <= n <= |s|
  {
    if s[1] == '\r' && |s| > 2 && s[2] == '\n' then 3 else 2
  }

  /** The text with every backslash and line end that follows it deleted. */
  function Splice(s: Text): Text {
    if s == [] then [] else if Starts(s) then Splice(s[JoinLength(s)..]) else [s[0]] + Splice(s[1..])
  }

  // The number of line ends deleted.
  function Joined(s: Text): nat {
    if s == [] then 0 else if Starts(s) then 1 + Joined(s[JoinLength(s)..]) else Joined(s[1..])
  }

  function Skipped(s: Text): (r: Text)
    ensures !Starts(r) && |r| <= |s|
  {
    if Starts(s) then Skipped(s[JoinLength(s)..]) else s
  }

  lemma {:induction false} SkippedSplice(s: Text)
    ensures Splice(Skipped(s)) == Splice(s)
    decreases |s|
  {
    if Starts(s) { SkippedSplice(s[JoinLength(s)..]); }
  }

  // What is left of the buffer at a position, which may be behind the end.
  ghost function Rest(buffer: array<char>, len: nat, x: nat): Text
    requires len <= buffer.Length
    reads buffer
  {
    if x <= len then buffer[x..len] else []
  }

  ghost function RestOf(bytes: Text, len: nat, x: nat): Text
    requires len <= |bytes|
  {
    if x <= len then bytes[x..len] else []
  }

  lemma RestAt(buffer: array<char>, len: nat, x: nat)
    requires x < len <= buffer.Length
    ensures Rest(buffer, len, x) != [] && Rest(buffer, len, x)[0] == buffer[x]
    ensures Rest(buffer, len, x)[1..] == Rest(buffer, len, x + 1)
  {
  }

  lemma RestFrom(buffer: array<char>, len: nat, x: nat, n: nat)
    requires x + n <= len <= buffer.Length
    ensures n <= |Rest(buffer, len, x)| && Rest(buffer, len, x)[n..] == Rest(buffer, len, x + n)
  {
  }

  lemma JoinStep(s: Text)
    requires Starts(s)
    ensures Skipped(s) == Skipped(s[JoinLength(s)..]) && Joined(s) == 1 + Joined(s[JoinLength(s)..])
    ensures Splice(s) == Splice(s[JoinLength(s)..])
  {
  }

  lemma EmptySplice()
    ensures Splice([]) == []
  {
  }

  lemma CharStep(s: Text)
    requires s != [] && !Starts(s)
    ensures Splice(s) == [s[0]] + Splice(Skipped(s[1..])) && Joined(s) == Joined(s[1..])
  {
    SkippedSplice(s[1..]);
  }

  lemma Still(s: Text)
    requires !Starts(s)
    ensures Skipped(s) == s
  {
  }

  // The line end that is being skipped.
  lemma JoinAt(buffer: array<char>, len: nat, x: nat)
    requires x + 1 < len <= buffer.Length && buffer[x] == '\\' && Eol(buffer[x + 1])
    ensures Starts(Rest(buffer, len, x))
    ensures JoinLength(Rest(buffer, len, x)) 
         == if x + 2 < len && buffer[x + 1] == '\r' && buffer[x + 2] == '\n' then 3 else 2
  {
  }

  /** Leaves the position behind all deleted line ends, and counts them. */
  method SkipEscapedLineEnds(buffer: array<char>, len: nat, start: nat, lines: nat) returns (offset: nat, count: nat)
    requires len <= buffer.Length
    ensures start <= offset && (if start >= len then offset == start else offset <= len)
    ensures Rest(buffer, len, offset) == Skipped(Rest(buffer, len, start))
    ensures count + Joined(Rest(buffer, len, offset)) == lines + Joined(Rest(buffer, len, start))
  {
    hide Skipped, Joined, JoinLength, Splice;
    offset, count := start, lines;
    while offset + 1 < len && buffer[offset] == '\\' && Eol(buffer[offset + 1])
      invariant start <= offset && (if start >= len then offset == start else offset <= len)
      invariant Skipped(Rest(buffer, len, offset)) == Skipped(Rest(buffer, len, start))
      invariant count + Joined(Rest(buffer, len, offset)) == lines + Joined(Rest(buffer, len, start))
      decreases len - offset
    {
      ghost var s := Rest(buffer, len, offset);
      JoinAt(buffer, len, offset);
      JoinStep(s);
      RestFrom(buffer, len, offset, JoinLength(s));
      offset := offset + 2;
      count := count + 1;
      if offset < len && buffer[offset - 1] == '\r' && buffer[offset] == '\n' {
        offset := offset + 1;
      }
    }
    Still(Rest(buffer, len, offset));
  }

  /* ---- matching ---- */

  // Character by character, skipping deleted line ends behind each.
  function Matches(s: Text, needle: Text): bool
    decreases |needle|
  {
    needle == [] || (s != [] && s[0] == needle[0] && Matches(Skipped(s[1..]), needle[1..]))
  }

  // What is left behind a match.
  function Behind(s: Text, needle: Text): Text
    decreases |needle|
  {
    if needle == [] || s == [] then s else Behind(Skipped(s[1..]), needle[1..])
  }

  method MatchWhileUnsplitting(buffer: array<char>, len: nat, start: nat, needle: Text, lines: nat)
    returns (found: bool, matchlen: nat, count: nat)
    requires len <= buffer.Length
    ensures found == Matches(Rest(buffer, len, start), needle)
    ensures found ==> Rest(buffer, len, start + matchlen) == Behind(Rest(buffer, len, start), needle)
    ensures (found && !Starts(Rest(buffer, len, start))
      ==> count + Joined(Rest(buffer, len, start + matchlen)) == lines + Joined(Rest(buffer, len, start)))
  {
    hide Skipped, Joined, Splice, Starts;
    var x := start;
    count, matchlen := lines, 0;
    ghost var s := Rest(buffer, len, start);
    var n := 0;
    assert needle[0..] == needle;
    while n < |needle|
      invariant 0 <= n <= |needle| && start <= x
      invariant Matches(Rest(buffer, len, x), needle[n..]) == Matches(s, needle)
      invariant Behind(Rest(buffer, len, x), needle[n..]) == Behind(s, needle)
      invariant !Starts(s) ==>
        !Starts(Rest(buffer, len, x)) && count + Joined(Rest(buffer, len, x)) == lines + Joined(s)
    {
      if x >= len || buffer[x] != needle[n] { return false, matchlen, count; }
      RestAt(buffer, len, x);
      if !Starts(Rest(buffer, len, x)) { CharStep(Rest(buffer, len, x)); }
      assert needle[n..][1..] == needle[n + 1..];
      n := n + 1;
      SkippedNoStart(Rest(buffer, len, x + 1));
      x, count := SkipEscapedLineEnds(buffer, len, x + 1, count);
    }
    assert needle[n..] == [];
    return true, x - start, count;
  }

  /** From a position behind deleted line ends, the match succeeds iff the logical text begins with
      the needle, and leaves the logical text behind it. */
  lemma {:induction false} MatchesIff(s: Text, needle: Text)
    requires !Starts(s)
    ensures Matches(s, needle) <==> needle <= Splice(s)
    ensures Matches(s, needle) ==> |needle| <= |Splice(s)| && Splice(Behind(s, needle)) == Splice(s)[|needle|..]
    decreases |needle|
  {
    hide Splice, Skipped, Starts;
    if s == [] {
      EmptySplice();
    } else if needle != [] {
      var t := Splice(s);
      CharStep(s);
      MatchesIff(Skipped(s[1..]), needle[1..]);
      assert t[1..] == Splice(Skipped(s[1..]));
      if needle <= t { assert needle[0] == t[0] && needle[1..] <= t[1..]; }
      if s[0] == needle[0] && needle[1..] <= t[1..] {
        assert needle == [needle[0]] + needle[1..] && t == [t[0]] + t[1..];
      }
    }
  }

  /** From any other position the backslash itself is compared, so the match fails for every needle
      that does not begin with one, whatever the logical text is. */
  lemma MatchesUnskipped(s: Text, needle: Text)
    requires Starts(s)
    ensures Matches(s, needle) <==> needle == [] || (needle[0] == '\\' && needle[1..] <= Splice(s[1..]))
  {
    if needle != [] {
      assert !Starts(s[1..]) && Skipped(s[1..]) == s[1..];
      MatchesIff(s[1..], needle[1..]);
    }
  }

  /* ---- reading a directive, in place ---- */

  predicate Lower(c: char) {
    'a' <= c <= 'z'
  }

  // The letters that the text begins with.
  function Word(s: Text): (r: Text)
    ensures r <= s
  {
    if s == [] || !Lower(s[0]) then [] else [s[0]] + Word(s[1..])
  }

  // The text in front of the first of two kinds of characters: the delimiter, or a line end.
  function UpTo(s: Text, term: char): (r: Text)
    ensures r <= s
  {
    if s == [] || s[0] == term || Eol(s[0]) then [] else [s[0]] + UpTo(s[1..], term)
  }


  // One character is read at a position behind deleted line ends.
  lemma ReadStep(buffer: array<char>, len: nat, x: nat) returns (next: Text)
    requires x < len <= buffer.Length && !Starts(Rest(buffer, len, x))
    ensures next == Rest(buffer, len, x + 1) && Joined(next) == Joined(Rest(buffer, len, x))
    ensures Splice(Rest(buffer, len, x)) == [buffer[x]] + Splice(Skipped(next))
  {
    next := Rest(buffer, len, x + 1);
    RestAt(buffer, len, x);
    CharStep(Rest(buffer, len, x));
  }

  lemma WordStep(c: char, t: Text)
    ensures Word([c] + t) == if Lower(c) then [c] + Word(t) else []
  {
    assert ([c] + t)[1..] == t;
  }

  lemma NothingLeft(buffer: array<char>, len: nat)
    requires len <= buffer.Length
    ensures Splice(Rest(buffer, len, len)) == [] && Word([]) == []
  {
  }

  // The text in front of the clean position grows by the character at the read position.
  method Keep(buffer: array<char>, len: nat, start: nat, clean: nat, x: nat) returns (r: nat)
    requires start <= clean <= x < len <= buffer.Length
    modifies buffer
    ensures r == clean + 1 && buffer[start..r] == old(buffer[start..clean]) + [old(buffer[x])]
    ensures forall k :: 0 <= k < start || x <= k < buffer.Length ==> buffer[k] == old(buffer[k])
    ensures Rest(buffer, len, x + 1) == old(Rest(buffer, len, x + 1))
  {
    r := clean;
    if r < x {
      buffer[r] := buffer[x];
      r := r + 1;
    } else {
      r := r + 1;
    }
  }

  /** Reads the keyword of a directive: the letters that the logical text begins with end up in front
      of the clean position, and nothing from the read position on is overwritten. */
  method ReadKeyword(buffer: array<char>, len: nat, start: nat, lines: nat)
    returns (clean: nat, x: nat, count: nat, isInclude: bool)
    requires start <= len <= buffer.Length && !Starts(Rest(buffer, len, start))
    modifies buffer
    ensures var logical := Splice(old(Rest(buffer, len, start)));
      && start <= clean <= x <= len && buffer[start..clean] == Word(logical)
      && Splice(Rest(buffer, len, x)) == logical[|Word(logical)|..]
      && isInclude == NamesInclude(Word(logical))
    ensures !Starts(Rest(buffer, len, x))
    ensures forall k :: 0 <= k < start || x <= k < buffer.Length ==> buffer[k] == old(buffer[k])
    ensures count + Joined(Rest(buffer, len, x)) == lines + old(Joined(Rest(buffer, len, start)))
  {
    hide Splice, Skipped, Starts, Joined, Word, Rest, NamesInclude;
    ghost var logical := Splice(Rest(buffer, len, start));
    clean, x, count := ReadLetters(buffer, len, start, lines);
    isInclude := NamesInclude(buffer[start..clean]);
    DropFront(buffer[start..clean], Splice(Rest(buffer, len, x)));
  }

  predicate NamesInclude(word: Text) {
    word == "include" || word == "import"
  }

  lemma DropFront(a: Text, b: Text)
    ensures (a + b)[|a|..] == b
  {
  }

  method ReadLetters(buffer: array<char>, len: nat, start: nat, lines: nat) returns (clean: nat, x: nat, count: nat)
    requires start <= len <= buffer.Length && !Starts(Rest(buffer, len, start))
    modifies buffer
    ensures start <= clean <= x <= len
    ensures var logical := Splice(old(Rest(buffer, len, start)));
      && buffer[start..clean] == Word(logical) && logical == buffer[start..clean] + Splice(Rest(buffer, len, x))
    ensures !Starts(Rest(buffer, len, x))
    ensures forall k :: 0 <= k < start || x <= k < buffer.Length ==> buffer[k] == old(buffer[k])
    ensures count + Joined(Rest(buffer, len, x)) == lines + old(Joined(Rest(buffer, len, start)))
  {
    hide Splice, Skipped, Starts, Joined, Word, Rest;
    ghost var logical := Splice(Rest(buffer, len, start));
    ghost var word: Text, rest := [], logical;
    ghost var all := lines + Joined(Rest(buffer, len, start));
    clean, x, count := start, start, lines;
    Regroup(word, [], logical);
    NoFront(logical);
    NoFront(Word(logical));
    while x < len && Lower(buffer[x])
      invariant start <= clean <= x <= len && buffer[start..clean] == word
      invariant forall k :: 0 <= k < start || x <= k < buffer.Length ==> buffer[k] == old(buffer[k])
      invariant !Starts(Rest(buffer, len, x)) && rest == Splice(Rest(buffer, len, x))
      invariant logical == word + rest && Word(logical) == word + Word(rest)
      invariant count + Joined(Rest(buffer, len, x)) == all
    {
      ghost var c := buffer[x];
      ghost var next := ReadStep(buffer, len, x);
      clean := Keep(buffer, len, start, clean, x);
      x, count := SkipEscapedLineEnds(buffer, len, x + 1, count);
      WordStep(c, Splice(Skipped(next)));
      Regroup(word, [c], Splice(Skipped(next)));
      Regroup(word, [c], Word(Splice(Skipped(next))));
      word, rest := word + [c], Splice(Skipped(next));
    }
    if x < len {
      ghost var next := ReadStep(buffer, len, x);
      WordStep(buffer[x], Splice(Skipped(next)));
    } else {
      NothingLeft(buffer, len);
    }
    NoFront(word);
  }

  lemma NoFront(a: Text)
    ensures [] + a == a && a + [] == a
  {
  }

  lemma UpToStep(c: char, t: Text, term: char)
    ensures UpTo([c] + t, term) == if c == term || Eol(c) then [] else [c] + UpTo(t, term)
  {
    assert ([c] + t)[1..] == t;
  }

  predicate Opens(c: char) {
    c == '<' || c == '\"'
  }

  function Closing(c: char): char {
    if c == '<' then '>' else c
  }

  /** Reads the name behind an opening delimiter that the logical line closes or leaves open: the
      logical text up to the delimiter ends up in front of the clean position, which gets a NUL, and
      nothing behind the closing delimiter is overwritten. */
  method ReadName(buffer: array<char>, len: nat, start: nat, lines: nat)
    returns (found: bool, tryLocal: bool, inc: nat, clean: nat, x: nat, count: nat)
    requires start < len <= buffer.Length && Opens(buffer[start])
    requires var logical := Splice(Rest(buffer, len, start + 1)); |UpTo(logical, Closing(buffer[start]))| < |logical|
    modifies buffer
    ensures tryLocal == (old(buffer[start]) == '\"')
    ensures var logical := old(Splice(Rest(buffer, len, start + 1)));
      var name := UpTo(logical, Closing(old(buffer[start])));
      && start < inc <= clean <= x < len && buffer[inc..clean] == name
      && Splice(RestOf(old(buffer[..]), len, x)) == logical[|name|..]
      && found == !Eol(logical[|name|])
    ensures found ==> buffer[clean] == '\0' && old(buffer[x]) == Closing(old(buffer[start]))
    ensures forall k :: 0 <= k < inc || x < k < buffer.Length ==> buffer[k] == old(buffer[k])
    ensures !found || clean < x ==> buffer[x] == old(buffer[x])
    ensures (count + Joined(RestOf(old(buffer[..]), len, x))
      == lines + old(Joined(Rest(buffer, len, start + 1))) + (if found then 0 else 1))
  {
    hide Splice, Skipped, Starts, Joined, UpTo, Rest, RestOf;
    var term := buffer[start];
    tryLocal := true;
    if term == '<' {
      tryLocal := false;
      term := '>';
    }
    SkippedSplice(Rest(buffer, len, start + 1));
    SkippedNoStart(Rest(buffer, len, start + 1));
    x, count := SkipEscapedLineEnds(buffer, len, start + 1, lines);
    inc := x;
    found, clean, x, count := ReadUpTo(buffer, len, inc, term, count);
    if found { buffer[clean] := '\0'; }
  }

  // The text in front of the closing delimiter, or of a line end that comes first.
  method ReadUpTo(buffer: array<char>, len: nat, inc: nat, term: char, lines: nat)
    returns (found: bool, clean: nat, x: nat, count: nat)
    requires inc <= len <= buffer.Length && !Starts(Rest(buffer, len, inc)) && !Eol(term)
    requires |UpTo(Splice(Rest(buffer, len, inc)), term)| < |Splice(Rest(buffer, len, inc))|
    modifies buffer
    ensures var logical := old(Splice(Rest(buffer, len, inc)));
      var name := UpTo(logical, term);
      && inc <= clean <= x < len && buffer[inc..clean] == name
      && Splice(RestOf(old(buffer[..]), len, x)) == logical[|name|..]
      && found == !Eol(logical[|name|]) && (found ==> buffer[x] == term)
    ensures forall k :: 0 <= k < inc || x <= k < buffer.Length ==> buffer[k] == old(buffer[k])
    ensures (count + Joined(RestOf(old(buffer[..]), len, x))
      == lines + old(Joined(Rest(buffer, len, inc))) + (if found then 0 else 1))
  {
    hide Splice, Skipped, Starts, Joined, UpTo, Rest, RestOf;
    ghost var was := buffer[..];
    ghost var logical := Splice(Rest(buffer, len, inc));
    ghost var name, all := UpTo(logical, term), lines + Joined(Rest(buffer, len, inc));
    clean, x, count, found := inc, inc, lines, true;
    SameRest(buffer, was, len, x);
    assert buffer[inc..clean] == [];
    while x < len && buffer[x] != term
      invariant inc <= clean <= x <= len && found
      invariant forall k :: 0 <= k < inc || x <= k < buffer.Length ==> buffer[k] == was[k]
      invariant Rest(buffer, len, x) == RestOf(was, len, x)
      invariant !Starts(Rest(buffer, len, x))
      invariant logical == buffer[inc..clean] + Splice(Rest(buffer, len, x))
      invariant name == buffer[inc..clean] + UpTo(Splice(Rest(buffer, len, x)), term)
      invariant count + Joined(Rest(buffer, len, x)) == all
      decreases len - x
    {
      ghost var done, c := buffer[inc..clean], buffer[x];
      ghost var next := ReadStep(buffer, len, x);
      UpToStep(c, Splice(Skipped(next)), term);
      if Eol(buffer[x]) {
        found := false;
        count := count + 1;
        break;
      }
      clean := Keep(buffer, len, inc, clean, x);
      Regroup(done, [c], Splice(Skipped(next)));
      Regroup(done, [c], UpTo(Splice(Skipped(next)), term));
      SkippedNoStart(next);
      x, count := SkipEscapedLineEnds(buffer, len, x + 1, count);
      SameRest(buffer, was, len, x);
    }
    if x < len {
      ghost var next := ReadStep(buffer, len, x);
      UpToStep(buffer[x], Splice(Skipped(next)), term);
    } else {
      NothingLeft(buffer, len);
    }
  }

  lemma SkippedNoStart(s: Text)
    ensures !Starts(Skipped(s))
  {
  }

  lemma SameRest(buffer: array<char>, was: Text, len: nat, x: nat)
    requires x <= len <= buffer.Length == |was|
    requires forall k :: x <= k < buffer.Length ==> buffer[k] == was[k]
    ensures Rest(buffer, len, x) == RestOf(was, len, x)
  {
  }

  /* ---- space and comments ---- */

  // What follows the line end.
  function AfterLine(t: Text): (r: Text)
    ensures |r| < |t| || t == []
  {
    if t == [] then [] else if Eol(t[0]) then t[1..] else AfterLine(t[1..])
  }

  // What follows the end of the comment.
  function AfterComment(t: Text): (r: Text)
    ensures |r| < |t| || t == []
  {
    if t == [] then [] else if t[0] == '*' && |t| > 1 && t[1] == '/' then t[2..] else AfterComment(t[1..])
  }

  // The logical text behind space and comments, and whether that is at the start of a line; a
  // comment to the end of the line ends the line, the other kind does not.
  function Code(t: Text, atStart: bool): (Text, bool)
    decreases |t|
  {
    if t == [] then (t, atStart)
    else if t[0] == ' ' || t[0] == '\t' then Code(t[1..], atStart)
    else if Eol(t[0]) then Code(t[1..], true)
    else if t[0] != '/' then (t, atStart)
    else if |t| == 1 then ([], atStart)
    else if t[1] == '/' then Code(AfterLine(t[2..]), true)
    else if t[1] == '*' then Code(AfterComment(t[2..]), atStart)
    else (t, atStart)
  }

  // The logical text from a position on.
  ghost function Logical(buffer: array<char>, len: nat, x: nat): Text
    requires len <= buffer.Length
    reads buffer
  {
    Splice(Rest(buffer, len, x))
  }

  // Skipping deleted line ends leaves the logical text as it is.
  method Skip(buffer: array<char>, len: nat, start: nat) returns (x: nat)
    requires len <= buffer.Length
    ensures start <= x && (if start >= len then x == start else x <= len)
    ensures Logical(buffer, len, x) == Logical(buffer, len, start) && !Starts(Rest(buffer, len, x))
    ensures (if x < len then Logical(buffer, len, x) == [buffer[x]] + Logical(buffer, len, x + 1)
             else Logical(buffer, len, x) == [])
  {
    hide Splice, Skipped, Starts, Rest;
    var count;
    x, count := SkipEscapedLineEnds(buffer, len, start, 0);
    SkippedSplice(Rest(buffer, len, start));
    SkippedNoStart(Rest(buffer, len, start));
    if x < len {
      ghost var next := ReadStep(buffer, len, x);
      SkippedSplice(next);
    } else {
      NoRest(buffer, len, x);
    }
  }

  lemma NoRest(buffer: array<char>, len: nat, x: nat)
    requires len <= buffer.Length && len <= x
    ensures Splice(Rest(buffer, len, x)) == []
  {
  }

  method SkipLine(buffer: array<char>, len: nat, start: nat) returns (x: nat)
    requires len <= buffer.Length && start <= len
    ensures start <= x <= len
    ensures Logical(buffer, len, x + 1) == AfterLine(Logical(buffer, len, start))
  {
    hide Logical, Starts, Rest;
    x := Skip(buffer, len, start);
    while x < len && !Eol(buffer[x])
      invariant start <= x <= len
      invariant AfterLine(Logical(buffer, len, x)) == AfterLine(Logical(buffer, len, start))
      invariant (if x < len then Logical(buffer, len, x) == [buffer[x]] + Logical(buffer, len, x + 1)
                 else Logical(buffer, len, x) == [])
    {
      x := Skip(buffer, len, x + 1);
    }
    if x == len { Nothing(buffer, len, x + 1); }
  }

  lemma Nothing(buffer: array<char>, len: nat, x: nat)
    requires len <= buffer.Length && len <= x
    ensures Logical(buffer, len, x) == []
  {
  }

  // From the star that opens the comment to the slash that closes it, or behind the end.
  method SkipComment(buffer: array<char>, len: nat, start: nat) returns (x: nat)
    requires start < len <= buffer.Length
    ensures start < x <= len
    ensures Logical(buffer, len, x + 1) == AfterComment(Logical(buffer, len, start + 1))
  {
    hide Logical, Starts, Rest;
    ghost var all := AfterComment(Logical(buffer, len, start + 1));
    x := Skip(buffer, len, start + 1);
    while x < len
      invariant start < x <= len
      invariant AfterComment(Logical(buffer, len, x)) == all
      invariant (if x < len then Logical(buffer, len, x) == [buffer[x]] + Logical(buffer, len, x + 1)
                 else Logical(buffer, len, x) == [])
    {
      if buffer[x] == '*' {
        var y := Skip(buffer, len, x + 1);
        if y < len && buffer[y] == '/' {
          x := y;
          return;
        }
      }
      x := Skip(buffer, len, x + 1);
    }
    Nothing(buffer, len, x + 1);
  }

  lemma CodeStep(t: Text, atStart: bool)
    ensures Code(t, atStart)
         == if t == [] then (t, atStart)
            else if t[0] == ' ' || t[0] == '\t' then Code(t[1..], atStart)
            else if Eol(t[0]) then Code(t[1..], true)
            else if t[0] != '/' then (t, atStart)
            else if |t| == 1 then ([], atStart)
            else if t[1] == '/' then Code(AfterLine(t[2..]), true)
            else if t[1] == '*' then Code(AfterComment(t[2..]), atStart)
            else (t, atStart)
  {
  }

  /** Leaves the position where the logical text goes on behind space and comments. */
  method SeekCode(buffer: array<char>, len: nat, start: nat, wasAtStart: bool) returns (x: nat, atStart: bool)
    requires len <= buffer.Length
    ensures start <= x
    ensures (Logical(buffer, len, x), atStart) == Code(Logical(buffer, len, start), wasAtStart)
    ensures !Starts(Rest(buffer, len, x))
    ensures (if x < len then Logical(buffer, len, x) == [buffer[x]] + Logical(buffer, len, x + 1)
             else Logical(buffer, len, x) == [])
  {
    hide Starts, Rest, Logical, Code, AfterLine, AfterComment;
    ghost var all := Code(Logical(buffer, len, start), wasAtStart);
    x := Skip(buffer, len, start);
    atStart := wasAtStart;
    while x < len
      invariant start <= x <= len + 1 || (start > len && x == start)
      invariant Code(Logical(buffer, len, x), atStart) == all && !Starts(Rest(buffer, len, x))
      invariant (if x < len then Logical(buffer, len, x) == [buffer[x]] + Logical(buffer, len, x + 1)
                 else Logical(buffer, len, x) == [])
      decreases len + 1 - x
    {
      ghost var t := Logical(buffer, len, x);
      assert t[1..] == Logical(buffer, len, x + 1);
      CodeStep(t, atStart);
      if buffer[x] == ' ' || buffer[x] == '\t' {
      } else if buffer[x] == '/' {
        var y := Skip(buffer, len, x + 1);
        if y >= len {
          x := y;
          CodeStep([], atStart);
          break;
        }
        assert t[2..] == Logical(buffer, len, y + 1) && t[1] == buffer[y];
        if buffer[y] == '/' {
          x := SkipLine(buffer, len, y + 1);
          atStart := true;
        } else if buffer[y] == '*' {
          x := SkipComment(buffer, len, y);
        } else {
          break;
        }
      } else if Eol(buffer[x]) {
        atStart := true;
      } else {
        break;
      }
      x := Skip(buffer, len, x + 1);
    }
    CodeStep(Logical(buffer, len, x), atStart);
  }

  /* ---- one include directive ---- */

  datatype Directive = NoInclude | Include(name: Text, tryLocal: bool)

  // The name in front of its closing delimiter; none if the line ends first.
  function NameOf(r: Text): Directive {
    if r == [] || !Opens(r[0]) then NoInclude
    else
      var name := UpTo(r[1..], Closing(r[0]));
      if |name| < |r| - 1 && !Eol(r[1 + |name|]) then Include(name, r[0] == '\"') else NoInclude
  }

  /** The include that a logical line names behind its hash sign: space and comments may stand around
      the keyword, but no line end. */
  function IncludeOf(t: Text): Directive {
    var (first, ended) := Code(t, false);
    var keyword := Word(first);
    if ended || !NamesInclude(keyword) then NoInclude
    else
      var (second, ended2) := Code(first[|keyword|..], false);
      if ended2 then NoInclude else NameOf(second)
  }

  // The text does not end inside a name.
  predicate Complete(t: Text) {
    var first := Code(t, false).0;
    var second := Code(first[|Word(first)|..], false).0;
    second != [] && Opens(second[0]) ==> |UpTo(second[1..], Closing(second[0]))| < |second| - 1
  }

  /** The successive turns of the scan on one directive: what it reads in place, over deleted line
      ends and comments, is the include that the logical line names. */
  method ReadInclude(buffer: array<char>, len: nat, start: nat) returns (inc: nat, clean: nat, named: Directive)
    requires len <= buffer.Length && Complete(Logical(buffer, len, start))
    modifies buffer
    ensures named == IncludeOf(old(Logical(buffer, len, start)))
    ensures named.Include? ==> inc <= clean < len && buffer[inc..clean] == named.name && buffer[clean] == '\0'
    ensures forall k :: 0 <= k < start && k < buffer.Length ==> buffer[k] == old(buffer[k])
  {
    hide Starts, Rest, Code, Word, UpTo, Splice;
    ghost var t := Logical(buffer, len, start);
    inc, clean, named := start, start, NoInclude;
    var x, atStart := SeekCode(buffer, len, start, false);
    ghost var first := Logical(buffer, len, x);
    if x >= len || atStart {
      WordOfNothing();
      return;
    }
    var isInclude, count;
    clean, x, count, isInclude := ReadKeyword(buffer, len, x, 0);
    ghost var second := first[|Word(first)|..];
    assert Logical(buffer, len, x) == second;
    if !isInclude { return; }
    x, atStart := SeekCode(buffer, len, x, false);
    if x >= len || atStart || !Opens(buffer[x]) { return; }
    ghost var r := Logical(buffer, len, x);
    assert r[1..] == Logical(buffer, len, x + 1);
    var found, tryLocal;
    found, tryLocal, inc, clean, x, count := ReadName(buffer, len, x, 0);
    if found { named := Include(buffer[inc..clean], tryLocal); }
  }

  lemma WordOfNothing()
    ensures Word([]) == []
  {
  }
}
