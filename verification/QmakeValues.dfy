/** Variable values: the string-list operations of qmake/library/proitems.cpp, the stack of
    variable maps, and the lookups and updates the evaluator performs on it. */
module QmakeValues {
  import opened QmakeProgram

  type StrList = seq<Str>

  function Text(s: string): Str {
    seq(|s|, i requires 0 <= i < |s| => s[i] as int % 0x10000)
  }

  const SPACE: Ushort := 0x20

  // QString::number in base 10.
  function Number(n: int): Str {
    if n < 0 then [0x2d] + Digits(-n) else Digits(n)
  }

  function Digits(n: nat): (s: Str)
    ensures |s| > 0
    ensures forall i :: 0 <= i < |s| ==> 0x30 <= s[i] <= 0x39
  {
    if n < 10 then [0x30 + n] else Digits(n / 10) + [0x30 + n % 10]
  }

  /* ---- string lists ---- */

  function RemoveEmpty(l: StrList): StrList {
    if l == [] then [] else (if l[0] == [] then [] else [l[0]]) + RemoveEmpty(l[1..])
  }

  function RemoveAll(l: StrList, s: Str): StrList {
    if l == [] then [] else (if l[0] == s then [] else [l[0]]) + RemoveAll(l[1..], s)
  }

  function RemoveEach(l: StrList, values: StrList): StrList
    decreases |values|
  {
    if values == [] then l
    else RemoveEach(if values[0] == [] then l else RemoveAll(l, values[0]), values[1..])
  }

  function InsertUnique(l: StrList, values: StrList): StrList
    decreases |values|
  {
    if values == [] then l
    else InsertUnique(if values[0] == [] || values[0] in l then l else l + [values[0]], values[1..])
  }

  function JoinWith(l: StrList, leading: bool): Str {
    if l == [] then [] else (if leading then [SPACE] else []) + l[0] + JoinWith(l[1..], true)
  }

  function ReplaceLast(l: StrList, s: Str): StrList
    requires l != []
  {
    l[..|l| - 1] + [s]
  }

  // The expression under construction: its words, and whether the last one is still open.
  datatype Partial = Partial(words: StrList, pending: bool)

  function AddStr(s: Str, p: Partial, joined: bool): (r: Partial)
    requires p.pending || joined ==> p.words != []
    ensures r.pending || joined ==> r.words != []
  {
    if joined then
      var last := p.words[|p.words| - 1];
      if s == [] then p
      else Partial(ReplaceLast(p.words, if last != [] && !p.pending then last + [SPACE] + s else last + s), true)
    else if !p.pending then Partial(p.words + [s], true)
    else Partial(ReplaceLast(p.words, p.words[|p.words| - 1] + s), true)
  }

  function AddStrList(l: StrList, quoted: bool, p: Partial, joined: bool): (r: Partial)
    requires p.pending || joined ==> p.words != []
    ensures r.pending || joined ==> r.words != []
  {
    if l == [] then p
    else if joined then
      var last := p.words[|p.words| - 1];
      var skip := !p.pending && !quoted && l[0] == [];
      if skip && |l| == 1 then p
      else Partial(ReplaceLast(p.words, last + JoinWith(if skip then l[1..] else l, !p.pending && last != [])), true)
    else if quoted then
      var words := if p.pending then p.words else p.words + [[]];
      Partial(ReplaceLast(words, words[|words| - 1] + JoinWith(l, false)), true)
    else if !p.pending then
      if l[0] != [] then Partial(p.words + l, true)
      // If nothing is pending, an empty first element is dropped.
      else Partial(p.words + l[1..], |l| > 1)
    else
      Partial(ReplaceLast(p.words, p.words[|p.words| - 1] + l[0]) + l[1..], true)
  }

  /* ---- the stack of variable maps ---- */

  // Fake is the tombstone that unset() leaves in a function's own frame.
  datatype Entry = Fake | Vals(list: StrList)
  type Frame = map<Key, Entry>
  type Stack = s: seq<Frame> | |s| > 0 witness [map[]]

  // Positional parameters are not inherited. The empty name counts as one.
  predicate IsFunctParam(key: Key) {
    forall i :: 0 <= i < |key| ==> 0x30 <= key[i] <= 0x39
  }

  function FindFrom(stack: seq<Frame>, key: Key, i: nat): (r: int)
    requires i < |stack|
    ensures r == -1 || (0 <= r <= i && key in stack[r] && stack[r][key].Vals?)
  {
    if key in stack[i] then (if stack[i][key].Fake? then -1 else i)
    else if i == 0 then -1
    else FindFrom(stack, key, i - 1)
  }

  // The frame whose entry is visible, or -1.
  function FindFrame(stack: Stack, key: Key): (r: int)
    ensures r == -1 || (0 <= r < |stack| && key in stack[r] && stack[r][key].Vals?)
  {
    if key in stack[|stack| - 1] || !IsFunctParam(key) then FindFrom(stack, key, |stack| - 1) else -1
  }

  function Values(stack: Stack, key: Key): StrList {
    var i := FindFrame(stack, key);
    if i == -1 then [] else stack[i][key].list
  }

  function SetAt(stack: Stack, i: nat, frame: Frame): (r: Stack)
    requires i < |stack|
    ensures |r| == |stack|
  {
    stack[i := frame]
  }

  function SetTop(stack: Stack, key: Key, list: StrList): (r: Stack)
    ensures |r| == |stack|
  {
    SetAt(stack, |stack| - 1, stack[|stack| - 1][key := Vals(list)])
  }

  lemma SetTopTwice(stack: Stack, key: Key, a: StrList, b: StrList)
    ensures SetTop(SetTop(stack, key, a), key, b) == SetTop(stack, key, b)
  {
    var top := stack[|stack| - 1];
    assert top[key := Vals(a)][key := Vals(b)] == top[key := Vals(b)];
  }

  /* ---- export(), clear() and unset() ---- */

  // The highest frame above the bottom that has an entry for the key, or 0.
  function ExportSource(stack: Stack, key: Key, i: nat): (r: nat)
    requires i < |stack|
    ensures r <= i && (r > 0 ==> key in stack[r])
    ensures forall j :: r < j <= i ==> key !in stack[j]
  {
    if i == 0 || key in stack[i] then i else ExportSource(stack, key, i - 1)
  }

  function Export(stack: Stack, key: Key): (r: Stack)
    ensures |r| == |stack|
  {
    var src := ExportSource(stack, key, |stack| - 1);
    if src == 0 then stack
    else
      var value := if stack[src][key].Fake? then Vals([]) else stack[src][key];
      seq(|stack|, i requires 0 <= i < |stack| =>
        if i == 0 then stack[0][key := value] else stack[i] - {key})
  }

  function Clear(stack: Stack, key: Key): (r: Stack)
    ensures |r| == |stack|
  {
    SetTop(stack, key, [])
  }

  function Unset(stack: Stack, key: Key): (r: Stack)
    ensures |r| == |stack|
  {
    var top := stack[|stack| - 1];
    SetAt(stack, |stack| - 1, if |stack| == 1 then top - {key} else top[key := Fake])
  }
}
