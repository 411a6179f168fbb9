/** What assignments do to variables, as lookups see it. */
module QmakeUpdates {
  import opened Basics
  import opened QmakeProgram
  import opened QmakeValues
  import opened QmakeSemantics
  import opened QmakeScoping

  predicate NotEmpty(s: Str) {
    s != []
  }

  // -= keeps empty elements, whatever is removed.
  predicate Stays(words: StrList, s: Str) {
    s == [] || s !in words
  }

  // What *= adds to the old list: the words that are not empty and not there yet, once each, in the
  // order in which they are first found among the words.
  ghost predicate Added(before: StrList, words: StrList, added: StrList) {
    && Distinct(added)
    && (forall s :: s in added <==> s in words && s != [] && s !in before)
    && forall i, j :: 0 <= i < j < |added| ==> FoundBefore(words, added[i], added[j])
  }

  // Some beginning of the list holds the one and not the other.
  ghost predicate FoundBefore(words: StrList, a: Str, b: Str) {
    exists m :: 0 <= m <= |words| && a in words[..m] && b !in words[..m]
  }

  /** The value of a variable behind an assignment, given its value before and the words. */
  ghost predicate Assigned(env: Env, op: AssignOp, before: StrList, words: StrList, after: StrList) {
    match op
    case OpAssign => after == Filter(words, NotEmpty)
    case OpAppend => before <= after && after[|before|..] == Filter(words, NotEmpty)
    case OpAppendUnique => before <= after && Added(before, words, after[|before|..])
    case OpRemove => after == Filter(before, s => Stays(words, s))
    case OpReplace =>
      words != [] && after == if Substitutes(words[0]) then env.substitute(words[0], before) else before
  }

  /* ---- the operations on lists ---- */

  lemma {:induction false} RemoveEmptyFilters(l: StrList)
    ensures RemoveEmpty(l) == Filter(l, NotEmpty)
    decreases |l|
  {
    if l != [] { RemoveEmptyFilters(l[1..]); }
  }

  lemma {:induction false} RemoveAllFilters(l: StrList, s: Str)
    ensures RemoveAll(l, s) == Filter(l, x => x != s)
    decreases |l|
  {
    if l != [] { RemoveAllFilters(l[1..], s); }
  }

  lemma {:induction false} RemoveEachFilters(l: StrList, words: StrList)
    ensures RemoveEach(l, words) == Filter(l, s => Stays(words, s))
    decreases |words|
  {
    if words == [] {
      FilterAll(l, s => Stays(words, s));
    } else {
      var w, rest := words[0], words[1..];
      if w == [] {
        RemoveEachFilters(l, rest);
        FilterSame(l, s => Stays(rest, s), s => Stays(words, s));
      } else {
        RemoveAllFilters(l, w);
        RemoveEachFilters(RemoveAll(l, w), rest);
        FilterTwice(l, x => x != w, s => Stays(rest, s), s => Stays(words, s));
      }
    }
  }

  lemma {:induction false} InsertUniqueAdds(l: StrList, words: StrList)
    ensures l <= InsertUnique(l, words) && Added(l, words, InsertUnique(l, words)[|l|..])
    decreases |words|
  {
    if words != [] {
      var w := words[0];
      var next := if w == [] || w in l then l else l + [w];
      InsertUniqueAdds(next, words[1..]);
      var added := InsertUnique(next, words[1..])[|next|..];
      hide Added, InsertUnique;
      if w == [] || w in l {
        WordPassed(l, words, added);
      } else {
        WordAdded(l, words, added);
        assert InsertUnique(next, words[1..])[|l|..] == [w] + added;
      }
    }
  }

  lemma FoundBehind(words: StrList, a: Str, b: Str)
    requires words != [] && FoundBefore(words[1..], a, b) && b != words[0]
    ensures FoundBefore(words, a, b)
  {
    var m :| 0 <= m <= |words[1..]| && a in words[1..][..m] && b !in words[1..][..m];
    assert words[..m + 1] == [words[0]] + words[1..][..m];
  }

  lemma WordPassed(l: StrList, words: StrList, added: StrList)
    requires words != [] && (words[0] == [] || words[0] in l) && Added(l, words[1..], added)
    ensures Added(l, words, added)
  {
    hide FoundBefore;
    forall i, j | 0 <= i < j < |added| ensures FoundBefore(words, added[i], added[j]) {
      assert added[j] in added;
      FoundBehind(words, added[i], added[j]);
    }
    forall s ensures s in added <==> s in words && s != [] && s !in l {
      assert s in words <==> s == words[0] || s in words[1..];
    }
  }

  lemma WordAdded(l: StrList, words: StrList, added: StrList)
    requires words != [] && words[0] != [] && words[0] !in l && Added(l + [words[0]], words[1..], added)
    ensures Added(l, words, [words[0]] + added)
  {
    var w, all := words[0], [words[0]] + added;
    forall i | 0 <= i < |added| ensures added[i] != w { assert added[i] in added; }
    forall i, j | 0 <= i < j < |all| ensures FoundBefore(words, all[i], all[j]) {
      if i == 0 {
        assert words[..1] == [w];
      } else {
        FoundBehind(words, added[i - 1], added[j - 1]);
      }
    }
    forall s ensures s in all <==> s in words && s != [] && s !in l {
      assert s in words <==> s == w || s in words[1..];
      assert s in all <==> s == w || s in added;
    }
  }

  /* ---- the fields of a substitution ---- */

  /** An s/// command has at least four characters, the first of which is an s, and the second cuts it
      into three or four fields. */
  ghost predicate Substitutes(command: Str) {
    |command| >= 4 && command[0] == 's' as int
    && exists fields :: 3 <= |fields| <= 4 && Fields(command, command[1], fields)
  }

  lemma {:induction false} CountAppend(a: Str, b: Str, c: Ushort)
    ensures Count(a + b, c) == Count(a, c) + Count(b, c)
    decreases |a|
  {
    if a == [] {
      assert a + b == b;
    } else {
      assert (a + b)[1..] == a[1..] + b;
      CountAppend(a[1..], b, c);
    }
  }

  lemma {:induction false} CountNone(s: Str, c: Ushort)
    requires c !in s
    ensures Count(s, c) == 0
    decreases |s|
  {
    if s != [] { CountNone(s[1..], c); }
  }

  lemma {:induction false} FieldsCount(s: Str, sep: Ushort, fields: seq<Str>)
    requires Fields(s, sep, fields) && fields != []
    ensures Count(s, sep) == |fields| - 1
    decreases |fields|
  {
    CountNone(fields[0], sep);
    if |fields| > 1 {
      var rest := JoinedBy(fields[1..], sep);
      FieldsCount(rest, sep, fields[1..]);
      CountAppend(fields[0] + [sep], rest, sep);
      CountAppend(fields[0], [sep], sep);
      assert Count([sep][1..], sep) == 0;
    }
  }

  lemma {:induction false} Cut(s: Str, sep: Ushort) returns (fields: seq<Str>)
    ensures fields != [] && Fields(s, sep, fields)
    decreases |s|
  {
    if s == [] {
      fields := [[]];
    } else {
      var rest := Cut(s[1..], sep);
      if s[0] == sep {
        fields := [[]] + rest;
        assert fields[1..] == rest;
      } else {
        fields := [[s[0]] + rest[0]] + rest[1..];
        assert fields[1..] == rest[1..];
        assert s == [s[0]] + s[1..];
        if |rest| > 1 { assert s == [s[0]] + (rest[0] + [sep] + JoinedBy(rest[1..], sep)); }
      }
    }
  }

  lemma SubstitutionFields(command: Str)
    ensures IsSubstitution(command) <==> Substitutes(command)
  {
    if |command| >= 4 {
      var fields := Cut(command, command[1]);
      FieldsCount(command, command[1], fields);
      if Substitutes(command) {
        var others :| 3 <= |others| <= 4 && Fields(command, command[1], others);
        FieldsCount(command, command[1], others);
      }
    }
  }

  /* ---- assignments ---- */

  /** Every operator stores what its name says, for all words, and no other variable changes. */
  lemma StoreAssigns(env: Env, op: AssignOp, key: Key, words: StrList, stack: Stack)
    requires op == OpReplace ==> words != []
    ensures var r := Store(env, op, key, words, stack);
      && Assigned(env, op, Values(stack, key), words, Values(r, key))
      && forall k :: k != key ==> Values(r, k) == Values(stack, k)
  {
    hide Values, SetTop, IsSubstitution, Substitutes, Added;
    var before := Values(stack, key);
    RemoveEmptyFilters(words);
    match op
    case OpAssign => SetTopLookup(stack, key, RemoveEmpty(words));
    case OpAppend =>
      SetTopLookup(stack, key, before + RemoveEmpty(words));
      assert (before + RemoveEmpty(words))[|before|..] == RemoveEmpty(words);
    case OpAppendUnique =>
      SetTopLookup(stack, key, InsertUnique(before, words));
      InsertUniqueAdds(before, words);
    case OpRemove =>
      SetTopLookup(stack, key, RemoveEach(before, words));
      RemoveEachFilters(before, words);
    case OpReplace =>
      SubstitutionFields(words[0]);
      if IsSubstitution(words[0]) { SetTopLookup(stack, key, env.substitute(words[0], before)); }
  }

  /** An assignment evaluates its words and stores them under its one name; with any other left-hand side
      it changes no variable. */
  lemma AssignmentAssigns(env: Env, op: AssignOp, curr: StrList, rhs: Args, st: State, fuel: nat)
    ensures var r, w := EvalAssign(env, op, curr, rhs, st, fuel), EvalVarRefs(env, rhs, [], op == OpReplace, st, fuel);
      && (|curr| != 1 ==> r.code == ReturnTrue && r.st.stack == st.stack)
      && (|curr| == 1 && w.code == ReturnTrue ==>
        && r.code == ReturnTrue
        && Assigned(env, op, Values(w.st.stack, Alias(env, curr[0])), w.words, Values(r.st.stack, Alias(env, curr[0])))
        && forall k :: k != Alias(env, curr[0]) ==> Values(r.st.stack, k) == Values(w.st.stack, k))
      && (|curr| == 1 && w.code != ReturnTrue ==> r == Outcome(w.code, w.st))
  {
    hide EvalVarRefs, Store, Assigned, Values;
    if |curr| == 1 {
      var w := EvalVarRefs(env, rhs, [], op == OpReplace, st, fuel);
      if w.code == ReturnTrue { StoreAssigns(env, op, Alias(env, curr[0]), w.words, w.st.stack); }
    }
  }
}
