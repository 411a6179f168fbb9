/** The dependency graph of source files: the recursive include scan and the walk over the recorded
    dependencies. Names stand for the file objects, which the file table keeps unique by name. */
module SourceDepsGraph {
  import opened Basics

  datatype FileType = Unknown | C | Ui | Qrc

  // One include directive: the name between the delimiters, and whether they are quotes.
  datatype Directive = Directive(inc: string, tryLocal: bool)

  // A file that was found, and whether it exists.
  datatype Target = Target(name: string, present: bool)

  // The file system and the directory lookups. A file can be opened iff it is readable; scan gives
  // the directives found in it, and resolve the file meant by a directive in a file, unless there
  // is none or it is a system include.
  datatype FileSystem = FileSystem(
    readable: set<string>,
    scan: (string, FileType) -> seq<Directive>,
    resolve: (string, Directive) -> Option<Target>)

  // The fields of a source file.
  datatype Node = Node(
    kind: FileType,
    present: bool,
    traversed: bool,
    checked: bool,
    count: nat,
    deps: Option<seq<string>>)

  // A directive in one file that was found to mean another.
  datatype Edge = Edge(from: string, to: string)

  // The file table, the table of includes, and the history: the files scanned and the directives
  // resolved, in the order in which that happened.
  datatype State = State(
    files: map<string, Node>,
    includes: map<string, string>,
    scanned: seq<string>,
    edges: seq<Edge>)

  const NEW_FILE := Node(C, true, false, false, 0, None)

  ghost predicate Known(st: State, names: seq<string>) {
    forall i :: 0 <= i < |names| ==> names[i] in st.files
  }

  /** The tables only mention files that are in the file table, and only checked files have deps. */
  ghost predicate Good(st: State) {
    && (forall n :: n in st.files ==> GoodNode(st, st.files[n]))
    && (forall k :: k in st.includes ==> st.includes[k] in st.files)
  }

  ghost predicate GoodNode(st: State, node: Node) {
    && (node.checked ==> node.kind != Unknown)
    && (node.deps.Some? ==> node.checked && Known(st, node.deps.value))
  }

  /* ---- one directive ---- */

  // The file a directive means, found in the table of includes or by a lookup.
  function Lookup(fs: FileSystem, st: State, from: string, d: Directive): Option<Target> {
    if !d.tryLocal && d.inc in st.includes then None else fs.resolve(from, d)
  }

  function Found(fs: FileSystem, st: State, from: string, d: Directive): Option<string> {
    if !d.tryLocal && d.inc in st.includes then Some(st.includes[d.inc])
    else match fs.resolve(from, d) case None => None case Some(t) => Some(t.name)
  }

  // The file table after the lookup.
  function Enter(st: State, t: Target, d: Directive): (r: State)
    ensures t.name in r.files
  {
    var st := if t.name in st.files then st else
      st.(files := st.files[t.name := NEW_FILE],
          includes := st.includes[(if d.tryLocal then t.name else d.inc) := t.name]);
    st.(files := st.files[t.name := st.files[t.name].(present := t.present)])
  }

  function CountUp(node: Node): Node {
    node.(count := (node.count + 1) % 256)
  }

  // A directive for another file counts, and if that file exists it is a dependency.
  function Depend(st: State, from: string, dep: string): State
    requires from in st.files && dep in st.files
    requires st.files[from].deps.Some?
  {
    var st := st.(edges := st.edges + [Edge(from, dep)]);
    if dep == from then st else
      var st := st.(files := st.files[dep := CountUp(st.files[dep])]);
      if !st.files[dep].present then st else
        var node := st.files[from];
        st.(files := st.files[from := node.(deps := Some(node.deps.value + [dep]))])
  }

  ghost predicate Open(st: State, from: string) {
    Good(st) && from in st.files && st.files[from].deps.Some?
  }

  function Include(fs: FileSystem, st: State, from: string, d: Directive): State
    requires Open(st, from)
  {
    var found := Found(fs, st, from, d);
    if found.None? then st else
      var st := match Lookup(fs, st, from, d) case None => st case Some(t) => Enter(st, t, d);
      Depend(st, from, found.value)
  }

  // What no step undoes: files stay, with their type and marks, and the history grows. A file that is
  // entered has the type of a source file.
  ghost predicate Extends(a: State, b: State) {
    && (forall n :: n in a.files ==> n in b.files && Keeps(a.files[n], b.files[n]))
    && (forall n :: n in b.files && n !in a.files ==> !b.files[n].traversed && b.files[n].kind == C)
    && a.scanned <= b.scanned && a.edges <= b.edges
  }

  predicate Keeps(a: Node, b: Node) {
    a.kind == b.kind && a.traversed == b.traversed && (a.checked ==> b.checked)
  }

  // Besides, a file that was checked already keeps its deps.
  ghost predicate Settled(a: State, b: State) {
    Extends(a, b) && forall n :: n in a.files && a.files[n].checked ==> b.files[n].deps == a.files[n].deps
  }

  lemma SettledRefl(a: State)
    ensures Settled(a, a)
  {
  }

  // What a step of the recursion leaves for the rest of it.
  lemma SettledRest(fs: FileSystem, a: State, b: State, names: seq<string>)
    requires Settled(a, b) && Known(a, names) && names != []
    ensures Known(b, names[1..]) && fs.readable - Checked(b) <= fs.readable - Checked(a)
  {
  }

  lemma SettledTrans(a: State, b: State, c: State)
    requires Settled(a, b) && Settled(b, c)
    ensures Settled(a, c)
  {
  }

  // What scanning one file does: it only adds deps to that file, and checks nothing.
  ghost predicate Scanning(a: State, b: State, from: string) {
    && Extends(a, b) && b.scanned == a.scanned
    && (forall n :: n in a.files ==> b.files[n].checked == a.files[n].checked)
    && (forall n :: n in a.files && n != from ==> b.files[n].deps == a.files[n].deps)
    && (forall n :: n in b.files && n !in a.files ==> b.files[n].deps == None && !b.files[n].checked)
  }

  lemma IncludeStep(fs: FileSystem, st: State, from: string, d: Directive)
    requires Open(st, from)
    ensures Open(Include(fs, st, from, d), from) && Scanning(st, Include(fs, st, from, d), from)
  {
    hide Open, Scanning, Enter, Depend;
    var found := Found(fs, st, from, d);
    ScanningRefl(st, from);
    if found.Some? {
      FoundKnown(fs, st, from, d);
      var look := Lookup(fs, st, from, d);
      if look.Some? {
        EnterStep(st, from, look.value, d);
        DependStep(Enter(st, look.value, d), from, found.value);
        ScanningTrans(st, Enter(st, look.value, d), Include(fs, st, from, d), from);
      } else {
        DependStep(st, from, found.value);
      }
    }
  }

  lemma FoundKnown(fs: FileSystem, st: State, from: string, d: Directive)
    requires Open(st, from)
    ensures Found(fs, st, from, d).Some? && Lookup(fs, st, from, d).None? ==> Found(fs, st, from, d).value in st.files
  {
  }

  lemma EnterStep(st: State, from: string, t: Target, d: Directive)
    requires Open(st, from)
    ensures Open(Enter(st, t, d), from) && Scanning(st, Enter(st, t, d), from)
  {
    var r := Enter(st, t, d);
    forall n | n in r.files ensures GoodNode(r, r.files[n]) {
      if n in st.files { assert GoodNode(st, st.files[n]); }
    }
  }

  lemma DependStep(st: State, from: string, dep: string)
    requires Open(st, from) && dep in st.files
    ensures Open(st, from) && st.files[from].deps.Some?
    ensures Open(Depend(st, from, dep), from) && Scanning(st, Depend(st, from, dep), from)
  {
    var r := Depend(st, from, dep);
    assert r.files.Keys == st.files.Keys;
    assert Scanning(st, r, from);
    forall n | n in r.files ensures GoodNode(r, r.files[n]) {
      hide Scanning;
      assert GoodNode(st, st.files[n]);
    }
  }

  lemma ScanningRefl(a: State, from: string)
    ensures Scanning(a, a, from)
  {
  }

  lemma ScanningTrans(a: State, b: State, c: State, from: string)
    requires from in a.files && Scanning(a, b, from) && Scanning(b, c, from)
    ensures Scanning(a, c, from)
  {
  }

  // The include directives of one file, in the order of the text.
  function Scan(fs: FileSystem, st: State, from: string, ds: seq<Directive>): (r: State)
    requires Open(st, from)
    ensures Open(r, from) && Scanning(st, r, from)
    decreases |ds|
  {
    hide Scanning, Include;
    if ds == [] then ScanningRefl(st, from); st else
      IncludeStep(fs, st, from, ds[0]);
      var next := Include(fs, st, from, ds[0]);
      var r := Scan(fs, next, from, ds[1..]);
      ScanningTrans(st, next, r, from);
      r
  }

  /* ---- the recursive scan ---- */

  ghost function Checked(st: State): set<string> {
    set n | n in st.files && st.files[n].checked
  }

  function Marked(st: State, name: string): State
    requires name in st.files
  {
    st.(files := st.files[name := st.files[name].(checked := true)])
  }

  function Opened(st: State, name: string): State
    requires name in st.files
  {
    var node := st.files[name];
    st.(files := st.files[name := node.(deps := if node.deps.None? then Some([]) else node.deps)],
        scanned := st.scanned + [name])
  }

  lemma ReadyOpen(st: State, name: string)
    requires Good(st) && name in st.files && !st.files[name].checked && st.files[name].kind != Unknown
    ensures name in Marked(st, name).files && Open(Opened(Marked(st, name), name), name)
    ensures Opened(Marked(st, name), name).files[name].kind == st.files[name].kind
  {
    var r := Opened(Marked(st, name), name);
    forall n | n in r.files ensures GoodNode(r, r.files[n]) { assert GoodNode(st, st.files[n]); }
  }

  lemma MarkedGood(st: State, name: string)
    requires Good(st) && name in st.files && st.files[name].kind != Unknown
    ensures Good(Marked(st, name))
  {
    var r := Marked(st, name);
    forall n | n in r.files ensures GoodNode(r, r.files[n]) { assert GoodNode(st, st.files[n]); }
  }

  // Marking and scanning one file, without what it includes.
  function ScanFile(fs: FileSystem, st: State, name: string): (r: State)
    requires Good(st) && name in st.files && !st.files[name].checked && st.files[name].kind != Unknown
    requires name in fs.readable
    ensures Good(r) && Settled(st, r) && Open(r, name) && r.files[name].checked
    ensures r.scanned == st.scanned + [name]
    ensures forall n :: n in r.files && n != name ==> r.files[n].checked == (n in st.files && st.files[n].checked)
    ensures forall n :: n in r.files && n != name && r.files[n].deps.Some? ==>
      n in st.files && st.files[n].deps == r.files[n].deps
  {
    var ready := Opened(Marked(st, name), name);
    Scan(fs, ready, name, fs.scan(name, st.files[name].kind))
  }

  function FindDeps(fs: FileSystem, recursive: bool, st: State, name: string): (r: (State, bool))
    requires Good(st) && name in st.files
    ensures Good(r.0) && Settled(st, r.0)
    decreases fs.readable - Checked(st), 0
  {
    if st.files[name].checked || st.files[name].kind == Unknown then (st, true)
    else if name !in fs.readable then (Marked(st, name), false)
    else
      var scanned := ScanFile(fs, st, name);
      assert name in Checked(scanned) && name !in Checked(st) && Checked(st) <= Checked(scanned);
      var deps := scanned.files[name].deps.value;
      (if recursive then FindAll(fs, scanned, deps) else scanned, true)
  }

  lemma FindDepsSkips(fs: FileSystem, recursive: bool, st: State, name: string)
    requires Good(st) && name in st.files
    ensures st.files[name].checked || st.files[name].kind == Unknown ==> FindDeps(fs, recursive, st, name) == (st, true)
    ensures (!st.files[name].checked && st.files[name].kind != Unknown && name !in fs.readable
      ==> FindDeps(fs, recursive, st, name) == (Marked(st, name), false))
  {
  }

  lemma FindDepsScans(fs: FileSystem, recursive: bool, st: State, name: string)
    requires Good(st) && name in st.files && !st.files[name].checked && st.files[name].kind != Unknown
    requires name in fs.readable
    ensures var s := ScanFile(fs, st, name);
      && fs.readable - Checked(s) < fs.readable - Checked(st)
      && s.files[name].deps.Some? && Known(s, s.files[name].deps.value)
      && FindDeps(fs, recursive, st, name) == (if recursive then FindAll(fs, s, s.files[name].deps.value) else s, true)
  {
    var s := ScanFile(fs, st, name);
    assert GoodNode(s, s.files[name]);
    assert name in Checked(s) && name !in Checked(st) && Checked(st) <= Checked(s);
  }

  function FindAll(fs: FileSystem, st: State, names: seq<string>): (r: State)
    requires Good(st) && Known(st, names)
    ensures Good(r) && Settled(st, r)
    decreases fs.readable - Checked(st), |names| + 1
  {
    hide Good, Settled;
    SettledRefl(st);
    if names == [] then st else
      var next := if st.files[names[0]].deps.None? then FindDeps(fs, true, st, names[0]).0 else st;
      SettledRest(fs, st, next, names);
      var r := FindAll(fs, next, names[1..]);
      SettledTrans(st, next, r);
      r
  }

  /* ---- what the recursion leaves behind ---- */

  // There is nothing left to scan in a file that is checked, or whose type is unknown.
  ghost predicate Done(st: State, name: string) {
    name in st.files && (st.files[name].checked || st.files[name].kind == Unknown)
  }

  ghost predicate AllDone(st: State, names: seq<string>) {
    forall i :: 0 <= i < |names| ==> Done(st, names[i])
  }

  /** The files that the given ones do not hide only depend on files that are done. */
  ghost predicate Closed(st: State, hidden: set<string>) {
    forall n :: n in st.files && n !in hidden && st.files[n].deps.Some? ==> AllDone(st, st.files[n].deps.value)
  }

  lemma DoneStays(a: State, b: State, names: seq<string>)
    requires Settled(a, b) && AllDone(a, names)
    ensures AllDone(b, names)
  {
    forall i | 0 <= i < |names| ensures Done(b, names[i]) { assert Done(a, names[i]); }
  }

  lemma Scanned(fs: FileSystem, st: State, name: string)
    requires Good(st) && name in st.files && !st.files[name].checked && st.files[name].kind != Unknown
    requires name in fs.readable
    ensures Good(ScanFile(fs, st, name)) && name in ScanFile(fs, st, name).files
    ensures ScanFile(fs, st, name) == Scan(fs, Opened(Marked(st, name), name), name, fs.scan(name, st.files[name].kind))
  {
  }

  // One turn of the loop over the deps.
  lemma FindAllStep(fs: FileSystem, st: State, names: seq<string>, i: nat)
    requires Good(st) && Known(st, names) && i < |names|
    ensures var next := if st.files[names[i]].deps.None? then FindDeps(fs, true, st, names[i]).0 else st;
      Good(next) && Settled(st, next) && Known(next, names)
        && FindAll(fs, st, names[i..]) == FindAll(fs, next, names[i + 1..])
  {
    assert names[i..][0] == names[i] && names[i..][1..] == names[i + 1..];
  }

  lemma FindAllNone(fs: FileSystem, st: State)
    requires Good(st)
    ensures FindAll(fs, st, []) == st
  {
  }

  lemma SettledChecked(fs: FileSystem, a: State, b: State)
    requires Settled(a, b)
    ensures fs.readable - Checked(b) <= fs.readable - Checked(a)
  {
  }

  lemma SettledDeps(a: State, b: State, name: string, names: seq<string>)
    requires Settled(a, b) && Good(a) && Known(a, names) && name in a.files && a.files[name].deps.Some?
    ensures name in b.files && b.files[name].deps == a.files[name].deps && Known(b, names)
  {
    assert GoodNode(a, a.files[name]);
  }

  lemma {:induction false} FindDepsClosed(fs: FileSystem, st: State, name: string, hidden: set<string>)
    requires Good(st) && name in st.files && Closed(st, hidden)
    ensures var r := FindDeps(fs, true, st, name).0; Closed(r, hidden) && Done(r, name)
    decreases fs.readable - Checked(st), 0
  {
    hide FindAll;
    var node := st.files[name];
    if node.checked || node.kind == Unknown {
    } else if name !in fs.readable {
      MarkedClosed(st, name, hidden);
    } else {
      var s := ScanFile(fs, st, name);
      ScanFileClosed(fs, st, name, hidden);
      assert name in Checked(s) && name !in Checked(st) && Checked(st) <= Checked(s);
      var deps := s.files[name].deps.value;
      assert GoodNode(s, s.files[name]);
      FindAllClosed(fs, s, deps, hidden + {name});
      var r := FindAll(fs, s, deps);
      Uncover(s, r, name, hidden);
    }
  }

  lemma MarkedClosed(st: State, name: string, hidden: set<string>)
    requires Good(st) && name in st.files && Closed(st, hidden) && !st.files[name].checked
    ensures Closed(Marked(st, name), hidden)
  {
    var r := Marked(st, name);
    assert GoodNode(st, st.files[name]);
    forall n | n in r.files && n !in hidden && r.files[n].deps.Some? ensures AllDone(r, r.files[n].deps.value) {
      assert AllDone(st, st.files[n].deps.value);
      forall i | 0 <= i < |r.files[n].deps.value| ensures Done(r, r.files[n].deps.value[i]) {
        assert Done(st, st.files[n].deps.value[i]);
      }
    }
  }

  lemma ScanFileClosed(fs: FileSystem, st: State, name: string, hidden: set<string>)
    requires Good(st) && name in st.files && !st.files[name].checked && st.files[name].kind != Unknown
    requires name in fs.readable && Closed(st, hidden)
    ensures Closed(ScanFile(fs, st, name), hidden + {name})
  {
    hide Good, ScanFile;
    var r := ScanFile(fs, st, name);
    forall n | n in r.files && n !in hidden + {name} && r.files[n].deps.Some?
      ensures AllDone(r, r.files[n].deps.value)
    {
      DoneStays(st, r, st.files[n].deps.value);
    }
  }

  // Once its own deps are done, a file need no longer be hidden.
  lemma Uncover(a: State, r: State, name: string, hidden: set<string>)
    requires Settled(a, r) && name in a.files && a.files[name].checked && a.files[name].deps.Some?
    requires AllDone(r, a.files[name].deps.value) && Closed(r, hidden + {name})
    ensures Closed(r, hidden)
  {
    hide Extends, AllDone;
    forall n | n in r.files && n !in hidden && r.files[n].deps.Some? ensures AllDone(r, r.files[n].deps.value) {
      if n == name { NamedKept(a, r, name); } else { assert n !in hidden + {name}; }
    }
  }

  lemma NamedKept(a: State, r: State, name: string)
    requires Settled(a, r) && name in a.files && a.files[name].checked
    ensures name in r.files && r.files[name].deps == a.files[name].deps
  {
  }

  lemma {:induction false} FindAllClosed(fs: FileSystem, st: State, names: seq<string>, hidden: set<string>)
    requires Good(st) && Known(st, names) && Closed(st, hidden)
    ensures var r := FindAll(fs, st, names); Closed(r, hidden) && AllDone(r, names)
    decreases fs.readable - Checked(st), |names| + 1
  {
    hide Closed, FindDeps;
    if names != [] {
      var name := names[0];
      assert GoodNode(st, st.files[name]);
      var next := st;
      if st.files[name].deps.None? {
        FindDepsClosed(fs, st, name, hidden);
        next := FindDeps(fs, true, st, name).0;
        assert Checked(st) <= Checked(next);
      }
      assert Done(next, name);
      FindAllClosed(fs, next, names[1..], hidden);
      var r := FindAll(fs, next, names[1..]);
      forall i | 0 <= i < |names| ensures Done(r, names[i]) {
        if i > 0 { assert Done(r, names[1..][i - 1]); }
      }
    }
  }

  // A way through the recorded deps.
  ghost predicate IsPath(st: State, p: seq<string>) {
    && p != [] && p[0] in st.files
    && forall i :: 0 <= i < |p| - 1 ==> Links(st, p[i], p[i + 1])
  }

  ghost predicate Links(st: State, from: string, to: string) {
    from in st.files && st.files[from].deps.Some? && to in st.files[from].deps.value
  }

  // Every readable file that was checked in between was scanned.
  ghost predicate ScansChecked(fs: FileSystem, a: State, b: State) {
    forall n :: n in fs.readable && n in b.files && b.files[n].checked && !(n in a.files && a.files[n].checked) ==>
      n in b.scanned
  }

  lemma ScansCheckedTrans(fs: FileSystem, a: State, b: State, c: State)
    requires ScansChecked(fs, a, b) && ScansChecked(fs, b, c) && b.scanned <= c.scanned
    ensures ScansChecked(fs, a, c)
  {
  }

  lemma ScansCheckedRefl(fs: FileSystem, a: State)
    ensures ScansChecked(fs, a, a)
  {
  }

  lemma {:induction false} FindDepsChecks(fs: FileSystem, recursive: bool, st: State, name: string)
    requires Good(st) && name in st.files
    ensures ScansChecked(fs, st, FindDeps(fs, recursive, st, name).0)
    decreases fs.readable - Checked(st), 0
  {
    hide FindAll, FindDeps, Good;
    FindDepsSkips(fs, recursive, st, name);
    if !st.files[name].checked && st.files[name].kind != Unknown && name in fs.readable {
      FindDepsScans(fs, recursive, st, name);
      var s := ScanFile(fs, st, name);
      assert ScansChecked(fs, st, s);
      if recursive {
        FindAllChecks(fs, s, s.files[name].deps.value);
        ScansCheckedTrans(fs, st, s, FindAll(fs, s, s.files[name].deps.value));
      }
    }
  }

  lemma {:induction false} FindAllChecks(fs: FileSystem, st: State, names: seq<string>)
    requires Good(st) && Known(st, names)
    ensures ScansChecked(fs, st, FindAll(fs, st, names))
    decreases fs.readable - Checked(st), |names| + 1
  {
    hide FindDeps, Good, ScansChecked, Checked;
    ScansCheckedRefl(fs, st);
    SettledRefl(st);
    if names != [] {
      var next := st;
      if st.files[names[0]].deps.None? {
        FindDepsChecks(fs, true, st, names[0]);
        next := FindDeps(fs, true, st, names[0]).0;
      }
      SettledRest(fs, st, next, names);
      FindAllChecks(fs, next, names[1..]);
      ScansCheckedTrans(fs, st, next, FindAll(fs, next, names[1..]));
    }
  }

  lemma {:induction false} ClosedPath(st: State, p: seq<string>)
    requires Closed(st, {}) && IsPath(st, p) && Done(st, p[0])
    ensures Done(st, p[|p| - 1])
    decreases |p|
  {
    if |p| > 1 {
      assert Links(st, p[0], p[1]);
      assert p[1] in st.files && Done(st, p[1]);
      var q := p[1..];
      forall i | 0 <= i < |q| - 1 ensures Links(st, q[i], q[i + 1]) { assert Links(st, p[i + 1], p[i + 2]); }
      ClosedPath(st, q);
    }
  }

  /** After a recursive scan every file of a known type that the recorded deps lead to from the
      scanned file, by any way, is checked; and so it stays for the files scanned before. */
  lemma ReachableChecked(fs: FileSystem, st: State, name: string, p: seq<string>)
    requires Good(st) && name in st.files && Closed(st, {})
    ensures var r := FindDeps(fs, true, st, name).0;
      && Closed(r, {})
      && (IsPath(r, p) && Done(r, p[0]) ==> Done(r, p[|p| - 1]))
      && (IsPath(r, p) && p[0] == name && r.files[p[|p| - 1]].kind != Unknown ==> r.files[p[|p| - 1]].checked)
  {
    hide FindDeps, Closed, Good, Extends;
    FindDepsClosed(fs, st, name, {});
    var r := FindDeps(fs, true, st, name).0;
    if IsPath(r, p) && Done(r, p[0]) { ClosedPath(r, p); }
  }

  /** Files that includes enter are searched like others: they get the type of a source file, and in a
      recursive search every readable file that the recorded deps lead to is scanned, unless it was
      checked before, or stood in the table already and was given no type. */
  lemma IncludedScanned(fs: FileSystem, st: State, name: string, p: seq<string>)
    requires Good(st) && name in st.files && Closed(st, {})
    ensures var r := FindDeps(fs, true, st, name).0;
      && (forall n :: n in r.files && n !in st.files ==> r.files[n].kind == C)
      && (IsPath(r, p) && p[0] == name && p[|p| - 1] in fs.readable && p[|p| - 1] !in st.files
        ==> p[|p| - 1] in r.scanned)
      && (IsPath(r, p) && p[0] == name && p[|p| - 1] in fs.readable && p[|p| - 1] in st.files
          && !st.files[p[|p| - 1]].checked && st.files[p[|p| - 1]].kind != Unknown
        ==> p[|p| - 1] in r.scanned)
  {
    ReachableChecked(fs, st, name, p);
    FindDepsChecks(fs, true, st, name);
    hide FindDeps, Closed, Good, Done;
    var r := FindDeps(fs, true, st, name).0;
    if IsPath(r, p) && p[0] == name { PathKnown(r, p, |p| - 1); }
  }

  lemma PathKnown(st: State, p: seq<string>, i: nat)
    requires Good(st) && IsPath(st, p) && i < |p|
    ensures p[i] in st.files
  {
    if i > 0 {
      assert Links(st, p[i - 1], p[i]);
      assert GoodNode(st, st.files[p[i - 1]]);
    }
  }

  /* ---- scanned once, counted modulo 256, recorded in order ---- */

  // The directives in other files that were found to mean the file.
  function Hits(edges: seq<Edge>, to: string): nat {
    if edges == [] then 0 else
      var e := edges[|edges| - 1];
      Hits(edges[..|edges| - 1], to) + (if e.to == to && e.from != to then 1 else 0)
  }

  // The existing other files that the directives in a file were found to mean, in their order.
  function Wanted(edges: seq<Edge>, from: string, onDisk: string -> bool): seq<string> {
    if edges == [] then [] else
      var e := edges[|edges| - 1];
      Wanted(edges[..|edges| - 1], from, onDisk)
        + (if e.from == from && e.to != from && onDisk(e.to) then [e.to] else [])
  }

  // The lookups agree on what exists.
  ghost predicate Consistent(fs: FileSystem, onDisk: string -> bool) {
    forall from, d :: fs.resolve(from, d).Some? ==>
      fs.resolve(from, d).value.present == onDisk(fs.resolve(from, d).value.name)
  }

  ghost predicate ScannedOnce(st: State) {
    && (forall i, j :: 0 <= i < j < |st.scanned| ==> st.scanned[i] != st.scanned[j])
    && (forall i :: 0 <= i < |st.scanned| ==> st.scanned[i] in st.files && st.files[st.scanned[i]].deps.Some?)
    && (forall n :: n in st.files && st.files[n].deps.Some? ==> n in st.scanned)
  }

  ghost predicate EdgesKnown(st: State) {
    forall i :: 0 <= i < |st.edges| ==> st.edges[i].to in st.files && st.edges[i].from in st.scanned
  }

  ghost predicate Counted(st: State) {
    forall n :: n in st.files ==> st.files[n].count == Hits(st.edges, n) % 256
  }

  ghost predicate Recorded(st: State, onDisk: string -> bool) {
    forall n :: n in st.files && st.files[n].deps.Some? ==> st.files[n].deps.value == Wanted(st.edges, n, onDisk)
  }

  ghost predicate IncludesExist(st: State, onDisk: string -> bool) {
    forall k :: k in st.includes && st.includes[k] in st.files ==>
      st.files[st.includes[k]].present == onDisk(st.includes[k])
  }

  /** No file is scanned twice and every count is the number of directives that hit the file modulo
      256; and if the lookups agree on what exists, the deps of a scanned file are the existing files
      its directives mean, in order. */
  ghost predicate Faithful(st: State, agree: bool, onDisk: string -> bool) {
    && ScannedOnce(st) && EdgesKnown(st) && Counted(st)
    && (agree ==> Recorded(st, onDisk) && IncludesExist(st, onDisk))
  }

  lemma {:induction false} NoHits(edges: seq<Edge>, to: string)
    requires forall i :: 0 <= i < |edges| ==> edges[i].to != to
    ensures Hits(edges, to) == 0
    decreases |edges|
  {
    if edges != [] {
      assert edges[|edges| - 1].to != to;
      NoHits(edges[..|edges| - 1], to);
    }
  }

  lemma {:induction false} NoneWanted(edges: seq<Edge>, from: string, onDisk: string -> bool)
    requires forall i :: 0 <= i < |edges| ==> edges[i].from != from
    ensures Wanted(edges, from, onDisk) == []
    decreases |edges|
  {
    if edges != [] {
      assert edges[|edges| - 1].from != from;
      NoneWanted(edges[..|edges| - 1], from, onDisk);
    }
  }

  lemma OneMoreHit(edges: seq<Edge>, e: Edge, to: string)
    ensures Hits(edges + [e], to) == Hits(edges, to) + (if e.to == to && e.from != to then 1 else 0)
  {
    assert (edges + [e])[..|edges|] == edges;
  }

  lemma OneMoreWanted(edges: seq<Edge>, e: Edge, from: string, onDisk: string -> bool)
    ensures Wanted(edges + [e], from, onDisk)
         == Wanted(edges, from, onDisk) + (if e.from == from && e.to != from && onDisk(e.to) then [e.to] else [])
  {
    assert (edges + [e])[..|edges|] == edges;
  }

  // The history is the same, and so are the deps; a new file has none.
  ghost predicate SameDeps(a: State, b: State) {
    && a.edges == b.edges && a.scanned == b.scanned
    && (forall n :: n in a.files ==> n in b.files && b.files[n].deps == a.files[n].deps)
    && (forall n :: n in b.files && n !in a.files ==> b.files[n].deps == None)
  }

  lemma RecordedStays(a: State, b: State, onDisk: string -> bool)
    requires SameDeps(a, b) && Recorded(a, onDisk)
    ensures Recorded(b, onDisk)
  {
    hide Wanted;
  }

  lemma EnterDeps(st: State, t: Target, d: Directive)
    ensures SameDeps(st, Enter(st, t, d))
  {
  }

  lemma HistoryStays(a: State, b: State)
    requires SameDeps(a, b) && ScannedOnce(a) && EdgesKnown(a)
    ensures ScannedOnce(b) && EdgesKnown(b)
  {
  }

  lemma EnterHistory(st: State, from: string, t: Target, d: Directive)
    requires ScannedOnce(st) && EdgesKnown(st)
    ensures ScannedOnce(Enter(st, t, d)) && EdgesKnown(Enter(st, t, d))
  {
    hide Enter, SameDeps, ScannedOnce, EdgesKnown;
    EnterDeps(st, t, d);
    HistoryStays(st, Enter(st, t, d));
  }

  lemma EnterCounted(st: State, t: Target, d: Directive)
    requires EdgesKnown(st) && Counted(st)
    ensures Counted(Enter(st, t, d))
  {
    hide Hits;
    if t.name !in st.files { NoHits(st.edges, t.name); }
  }

  lemma EnterIncludes(st: State, t: Target, d: Directive, onDisk: string -> bool)
    requires (forall k :: k in st.includes ==> st.includes[k] in st.files)
    requires IncludesExist(st, onDisk) && t.present == onDisk(t.name)
    ensures IncludesExist(Enter(st, t, d), onDisk)
  {
  }

  lemma EnterFaithful(st: State, from: string, t: Target, d: Directive, agree: bool, onDisk: string -> bool)
    requires Open(st, from) && Faithful(st, agree, onDisk) && (agree ==> t.present == onDisk(t.name))
    ensures Faithful(Enter(st, t, d), agree, onDisk)
  {
    EnterHistory(st, from, t, d);
    EnterCounted(st, t, d);
    EnterDeps(st, t, d);
    if agree {
      RecordedStays(st, Enter(st, t, d), onDisk);
      EnterIncludes(st, t, d, onDisk);
    }
  }

  lemma DependHistory(st: State, from: string, dep: string)
    requires Open(st, from) && dep in st.files && ScannedOnce(st) && EdgesKnown(st)
    ensures st.files[from].deps.Some? && ScannedOnce(Depend(st, from, dep)) && EdgesKnown(Depend(st, from, dep))
  {
    var r := Depend(st, from, dep);
    assert r.scanned == st.scanned && r.files.Keys == st.files.Keys && r.edges == st.edges + [Edge(from, dep)];
    assert forall n :: n in r.files ==> r.files[n].deps.Some? == st.files[n].deps.Some?;
  }

  lemma DependCounted(st: State, from: string, dep: string)
    requires Open(st, from) && dep in st.files && Counted(st)
    ensures st.files[from].deps.Some? && Counted(Depend(st, from, dep))
  {
    hide Hits, Good;
    var r := Depend(st, from, dep);
    forall n | n in r.files ensures r.files[n].count == Hits(r.edges, n) % 256 {
      OneMoreHit(st.edges, Edge(from, dep), n);
    }
  }

  lemma DependRecorded(st: State, from: string, dep: string, onDisk: string -> bool)
    requires Open(st, from) && dep in st.files && Recorded(st, onDisk) && st.files[dep].present == onDisk(dep)
    ensures st.files[from].deps.Some? && Recorded(Depend(st, from, dep), onDisk)
  {
    hide Wanted, Good;
    var r := Depend(st, from, dep);
    forall n | n in r.files && r.files[n].deps.Some? ensures r.files[n].deps.value == Wanted(r.edges, n, onDisk) {
      OneMoreWanted(st.edges, Edge(from, dep), n, onDisk);
    }
  }

  lemma DependIncludes(st: State, from: string, dep: string, onDisk: string -> bool)
    requires Open(st, from) && dep in st.files && IncludesExist(st, onDisk)
    ensures st.files[from].deps.Some? && IncludesExist(Depend(st, from, dep), onDisk)
  {
    hide Good;
    var r := Depend(st, from, dep);
    assert forall n :: n in r.files ==> r.files[n].present == st.files[n].present;
  }

  lemma DependFaithful(st: State, from: string, dep: string, agree: bool, onDisk: string -> bool)
    requires Open(st, from) && Faithful(st, agree, onDisk) && dep in st.files
      && (agree ==> st.files[dep].present == onDisk(dep))
    ensures Open(st, from) && Faithful(Depend(st, from, dep), agree, onDisk)
  {
    DependHistory(st, from, dep);
    DependCounted(st, from, dep);
    if agree {
      DependRecorded(st, from, dep, onDisk);
      DependIncludes(st, from, dep, onDisk);
    }
  }

  lemma IncludeFaithful(fs: FileSystem, st: State, from: string, d: Directive, agree: bool, onDisk: string -> bool)
    requires Open(st, from) && Faithful(st, agree, onDisk) && (agree ==> Consistent(fs, onDisk))
    ensures Faithful(Include(fs, st, from, d), agree, onDisk)
  {
    hide Open, Faithful, Enter, Depend, Scanning;
    var found := Found(fs, st, from, d);
    if found.Some? {
      FoundKnown(fs, st, from, d);
      var look := Lookup(fs, st, from, d);
      if look.Some? {
        assert agree ==> look.value.present == onDisk(look.value.name);
        EnterStep(st, from, look.value, d);
        EnterFaithful(st, from, look.value, d, agree, onDisk);
        Entered(st, look.value, d);
        DependFaithful(Enter(st, look.value, d), from, found.value, agree, onDisk);
      } else {
        if agree { CachedExists(st, d.inc, onDisk); }
        DependFaithful(st, from, found.value, agree, onDisk);
      }
    }
  }

  lemma Entered(st: State, t: Target, d: Directive)
    ensures t.name in Enter(st, t, d).files && Enter(st, t, d).files[t.name].present == t.present
  {
  }

  lemma CachedExists(st: State, inc: string, onDisk: string -> bool)
    requires Faithful(st, true, onDisk) && inc in st.includes && st.includes[inc] in st.files
    ensures st.files[st.includes[inc]].present == onDisk(st.includes[inc])
  {
  }

  lemma {:induction false} ScanFaithful(fs: FileSystem, st: State, from: string, ds: seq<Directive>,
                                        agree: bool, onDisk: string -> bool)
    requires Open(st, from) && Faithful(st, agree, onDisk) && (agree ==> Consistent(fs, onDisk))
    ensures Faithful(Scan(fs, st, from, ds), agree, onDisk)
    decreases |ds|
  {
    hide Open, Faithful, Include, Scanning, Consistent;
    if ds != [] {
      IncludeStep(fs, st, from, ds[0]);
      IncludeFaithful(fs, st, from, ds[0], agree, onDisk);
      ScanFaithful(fs, Include(fs, st, from, ds[0]), from, ds[1..], agree, onDisk);
    }
  }

  /* ---- what the scanned files mean ---- */

  function Means(fs: FileSystem, from: string, d: Directive): Option<string> {
    match fs.resolve(from, d) case None => None case Some(t) => Some(t.name)
  }

  // The files that the directives of a file mean.
  function Meant(fs: FileSystem, from: string, ds: seq<Directive>): seq<Edge> {
    if ds == [] then []
    else (match Means(fs, from, ds[0]) case None => [] case Some(n) => [Edge(from, n)]) + Meant(fs, from, ds[1..])
  }

  // An angle-bracket directive means the same file everywhere, and the whole name of a file that a
  // quoted one means stands for that file: then the table of includes only saves lookups.
  ghost predicate Uniform(fs: FileSystem) {
    && (forall from, inc :: Means(fs, from, Directive(inc, false)) == Means(fs, "", Directive(inc, false)))
    && (forall from, inc :: Means(fs, from, Directive(inc, true)).Some? ==>
      StandsFor(fs, Means(fs, from, Directive(inc, true)).value, Means(fs, from, Directive(inc, true)).value))
  }

  predicate StandsFor(fs: FileSystem, inc: string, name: string) {
    Means(fs, "", Directive(inc, false)) == Some(name)
  }

  ghost predicate TableUniform(fs: FileSystem, st: State) {
    forall k :: k in st.includes ==> StandsFor(fs, k, st.includes[k])
  }

  lemma EnterUniform(fs: FileSystem, st: State, from: string, d: Directive)
    requires Uniform(fs) && TableUniform(fs, st) && fs.resolve(from, d).Some?
    ensures TableUniform(fs, Enter(st, fs.resolve(from, d).value, d))
  {
    var t := fs.resolve(from, d).value;
    assert Directive(d.inc, d.tryLocal) == d;
    assert Means(fs, from, Directive(d.inc, d.tryLocal)) == Some(t.name);
  }

  lemma IncludeUniform(fs: FileSystem, st: State, from: string, d: Directive)
    requires Open(st, from) && Uniform(fs) && TableUniform(fs, st)
    ensures TableUniform(fs, Include(fs, st, from, d)) && Found(fs, st, from, d) == Means(fs, from, d)
  {
    hide Enter, Open;
    assert Directive(d.inc, d.tryLocal) == d;
    if Found(fs, st, from, d).Some? && Lookup(fs, st, from, d).Some? { EnterUniform(fs, st, from, d); }
    hide Uniform, StandsFor;
    IncludeTable(fs, st, from, d);
  }

  lemma IncludeTable(fs: FileSystem, st: State, from: string, d: Directive)
    requires Open(st, from)
    ensures var look := Lookup(fs, st, from, d);
      Include(fs, st, from, d).includes == if look.Some? then Enter(st, look.value, d).includes else st.includes
  {
  }

  /** Scanning a file adds at most one directive to the history for every one it holds; for quoted
      ones, or if the lookups are uniform, exactly those that mean a file, in order. */
  lemma {:induction false} ScanEdges(fs: FileSystem, st: State, from: string, ds: seq<Directive>)
    requires Open(st, from)
    ensures var r := Scan(fs, st, from, ds);
      && st.edges <= r.edges && |r.edges| <= |st.edges| + |ds|
      && (forall i :: |st.edges| <= i < |r.edges| ==> r.edges[i].from == from)
      && ((forall i :: 0 <= i < |ds| ==> ds[i].tryLocal) ==> r.edges == st.edges + Meant(fs, from, ds))
      && (Uniform(fs) && TableUniform(fs, st) ==> r.edges == st.edges + Meant(fs, from, ds) && TableUniform(fs, r))
    decreases |ds|
  {
    hide Open, Include, Scanning, Uniform, TableUniform;
    if ds != [] {
      IncludeStep(fs, st, from, ds[0]);
      IncludeEdge(fs, st, from, ds[0]);
      if Uniform(fs) && TableUniform(fs, st) { IncludeUniform(fs, st, from, ds[0]); }
      ScanEdges(fs, Include(fs, st, from, ds[0]), from, ds[1..]);
    }
  }

  // The directives of several files, one file after the other.
  function AllMeant(fs: FileSystem, files: map<string, Node>, names: seq<string>): seq<Edge> {
    if names == [] then []
    else
      var kind := if names[0] in files then files[names[0]].kind else Unknown;
      Meant(fs, names[0], fs.scan(names[0], kind)) + AllMeant(fs, files, names[1..])
  }

  /** The directives added to the history since an earlier state are those of the files scanned since,
      in the order of the scans. */
  ghost predicate Told(fs: FileSystem, a: State, b: State) {
    && a.scanned <= b.scanned && (forall i :: |a.scanned| <= i < |b.scanned| ==> b.scanned[i] in b.files)
    && b.edges == a.edges + AllMeant(fs, b.files, b.scanned[|a.scanned|..])
  }

  lemma {:induction false} AllMeantAppend(fs: FileSystem, files: map<string, Node>, a: seq<string>, b: seq<string>)
    ensures AllMeant(fs, files, a + b) == AllMeant(fs, files, a) + AllMeant(fs, files, b)
    decreases |a|
  {
    hide Meant;
    if a == [] {
      assert a + b == b;
    } else {
      assert (a + b)[1..] == a[1..] + b;
      AllMeantAppend(fs, files, a[1..], b);
    }
  }

  lemma {:induction false} AllMeantKept(fs: FileSystem, a: State, b: State, names: seq<string>)
    requires Extends(a, b) && forall i :: 0 <= i < |names| ==> names[i] in a.files
    ensures AllMeant(fs, a.files, names) == AllMeant(fs, b.files, names)
    decreases |names|
  {
    hide Meant;
    if names != [] { AllMeantKept(fs, a, b, names[1..]); }
  }

  lemma ToldTrans(fs: FileSystem, a: State, b: State, c: State)
    requires Told(fs, a, b) && Told(fs, b, c) && Extends(b, c)
    ensures Told(fs, a, c)
  {
    hide AllMeant;
    var x, y := b.scanned[|a.scanned|..], c.scanned[|b.scanned|..];
    assert c.scanned[|a.scanned|..] == x + y by { assert c.scanned == b.scanned + y; }
    forall i | |a.scanned| <= i < |c.scanned| ensures c.scanned[i] in c.files {
      if i < |b.scanned| { assert c.scanned[i] == b.scanned[i]; }
    }
    AllMeantKept(fs, b, c, x);
    AllMeantAppend(fs, c.files, x, y);
  }

  lemma ToldNothing(fs: FileSystem, a: State, b: State)
    requires b.scanned == a.scanned && b.edges == a.edges
    ensures Told(fs, a, b)
  {
  }

  lemma ScanFileTold(fs: FileSystem, st: State, name: string)
    requires Good(st) && name in st.files && !st.files[name].checked && st.files[name].kind != Unknown
    requires name in fs.readable && Uniform(fs) && TableUniform(fs, st)
    ensures var r := ScanFile(fs, st, name); Told(fs, st, r) && TableUniform(fs, r)
  {
    hide Uniform, StandsFor, Open, Good;
    ReadyOpen(st, name);
    var r := ScanFile(fs, st, name);
    var ds := fs.scan(name, st.files[name].kind);
    ScanEdges(fs, Opened(Marked(st, name), name), name, ds);
    assert r.scanned[|st.scanned|..] == [name];
    assert r.files[name].kind == st.files[name].kind;
    assert [name][1..] == [];
    assert AllMeant(fs, r.files, [name]) == Meant(fs, name, ds) + [];
  }

  /** With uniform lookups, a search adds to the history exactly what the files it scans mean, and the
      table of includes stays such that the next one does, too. */
  lemma {:induction false} FindDepsTold(fs: FileSystem, recursive: bool, st: State, name: string)
    requires Good(st) && name in st.files && Uniform(fs) && TableUniform(fs, st)
    ensures var r := FindDeps(fs, recursive, st, name).0; Told(fs, st, r) && TableUniform(fs, r)
    decreases fs.readable - Checked(st), 0
  {
    hide Uniform, StandsFor, FindAll, FindDeps, Told, Good;
    FindDepsSkips(fs, recursive, st, name);
    ToldNothing(fs, st, st);
    if !st.files[name].checked && st.files[name].kind != Unknown {
      if name in fs.readable {
        FindDepsScans(fs, recursive, st, name);
        var s := ScanFile(fs, st, name);
        ScanFileTold(fs, st, name);
        if recursive {
          FindAllTold(fs, s, s.files[name].deps.value);
          ToldTrans(fs, st, s, FindAll(fs, s, s.files[name].deps.value));
        }
      } else {
        ToldNothing(fs, st, Marked(st, name));
      }
    }
  }

  lemma {:induction false} FindAllTold(fs: FileSystem, st: State, names: seq<string>)
    requires Good(st) && Known(st, names) && Uniform(fs) && TableUniform(fs, st)
    ensures var r := FindAll(fs, st, names); Told(fs, st, r) && TableUniform(fs, r)
    decreases fs.readable - Checked(st), |names| + 1
  {
    hide Uniform, TableUniform, FindDeps, Told, Good, Checked;
    ToldNothing(fs, st, st);
    SettledRefl(st);
    if names != [] {
      var next := st;
      if st.files[names[0]].deps.None? {
        FindDepsTold(fs, true, st, names[0]);
        next := FindDeps(fs, true, st, names[0]).0;
      }
      SettledRest(fs, st, next, names);
      FindAllTold(fs, next, names[1..]);
      ToldTrans(fs, st, next, FindAll(fs, next, names[1..]));
    }
  }

  lemma IncludeEdge(fs: FileSystem, st: State, from: string, d: Directive)
    requires Open(st, from)
    ensures var found := Found(fs, st, from, d);
      Include(fs, st, from, d).edges == st.edges + (if found.None? then [] else [Edge(from, found.value)])
  {
  }

  lemma OpenedFaithful(st: State, name: string, agree: bool, onDisk: string -> bool)
    requires Good(st) && name in st.files && !st.files[name].checked && st.files[name].kind != Unknown
    requires Faithful(st, agree, onDisk)
    ensures Faithful(Marked(st, name), agree, onDisk) && Faithful(Opened(Marked(st, name), name), agree, onDisk)
    ensures Open(Opened(Marked(st, name), name), name)
  {
    hide Hits, Wanted;
    assert GoodNode(st, st.files[name]);
    assert name !in st.scanned;
    NoneWanted(st.edges, name, onDisk);
    var m := Marked(st, name);
    var r := Opened(m, name);
    forall n | n in r.files ensures GoodNode(r, r.files[n]) { assert GoodNode(st, st.files[n]); }
  }

  lemma {:induction false} FindDepsFaithful(fs: FileSystem, recursive: bool, st: State, name: string,
                                            agree: bool, onDisk: string -> bool)
    requires Good(st) && name in st.files && Faithful(st, agree, onDisk) && (agree ==> Consistent(fs, onDisk))
    ensures Faithful(FindDeps(fs, recursive, st, name).0, agree, onDisk)
    decreases fs.readable - Checked(st), 0
  {
    hide Faithful, FindAll, Opened, Consistent;
    var node := st.files[name];
    if !node.checked && node.kind != Unknown {
      OpenedFaithful(st, name, agree, onDisk);
      if name in fs.readable {
        var s := ScanFile(fs, st, name);
        ScanFaithful(fs, Opened(Marked(st, name), name), name, fs.scan(name, node.kind), agree, onDisk);
        assert name in Checked(s) && name !in Checked(st) && Checked(st) <= Checked(s);
        if recursive {
          assert GoodNode(s, s.files[name]);
          FindAllFaithful(fs, s, s.files[name].deps.value, agree, onDisk);
        }
      }
    }
  }

  lemma {:induction false} FindAllFaithful(fs: FileSystem, st: State, names: seq<string>, agree: bool,
                                           onDisk: string -> bool)
    requires Good(st) && Known(st, names) && Faithful(st, agree, onDisk) && (agree ==> Consistent(fs, onDisk))
    ensures Faithful(FindAll(fs, st, names), agree, onDisk)
    decreases fs.readable - Checked(st), |names| + 1
  {
    hide Faithful, FindDeps, Consistent;
    if names != [] {
      var next := st;
      if st.files[names[0]].deps.None? {
        FindDepsFaithful(fs, true, st, names[0], agree, onDisk);
        next := FindDeps(fs, true, st, names[0]).0;
        assert Checked(st) <= Checked(next);
      }
      FindAllFaithful(fs, next, names[1..], agree, onDisk);
    }
  }

  /* ---- requests ---- */

  // addSourceFile(): the file, whether to look for dependencies, and the type.
  datatype Request = Request(file: string, seek: bool, kind: FileType)

  const ADDED_FILE := NEW_FILE.(kind := Unknown)

  function Added(st: State, q: Request): (r: State)
    ensures q.file in r.files
  {
    var st := if q.file in st.files then st else st.(files := st.files[q.file := ADDED_FILE]);
    if q.kind == Unknown then st else st.(files := st.files[q.file := st.files[q.file].(kind := q.kind)])
  }

  lemma AddedGood(st: State, q: Request)
    requires Good(st)
    ensures Good(Added(st, q))
  {
    var r := Added(st, q);
    forall n | n in r.files ensures GoodNode(r, r.files[n]) {
      if n in st.files { assert GoodNode(st, st.files[n]); }
    }
  }

  function AddSourceFile(fs: FileSystem, recursive: bool, st: State, q: Request): (r: State)
    requires Good(st)
    ensures Good(r)
  {
    AddedGood(st, q);
    var st := Added(st, q);
    if q.seek && !st.files[q.file].checked then FindDeps(fs, recursive, st, q.file).0 else st
  }

  lemma SearchedScanned(fs: FileSystem, recursive: bool, st: State, name: string)
    requires Good(st) && name in st.files && !st.files[name].checked && st.files[name].kind != Unknown
    requires name in fs.readable
    ensures var r := FindDeps(fs, recursive, st, name).0;
      name in r.scanned && name in r.files && r.files[name].kind == st.files[name].kind
  {
    hide FindDeps, ScanFile, FindAll, Good;
    FindDepsScans(fs, recursive, st, name);
    var s, r := ScanFile(fs, st, name), FindDeps(fs, recursive, st, name).0;
    assert s.scanned[|st.scanned|] == name;
    assert s.scanned <= r.scanned;
  }

  /** A request gives the file its type, if it has one, and searches it: a readable file with a type that
      was not checked is scanned. */
  lemma RequestedScanned(fs: FileSystem, recursive: bool, st: State, q: Request)
    requires Good(st) && q.seek && q.file in fs.readable && !(q.file in st.files && st.files[q.file].checked)
    requires q.kind != Unknown || (q.file in st.files && st.files[q.file].kind != Unknown)
    ensures var r := AddSourceFile(fs, recursive, st, q);
      && q.file in r.scanned && (q.kind != Unknown ==> r.files[q.file].kind == q.kind)
      && (q.kind == Unknown ==> r.files[q.file].kind == st.files[q.file].kind)
  {
    AddedGood(st, q);
    var a := Added(st, q);
    SearchedScanned(fs, recursive, a, q.file);
    hide FindDeps, Good;
  }

  function AddAll(fs: FileSystem, recursive: bool, st: State, qs: seq<Request>): (r: State)
    requires Good(st)
    ensures Good(r)
    decreases |qs|
  {
    if qs == [] then st else AddAll(fs, recursive, AddSourceFile(fs, recursive, st, qs[0]), qs[1..])
  }

  const NOTHING := State(map[], map[], [], [])

  /** Whatever is added, in whatever order and mode, no file is scanned twice, every include count is
      the number of directives that hit the file modulo 256, and the deps are in order. */
  lemma {:induction false} AddAllFaithful(fs: FileSystem, recursive: bool, st: State, qs: seq<Request>,
                                          agree: bool, onDisk: string -> bool)
    requires Good(st) && Faithful(st, agree, onDisk) && (agree ==> Consistent(fs, onDisk))
    ensures Faithful(AddAll(fs, recursive, st, qs), agree, onDisk)
    decreases |qs|
  {
    hide Good, Faithful, Consistent, Added, FindDeps;
    if qs != [] {
      AddedGood(st, qs[0]);
      AddedFaithful(st, qs[0], agree, onDisk);
      var a := Added(st, qs[0]);
      FindDepsFaithful(fs, recursive, a, qs[0].file, agree, onDisk);
      AddAllFaithful(fs, recursive, AddSourceFile(fs, recursive, st, qs[0]), qs[1..], agree, onDisk);
    }
  }

  lemma AddedUniform(fs: FileSystem, st: State, q: Request)
    requires TableUniform(fs, st)
    ensures TableUniform(fs, Added(st, q)) && TableUniform(fs, NOTHING)
  {
  }

  /** Whatever was added before, the next request tells exactly what it scans. */
  lemma {:induction false} AddAllTold(fs: FileSystem, recursive: bool, st: State, qs: seq<Request>, q: Request)
    requires Good(st) && Uniform(fs) && TableUniform(fs, st)
    ensures var a := Added(AddAll(fs, recursive, st, qs), q);
      TableUniform(fs, a) && Told(fs, a, AddSourceFile(fs, recursive, AddAll(fs, recursive, st, qs), q))
    decreases |qs|
  {
    hide Good, Uniform, Told, Added, FindDeps, TableUniform;
    var next := if qs == [] then q else qs[0];
    AddedGood(st, next);
    AddedUniform(fs, st, next);
    var a := Added(st, next);
    ToldNothing(fs, a, a);
    FindDepsTold(fs, recursive, a, next.file);
    if qs != [] { AddAllTold(fs, recursive, AddSourceFile(fs, recursive, st, qs[0]), qs[1..], q); }
  }

  lemma AddedDeps(st: State, q: Request)
    ensures SameDeps(st, Added(st, q))
  {
  }

  lemma AddedHistory(st: State, q: Request)
    requires ScannedOnce(st) && EdgesKnown(st)
    ensures ScannedOnce(Added(st, q)) && EdgesKnown(Added(st, q))
  {
    hide Added, SameDeps, ScannedOnce, EdgesKnown;
    AddedDeps(st, q);
    HistoryStays(st, Added(st, q));
  }

  lemma AddedCounted(st: State, q: Request)
    requires EdgesKnown(st) && Counted(st)
    ensures Counted(Added(st, q))
  {
    hide Hits;
    if q.file !in st.files { NoHits(st.edges, q.file); }
  }

  lemma AddedFaithful(st: State, q: Request, agree: bool, onDisk: string -> bool)
    requires Good(st) && Faithful(st, agree, onDisk)
    ensures Faithful(Added(st, q), agree, onDisk)
  {
    AddedHistory(st, q);
    AddedCounted(st, q);
    AddedDeps(st, q);
    if agree { RecordedStays(st, Added(st, q), onDisk); }
  }

  lemma NothingFaithful(agree: bool, onDisk: string -> bool)
    ensures Good(NOTHING) && Faithful(NOTHING, agree, onDisk) && Closed(NOTHING, {})
  {
  }

  // A file gets its type only after something else was found to include it, and is not searched.
  predicate LateType(st: State, q: Request) {
    !q.seek && q.kind != Unknown && q.file in st.files && st.files[q.file].kind == Unknown
  }

  ghost predicate DependedOn(st: State, name: string) {
    exists n :: n in st.files && st.files[n].deps.Some? && name in st.files[n].deps.value
  }

  lemma LateNotClosed(st: State, q: Request)
    requires Good(st) && LateType(st, q) && DependedOn(st, q.file)
    ensures !Closed(Added(st, q), {})
  {
    var a := Added(st, q);
    var n :| n in st.files && st.files[n].deps.Some? && q.file in st.files[n].deps.value;
    var i :| 0 <= i < |st.files[n].deps.value| && st.files[n].deps.value[i] == q.file;
    assert GoodNode(st, st.files[q.file]);
    assert a.files[n].deps == st.files[n].deps && !Done(a, a.files[n].deps.value[i]);
    assert !AllDone(a, a.files[n].deps.value);
  }

  lemma AddedClosed(st: State, q: Request, hidden: set<string>)
    requires Good(st) && Closed(st, {})
    requires (forall n :: n in st.files && st.files[n].deps.Some? && q.file in st.files[n].deps.value ==> n in hidden)
      || q.kind == Unknown || (q.file in st.files && st.files[q.file].kind != Unknown)
    ensures Closed(Added(st, q), hidden)
  {
    var r := Added(st, q);
    forall n | n in r.files && n !in hidden && r.files[n].deps.Some? ensures AllDone(r, r.files[n].deps.value) {
      assert n in st.files && AllDone(st, st.files[n].deps.value);
      var deps := r.files[n].deps.value;
      forall i | 0 <= i < |deps| ensures Done(r, deps[i]) { assert Done(st, deps[i]); }
    }
  }

  ghost function Dependents(st: State, name: string): set<string> {
    set n | n in st.files && st.files[n].deps.Some? && name in st.files[n].deps.value
  }

  // Searching the file makes up for its late type.
  lemma SeekClosed(fs: FileSystem, st: State, q: Request)
    requires Good(st) && Closed(st, {})
    ensures Good(Added(st, q))
    ensures Closed(FindDeps(fs, true, Added(st, q), q.file).0, {})
  {
    hide FindDeps;
    AddedGood(st, q);
    var hidden := Dependents(st, q.file);
    var a := Added(st, q);
    AddedClosed(st, q, hidden);
    FindDepsClosed(fs, a, q.file, hidden);
    var r := FindDeps(fs, true, a, q.file).0;
    forall n | n in r.files && r.files[n].deps.Some? ensures AllDone(r, r.files[n].deps.value) {
      if n in hidden {
        assert GoodNode(a, a.files[n]);
        assert r.files[n].deps == st.files[n].deps;
        assert AllDone(st, st.files[n].deps.value);
        var deps := r.files[n].deps.value;
        forall i | 0 <= i < |deps| ensures Done(r, deps[i]) {
          assert Done(st, deps[i]);
          assert deps[i] != q.file ==> Done(a, deps[i]);
        }
      }
    }
  }

  /** In recursive mode a request keeps the recorded graph scanned to the end iff it does not give a
      type, without a search, to a file of unknown type that is already a dependency. */
  lemma AddSourceFileClosed(fs: FileSystem, st: State, q: Request)
    requires Good(st) && Closed(st, {})
    ensures Closed(AddSourceFile(fs, true, st, q), {}) <==> !(LateType(st, q) && DependedOn(st, q.file))
  {
    hide FindDeps, Extends, Closed;
    AddedGood(st, q);
    var a := Added(st, q);
    if q.seek && !a.files[q.file].checked {
      SeekClosed(fs, st, q);
    } else if LateType(st, q) && DependedOn(st, q.file) {
      LateNotClosed(st, q);
    } else {
      if q.file in st.files { assert GoodNode(st, st.files[q.file]); }
      forall n | n in st.files && st.files[n].deps.Some? && q.file in st.files[n].deps.value
        ensures DependedOn(st, q.file) && q.file in st.files
      {
        assert GoodNode(st, st.files[n]);
      }
      AddedClosed(st, q, {});
    }
  }

  /* ---- the closure of the dependencies ---- */

  // No walk is under way.
  ghost predicate Clean(st: State) {
    forall n :: n in st.files ==> !st.files[n].traversed
  }

  // The state with exactly the given files marked.
  function Flagged(st: State, names: seq<string>): State {
    st.(files := map n | n in st.files :: st.files[n].(traversed := n in names))
  }

  function Flag(st: State, name: string, on: bool): State
    requires name in st.files
  {
    st.(files := st.files[name := st.files[name].(traversed := on)])
  }

  lemma FlagOne(st: State, names: seq<string>, name: string)
    requires name in st.files
    ensures Flag(Flagged(st, names), name, true) == Flagged(st, names + [name])
  {
    assert forall n :: n in names + [name] <==> n in names || n == name;
  }

  lemma UnflagFirst(st: State, names: seq<string>)
    requires names != [] && names[0] in st.files && names[0] !in names[1..]
    ensures Flag(Flagged(st, names), names[0], false) == Flagged(st, names[1..])
  {
    assert forall n :: n in names <==> n in names[1..] || n == names[0];
  }

  lemma FlagNone(st: State)
    requires Clean(st)
    ensures Flagged(st, []) == st
  {
    assert Flagged(st, []).files == st.files;
  }

  lemma AddSourceFileClean(fs: FileSystem, recursive: bool, st: State, q: Request)
    requires Good(st) && Clean(st)
    ensures Clean(AddSourceFile(fs, recursive, st, q))
  {
    AddedGood(st, q);
  }

  datatype Vertex = Vertex(present: bool, deps: seq<string>)

  type Graph = map<string, Vertex>

  ghost predicate GoodGraph(g: Graph) {
    forall n :: n in g ==> forall i :: 0 <= i < |g[n].deps| ==> g[n].deps[i] in g
  }

  function GraphOf(st: State): Graph {
    map n | n in st.files :: Vertex(st.files[n].present, if st.files[n].deps.None? then [] else st.files[n].deps.value)
  }

  lemma GraphGood(st: State)
    requires Good(st)
    ensures GoodGraph(GraphOf(st))
  {
    forall n | n in st.files ensures GoodNode(st, st.files[n]) {}
  }

  ghost function Unseen(g: Graph, seen: seq<string>): set<string> {
    set n | n in g && n !in seen
  }

  // The nodes marked so far, in the order of the marking, after the walk from one node.
  function Walk(g: Graph, seen: seq<string>, name: string): (r: seq<string>)
    requires GoodGraph(g) && name in g
    ensures seen <= r
    decreases Unseen(g, seen), 0
  {
    if name in seen || !g[name].present then seen else
      var marked := seen + [name];
      assert name in Unseen(g, seen) && name !in Unseen(g, marked) && Unseen(g, marked) <= Unseen(g, seen) by {
        assert forall n :: n in seen ==> n in marked;
        assert marked[|seen|] == name;
      }
      WalkAll(g, marked, g[name].deps)
  }

  function WalkAll(g: Graph, seen: seq<string>, names: seq<string>): (r: seq<string>)
    requires GoodGraph(g) && forall i :: 0 <= i < |names| ==> names[i] in g
    ensures seen <= r
    decreases Unseen(g, seen), |names| + 1
  {
    if names == [] then seen else
      var next := Walk(g, seen, names[0]);
      assert Unseen(g, next) <= Unseen(g, seen) by { assert forall n :: n in seen ==> n in next; }
      WalkAll(g, next, names[1..])
  }

  lemma WalkStep(g: Graph, seen: seq<string>, name: string)
    requires GoodGraph(g) && name in g
    ensures name in seen || !g[name].present ==> Walk(g, seen, name) == seen
    ensures (name !in seen && g[name].present
      ==> Walk(g, seen, name) == WalkAll(g, seen + [name], g[name].deps) && Unseen(g, seen + [name]) < Unseen(g, seen))
  {
    var marked := seen + [name];
    assert marked[|seen|] == name;
    assert forall n :: n in seen ==> n in marked;
    if name !in seen { assert name in Unseen(g, seen) && name !in Unseen(g, marked); }
  }

  // One turn of the loop over the children.
  lemma WalkAllStep(g: Graph, seen: seq<string>, names: seq<string>, i: nat)
    requires GoodGraph(g) && (forall k :: 0 <= k < |names| ==> names[k] in g) && i < |names|
    ensures WalkAll(g, seen, names[i..]) == WalkAll(g, Walk(g, seen, names[i]), names[i + 1..])
  {
    assert names[i..][0] == names[i] && names[i..][1..] == names[i + 1..];
  }

  lemma WalkAllNone(g: Graph, seen: seq<string>)
    requires GoodGraph(g)
    ensures WalkAll(g, seen, []) == seen
  {
  }

  lemma UnseenShrinks(g: Graph, a: seq<string>, b: seq<string>)
    requires a <= b
    ensures Unseen(g, b) <= Unseen(g, a)
  {
    assert forall n :: n in a ==> n in b;
  }

  lemma GraphKeys(st: State)
    ensures GraphOf(st).Keys == st.files.Keys
  {
  }

  function Dependencies(g: Graph, name: string): seq<string>
    requires GoodGraph(g)
  {
    if name in g then WalkAll(g, [], g[name].deps) else []
  }

  // A way from a dependency of the file to another file over existing files only.
  ghost predicate IsRoute(g: Graph, name: string, p: seq<string>) {
    && name in g && p != [] && p[0] in g[name].deps
    && forall i :: 0 <= i < |p| ==> Stop(g, p, i)
  }

  ghost predicate Stop(g: Graph, p: seq<string>, i: nat)
    requires i < |p|
  {
    p[i] in g && g[p[i]].present && (i + 1 < |p| ==> p[i + 1] in g[p[i]].deps)
  }

  ghost predicate Reaches(g: Graph, name: string, to: string) {
    exists p :: IsRoute(g, name, p) && p[|p| - 1] == to
  }

  // The children of a node are marked, unless they do not exist.
  ghost predicate Swept(g: Graph, seen: seq<string>, name: string) {
    name in g && forall i :: 0 <= i < |g[name].deps| && g[name].deps[i] in g && g[g[name].deps[i]].present ==>
      g[name].deps[i] in seen
  }

  lemma {:induction false} WalkSweeps(g: Graph, seen: seq<string>, name: string)
    requires GoodGraph(g) && name in g && Distinct(seen)
    ensures var r := Walk(g, seen, name);
      && Distinct(r) && (g[name].present ==> name in r)
      && (forall i :: |seen| <= i < |r| ==> Swept(g, r, r[i]))
    decreases Unseen(g, seen), 0
  {
    if name !in seen && g[name].present {
      var marked := seen + [name];
      assert name in Unseen(g, seen) && name !in Unseen(g, marked) && Unseen(g, marked) <= Unseen(g, seen) by {
        assert forall n :: n in seen ==> n in marked;
        assert marked[|seen|] == name;
      }
      WalkAllSweeps(g, marked, g[name].deps);
      var r := Walk(g, seen, name);
      assert r[|seen|] == name;
      assert Swept(g, r, name);
    }
  }

  lemma {:induction false} WalkAllSweeps(g: Graph, seen: seq<string>, names: seq<string>)
    requires GoodGraph(g) && (forall i :: 0 <= i < |names| ==> names[i] in g) && Distinct(seen)
    ensures var r := WalkAll(g, seen, names);
      && Distinct(r) && (forall i :: 0 <= i < |names| && g[names[i]].present ==> names[i] in r)
      && (forall i :: |seen| <= i < |r| ==> Swept(g, r, r[i]))
    decreases Unseen(g, seen), |names| + 1
  {
    if names != [] {
      WalkSweeps(g, seen, names[0]);
      var next := Walk(g, seen, names[0]);
      assert Unseen(g, next) <= Unseen(g, seen) by { assert forall n :: n in seen ==> n in next; }
      WalkAllSweeps(g, next, names[1..]);
      var r := WalkAll(g, seen, names);
      assert forall n :: n in next ==> n in r;
      forall i | 0 <= i < |names| && g[names[i]].present ensures names[i] in r {
        if i > 0 { assert names[i] == names[1..][i - 1]; }
      }
      forall i | |seen| <= i < |r| ensures Swept(g, r, r[i]) {
        if i < |next| { assert r[i] == next[i] && Swept(g, next, next[i]); }
      }
    }
  }

  // What is newly marked is reached from a node whose present dependency started the walk.
  ghost predicate AllReached(g: Graph, root: string, names: seq<string>, k: nat) {
    forall i :: k <= i < |names| ==> Reaches(g, root, names[i])
  }

  lemma {:induction false} WalkReaches(g: Graph, seen: seq<string>, name: string, root: string)
    requires GoodGraph(g) && name in g && (g[name].present ==> Reaches(g, root, name))
    ensures AllReached(g, root, Walk(g, seen, name), |seen|)
    decreases Unseen(g, seen), 0
  {
    hide Reaches;
    if name !in seen && g[name].present {
      var marked := seen + [name];
      assert name in Unseen(g, seen) && name !in Unseen(g, marked) && Unseen(g, marked) <= Unseen(g, seen) by {
        assert forall n :: n in seen ==> n in marked;
        assert marked[|seen|] == name;
      }
      forall i | 0 <= i < |g[name].deps| && g[g[name].deps[i]].present ensures Reaches(g, root, g[name].deps[i]) {
        Further(g, root, name, g[name].deps[i]);
      }
      WalkAllReaches(g, marked, g[name].deps, root);
      var r := Walk(g, seen, name);
      assert r == WalkAll(g, marked, g[name].deps) && r[|seen|] == name;
      forall i | |seen| <= i < |r| ensures Reaches(g, root, r[i]) {
        assert i == |seen| || |marked| <= i;
      }
    }
  }

  lemma Further(g: Graph, root: string, via: string, to: string)
    requires Reaches(g, root, via) && via in g && to in g[via].deps && to in g && g[to].present
    ensures Reaches(g, root, to)
  {
    var p :| IsRoute(g, root, p) && p[|p| - 1] == via;
    var q := p + [to];
    forall i | 0 <= i < |q| ensures Stop(g, q, i) {
      if i < |p| { assert Stop(g, p, i); }
    }
    assert IsRoute(g, root, q);
  }

  lemma {:induction false} WalkAllReaches(g: Graph, seen: seq<string>, names: seq<string>, root: string)
    requires GoodGraph(g) && (forall i :: 0 <= i < |names| ==> names[i] in g)
    requires forall i :: 0 <= i < |names| && g[names[i]].present ==> Reaches(g, root, names[i])
    ensures AllReached(g, root, WalkAll(g, seen, names), |seen|)
    decreases Unseen(g, seen), |names| + 1
  {
    if names != [] {
      WalkReaches(g, seen, names[0], root);
      var next := Walk(g, seen, names[0]);
      assert AllReached(g, root, next, |seen|);
      assert Unseen(g, next) <= Unseen(g, seen) by { assert forall n :: n in seen ==> n in next; }
      WalkAllReaches(g, next, names[1..], root);
      var r := WalkAll(g, seen, names);
      assert r == WalkAll(g, next, names[1..]);
      forall i | |seen| <= i < |r| ensures Reaches(g, root, r[i]) {
        if i < |next| {
          assert r[i] == next[i];
        }
      }
    }
  }

  lemma {:induction false} RouteMarked(g: Graph, name: string, p: seq<string>, k: nat)
    requires GoodGraph(g) && IsRoute(g, name, p) && k < |p|
    ensures p[k] in Dependencies(g, name)
    decreases k
  {
    hide WalkAll;
    var r := Dependencies(g, name);
    WalkAllSweeps(g, [], g[name].deps);
    assert Stop(g, p, k);
    if k == 0 {
      var i :| 0 <= i < |g[name].deps| && g[name].deps[i] == p[0];
    } else {
      RouteMarked(g, name, p, k - 1);
      assert Stop(g, p, k - 1);
      var i :| 0 <= i < |r| && r[i] == p[k - 1];
      assert Swept(g, r, r[i]);
      var j :| 0 <= j < |g[p[k - 1]].deps| && g[p[k - 1]].deps[j] == p[k];
    }
  }

  lemma DirectRoute(g: Graph, name: string, to: string)
    requires name in g && to in g[name].deps && to in g && g[to].present
    ensures Reaches(g, name, to)
  {
    var p := [to];
    assert Stop(g, p, 0);
    assert IsRoute(g, name, p) && p[|p| - 1] == to;
  }

  /** On any graph, with cycles or without, the dependencies are exactly the files reached from the
      direct ones over existing files, each once. */
  lemma DependenciesAreReached(g: Graph, name: string, to: string)
    requires GoodGraph(g) && name in g
    ensures Distinct(Dependencies(g, name))
    ensures to in Dependencies(g, name) <==> Reaches(g, name, to)
  {
    hide Walk, WalkAll, Swept;
    WalkAllSweeps(g, [], g[name].deps);
    forall i | 0 <= i < |g[name].deps| && g[g[name].deps[i]].present ensures Reaches(g, name, g[name].deps[i]) {
      DirectRoute(g, name, g[name].deps[i]);
    }
    WalkAllReaches(g, [], g[name].deps, name);
    if Reaches(g, name, to) {
      var p :| IsRoute(g, name, p) && p[|p| - 1] == to;
      RouteMarked(g, name, p, |p| - 1);
    }
  }
}

/** The source files as objects that are updated in place. */
module SourceDeps {
  import opened Basics
  import opened SourceDepsGraph

  newtype Byte = x: int | 0 <= x < 256

  function Names(fs: seq<SourceFile>): (r: seq<string>)
    ensures |r| == |fs| && forall i :: 0 <= i < |fs| ==> r[i] == fs[i].name
  {
    seq(|fs|, i requires 0 <= i < |fs| => fs[i].name)
  }

  class SourceFile {
    const name: string
    var kind: FileType
    var present: bool
    var traversed: bool
    var depChecked: bool
    var includedCount: Byte
    var deps: Option<seq<SourceFile>>

    constructor (name: string, kind: FileType)
      ensures this.name == name && Value() == NEW_FILE.(kind := kind)
    {
      this.name := name;
      this.kind := kind;
      present, traversed, depChecked, includedCount, deps := true, false, false, 0, None;
    }

    ghost function Value(): Node
      reads this
    {
      Node(kind, present, traversed, depChecked, includedCount as nat,
           match deps case None => None case Some(d) => Some(Names(d)))
    }
  }

  class SourceFileInfo {
    const fs: FileSystem
    var recursive: bool
    var files: map<string, SourceFile>
    var includes: map<string, SourceFile>
    ghost var scanned: seq<string>
    ghost var edges: seq<Edge>

    ghost predicate Holds(f: SourceFile)
      reads this
    {
      f.name in files && files[f.name] == f
    }

    ghost predicate HoldsDeps(f: SourceFile)
      reads this, f
    {
      f.deps.Some? ==> forall i :: 0 <= i < |f.deps.value| ==> Holds(f.deps.value[i])
    }

    ghost predicate Valid()
      reads this, files.Values
    {
      && (forall n :: n in files ==> files[n].name == n && HoldsDeps(files[n]))
      && (forall k :: k in includes ==> Holds(includes[k]))
    }

    ghost function Value(): State
      reads this, files.Values
    {
      State(map n | n in files :: files[n].Value(), map k | k in includes :: includes[k].name, scanned, edges)
    }

    constructor (fs: FileSystem, recursive: bool)
      ensures Valid() && this.fs == fs && this.recursive == recursive && Value() == NOTHING
    {
      this.fs := fs;
      this.recursive := recursive;
      files, includes, scanned, edges := map[], map[], [], [];
    }

    // The file table only grows.
    twostate predicate Grown()
      reads this
    {
      && (forall n :: n in old(files) ==> n in files && files[n] == old(files)[n])
      && recursive == old(recursive)
      && (forall n :: n in files && n !in old(files) ==> fresh(files[n]))
    }

    // The tables after the fields of one file have changed.
    twostate lemma Updated(f: SourceFile)
      requires old(Valid()) && old(Holds(f)) && unchanged(this)
      requires forall n :: n in files && files[n] != f ==> unchanged(files[n])
      requires HoldsDeps(f)
      ensures Valid() && Value() == old(Value()).(files := old(Value()).files[f.name := f.Value()])
    {
      forall n | n in files ensures HoldsDeps(files[n]) && (n != f.name ==> files[n].Value() == old(files[n].Value())) {
        assert old(HoldsDeps(files[n]));
        if n != f.name { assert unchanged(files[n]); }
      }
      assert Value().files == old(Value()).files[f.name := f.Value()];
    }

    // The tables after one file has been added.
    twostate lemma FileAdded(new f: SourceFile)
      requires old(Valid()) && f.name !in old(files) && files == old(files)[f.name := f] && f.deps.None?
      requires includes == old(includes) && scanned == old(scanned) && edges == old(edges)
      requires forall n :: n in old(files) ==> unchanged(old(files)[n])
      ensures Valid() && Value() == old(Value()).(files := old(Value()).files[f.name := f.Value()])
    {
      hide HoldsDeps, Holds, Valid;
      FileAddedValid(f);
      forall n | n in old(files) ensures files[n].Value() == old(files[n].Value()) {
        assert unchanged(files[n]);
      }
      assert Value().files.Keys == old(Value()).files.Keys + {f.name};
      assert Value().files == old(Value()).files[f.name := f.Value()];
    }

    twostate lemma FileAddedValid(new f: SourceFile)
      requires old(Valid()) && f.name !in old(files) && files == old(files)[f.name := f] && f.deps.None?
      requires includes == old(includes)
      requires forall n :: n in old(files) ==> unchanged(old(files)[n])
      ensures Valid()
    {
      forall n | n in files ensures files[n].name == n && HoldsDeps(files[n]) {
        if n != f.name {
          assert old(HoldsDeps(files[n]));
          assert files[n].deps == old(files[n].deps);
        }
      }
      forall k | k in includes ensures Holds(includes[k]) { assert old(Holds(includes[k])); }
    }

    // A new file in the file table.
    method AddFile(name: string, kind: FileType) returns (f: SourceFile)
      requires Valid() && name !in files
      modifies this`files
      ensures Valid() && Grown() && Holds(f) && f.name == name
      ensures Value() == old(Value()).(files := old(Value()).files[name := NEW_FILE.(kind := kind)])
    {
      f := new SourceFile(name, kind);
      files := files[name := f];
      FileAdded(f);
    }

    method AddInclude(key: string, f: SourceFile)
      requires Valid() && Holds(f)
      modifies this`includes
      ensures Valid() && Holds(f)
      ensures Value() == old(Value()).(includes := old(Value()).includes[key := f.name])
    {
      includes := includes[key := f];
      assert forall n :: n in files ==> old(HoldsDeps(files[n]));
      assert Value().files == old(Value()).files;
      assert Value().includes == old(Value()).includes[key := f.name];
    }

    method SetPresent(f: SourceFile, present: bool)
      requires Valid() && Holds(f)
      modifies f
      ensures Valid() && Holds(f)
      ensures var was := old(Value());
        Value() == was.(files := was.files[f.name := was.files[f.name].(present := present)])
    {
      f.present := present;
      assert old(HoldsDeps(f));
      Updated(f);
    }

    method FindInclude(file: SourceFile, d: Directive) returns (dep: SourceFile?)
      requires Valid() && Holds(file)
      modifies this, files.Values
      ensures Valid() && Grown() && Holds(file)
      ensures dep != null <==> Found(fs, old(Value()), file.name, d).Some?
      ensures dep != null ==> Holds(dep) && dep.name == Found(fs, old(Value()), file.name, d).value
      ensures Value() == match Lookup(fs, old(Value()), file.name, d)
                         case None => old(Value())
                         case Some(t) => Enter(old(Value()), t, d)
    {
      if !d.tryLocal && d.inc in includes { return includes[d.inc]; }
      var found := fs.resolve(file.name, d);
      if found.None? { return null; }
      var t := found.value;
      if t.name in files {
        dep := files[t.name];
      } else {
        dep := AddFile(t.name, C);
        AddInclude(if d.tryLocal then t.name else d.inc, dep);
      }
      SetPresent(dep, t.present);
    }

    lemma Fields(f: SourceFile)
      requires Holds(f)
      ensures f.name in Value().files && Value().files[f.name] == f.Value() && Value().edges == edges
      ensures f.deps.Some? == Value().files[f.name].deps.Some? && f.present == Value().files[f.name].present
      ensures f.kind == Value().files[f.name].kind && f.depChecked == Value().files[f.name].checked
      ensures f.deps.Some? ==> Value().files[f.name].deps.value == Names(f.deps.value)
    {
    }

    method Count(f: SourceFile)
      requires Valid() && Holds(f)
      modifies f
      ensures Valid() && Holds(f) && f.present == Value().files[f.name].present
      ensures var was := old(Value()); Value() == was.(files := was.files[f.name := CountUp(was.files[f.name])])
    {
      f.includedCount := ((f.includedCount as int + 1) % 256) as Byte;
      assert old(HoldsDeps(f));
      Updated(f);
    }

    method AddChild(f: SourceFile, child: SourceFile)
      requires Valid() && Holds(f) && Holds(child) && f.deps.Some?
      modifies f
      ensures Valid() && Holds(f)
      ensures old(Value()).files[f.name].deps.Some?
      ensures var node := old(Value()).files[f.name];
        Value() == old(Value()).(
          files := old(Value()).files[f.name := node.(deps := Some(node.deps.value + [child.name]))])
    {
      f.deps := Some(f.deps.value + [child]);
      assert old(HoldsDeps(f));
      Updated(f);
      assert Names(f.deps.value) == Names(old(f.deps.value)) + [child.name];
    }

    ghost method NoteEdge(e: Edge)
      requires Valid()
      modifies this`edges
      ensures Valid() && Value() == old(Value()).(edges := old(edges) + [e])
    {
      edges := edges + [e];
      assert forall n :: n in files ==> old(HoldsDeps(files[n]));
      assert forall k :: k in includes ==> old(Holds(includes[k]));
      assert Value().files == old(Value()).files;
    }

    // The file has a dependency on another, which is counted and, if it exists, recorded.
    method RecordInclude(file: SourceFile, dep: SourceFile)
      requires Valid() && Holds(file) && Holds(dep) && Open(Value(), file.name)
      modifies this`edges, files.Values
      ensures Valid() && Holds(file)
      ensures Value() == Depend(old(Value()), file.name, dep.name)
    {
      hide Valid, Value, HoldsDeps, SourceFile.Value, Good;
      Fields(file);
      NoteEdge(Edge(file.name, dep.name));
      if dep.name != file.name {
        Count(dep);
        Fields(file);
        if dep.present { AddChild(file, dep); }
      }
    }

    method IncludeOne(file: SourceFile, d: Directive)
      requires Valid() && Holds(file) && Open(Value(), file.name)
      modifies this, files.Values
      ensures Valid() && Grown() && Holds(file)
      ensures Value() == Include(fs, old(Value()), file.name, d)
    {
      hide Valid, Value, HoldsDeps, Open, Enter, Depend, Scanning;
      ghost var st := Value();
      var dep := FindInclude(file, d);
      if dep != null {
        if Lookup(fs, st, file.name, d).Some? { EnterStep(st, file.name, Lookup(fs, st, file.name, d).value, d); }
        RecordInclude(file, dep);
      }
    }

    // The include directives of one file.
    method ScanIncludes(file: SourceFile)
      requires Valid() && Holds(file) && Open(Value(), file.name)
      modifies this, files.Values
      ensures Valid() && Grown() && Holds(file)
      ensures Value() == Scan(fs, old(Value()), file.name, fs.scan(file.name, old(file.kind)))
    {
      hide Open, Include, Valid, Scanning;
      var ds := fs.scan(file.name, file.kind);
      ghost var st := Value();
      var i := 0;
      assert ds[0..] == ds;
      while i < |ds|
        invariant 0 <= i <= |ds|
        invariant Valid() && Grown() && Holds(file) && Open(Value(), file.name)
        invariant Scan(fs, Value(), file.name, ds[i..]) == Scan(fs, st, file.name, ds)
      {
        ghost var before := Value();
        IncludeStep(fs, before, file.name, ds[i]);
        IncludeOne(file, ds[i]);
        assert ds[i..][0] == ds[i] && ds[i..][1..] == ds[i + 1..];
        i := i + 1;
      }
    }

    method MarkChecked(f: SourceFile)
      requires Valid() && Holds(f)
      modifies f
      ensures Valid() && Holds(f) && f.kind == old(f.kind)
      ensures f.name in old(Value()).files && Value() == Marked(old(Value()), f.name)
    {
      f.depChecked := true;
      assert old(HoldsDeps(f));
      Updated(f);
      Fields(f);
    }

    ghost method NoteScanned(name: string)
      requires Valid()
      modifies this`scanned
      ensures Valid() && Value() == old(Value()).(scanned := old(scanned) + [name])
    {
      scanned := scanned + [name];
      assert forall n :: n in files ==> old(HoldsDeps(files[n]));
      assert forall k :: k in includes ==> old(Holds(includes[k]));
      assert Value().files == old(Value()).files;
    }

    method StartDeps(f: SourceFile)
      requires Valid() && Holds(f)
      modifies f
      ensures Valid() && Holds(f) && f.kind == old(f.kind)
      ensures f.name in old(Value()).files
      ensures var node := old(Value()).files[f.name];
        Value() == old(Value()).(
          files := old(Value()).files[f.name := node.(deps := if node.deps.None? then Some([]) else node.deps)])
    {
      if f.deps.None? { f.deps := Some([]); }
      assert old(HoldsDeps(f));
      Updated(f);
    }

    method OpenDeps(f: SourceFile)
      requires Valid() && Holds(f)
      modifies f, this`scanned
      ensures Valid() && Holds(f) && f.kind == old(f.kind)
      ensures f.name in old(Value()).files && Value() == Opened(old(Value()), f.name)
    {
      hide Valid, HoldsDeps;
      StartDeps(f);
      NoteScanned(f.name);
    }

    // The file itself, without what it includes.
    method ScanOne(file: SourceFile) returns (ok: bool)
      requires Valid() && Holds(file) && Good(Value()) && !file.depChecked && file.kind != Unknown
      requires file.name in Value().files
      modifies this, files.Values
      ensures Valid() && Grown() && Holds(file)
      ensures ok == (file.name in fs.readable)
      ensures !ok ==> Value() == Marked(old(Value()), file.name)
      ensures ok ==> Value() == Scan(fs, Opened(Marked(old(Value()), file.name), file.name), file.name,
        fs.scan(file.name, old(file.kind)))
    {
      hide Valid, Value, HoldsDeps, Marked, Opened, Good, SourceFile.Value, Scan, Scanning, Open;
      ghost var st := Value();
      Fields(file);
      ReadyOpen(st, file.name);
      MarkChecked(file);
      if file.name !in fs.readable { return false; }
      OpenDeps(file);
      ScanIncludes(file);
      return true;
    }

    /** The scan of a file and, in recursive mode, of every file it newly depends on. */
    method FindDeps(file: SourceFile) returns (ok: bool)
      requires Valid() && Holds(file) && Good(Value())
      modifies this, files.Values
      ensures Valid() && Grown() && Holds(file) && Good(Value())
      ensures (Value(), ok) == SourceDepsGraph.FindDeps(fs, recursive, old(Value()), file.name)
      decreases fs.readable - Checked(Value()), 0
    {
      hide Valid, Value, HoldsDeps, Marked, Opened, Good, Settled, Scan, ScanFile, SourceDepsGraph.FindDeps, Checked;
      hide SourceFile.Value, Open, FindAll;
      ghost var st := Value();
      Fields(file);
      FindDepsSkips(fs, recursive, st, file.name);
      if file.depChecked || file.kind == Unknown { return true; }
      MarkedGood(st, file.name);
      ok := ScanOne(file);
      if !ok { return; }
      FindDepsScans(fs, recursive, st, file.name);
      Scanned(fs, st, file.name);
      Fields(file);
      if recursive { FindAllDeps(file); }
    }

    // The search of one dependency that has not been searched yet.
    method FindChild(file: SourceFile, i: nat)
      requires Valid() && Holds(file) && Good(Value()) && recursive && file.deps.Some? && i < |file.deps.value|
      modifies this, files.Values
      ensures Valid() && Grown() && Holds(file) && Good(Value()) && old(file.deps.value[i].name) in old(Value()).files
      ensures var st, name := old(Value()), old(file.deps.value[i].name);
        Value() == if st.files[name].deps.None? then SourceDepsGraph.FindDeps(fs, true, st, name).0 else st
      decreases fs.readable - Checked(Value()), 1
    {
      hide Valid, Value, HoldsDeps, Good, Checked, Settled, SourceDepsGraph.FindDeps, SourceFile.Value;
      var child := file.deps.value[i];
      DepHeld(file, i);
      Fields(child);
      if child.deps.None? { var _ := FindDeps(child); }
    }

    method FindAllDeps(file: SourceFile)
      requires Valid() && Holds(file) && Good(Value()) && recursive && file.deps.Some?
      requires Known(Value(), Names(file.deps.value))
      modifies this, files.Values
      ensures Valid() && Grown() && Holds(file) && Good(Value())
      ensures Value() == FindAll(fs, old(Value()), old(Names(file.deps.value)))
      decreases fs.readable - Checked(Value()), 2
    {
      hide Valid, Value, HoldsDeps, Good, Checked, Settled, SourceDepsGraph.FindDeps, FindAll, SourceFile.Value;
      hide Extends, Names, GoodNode;
      ghost var s := Value();
      ghost var deps := Names(file.deps.value);
      assert deps[0..] == deps;
      Fields(file);
      SettledRefl(s);
      var i := 0;
      while i < |file.deps.value|
        invariant Valid() && Grown() && Holds(file) && Good(Value()) && Settled(s, Value())
        invariant file.deps.Some? && Names(file.deps.value) == deps && 0 <= i <= |deps|
        invariant Known(Value(), deps) && recursive
        invariant FindAll(fs, Value(), deps[i..]) == FindAll(fs, s, deps)
        decreases |deps| - i
      {
        ghost var before := Value();
        FindAllStep(fs, before, deps, i);
        SettledChecked(fs, s, before);
        FindChild(file, i);
        SettledTrans(s, before, Value());
        SettledDeps(s, Value(), file.name, deps);
        Fields(file);
        i := i + 1;
      }
      assert deps[i..] == [];
      FindAllNone(fs, Value());
    }

    lemma DepHeld(f: SourceFile, i: nat)
      requires Valid() && Holds(f) && f.deps.Some? && i < |f.deps.value|
      ensures Holds(f.deps.value[i])
    {
      assert HoldsDeps(files[f.name]);
    }

    /** A request for a file: it enters the file table, gets a type and is searched. */
    method AddSourceFile(file: string, seek: bool, kind: FileType)
      requires Valid() && Good(Value())
      modifies this, files.Values
      ensures Valid() && Grown() && Good(Value())
      ensures Value() == SourceDepsGraph.AddSourceFile(fs, recursive, old(Value()), Request(file, seek, kind))
    {
      hide Valid, Value, SourceFile.Value, HoldsDeps, Good, SourceDepsGraph.FindDeps, Extends;
      ghost var st := Value();
      ghost var q := Request(file, seek, kind);
      AddedGood(st, q);
      KeysAre();
      var f;
      if file in files {
        f := files[file];
        Held(f.name, file);
      } else {
        f := AddFile(file, Unknown);
      }
      if kind != Unknown { SetKind(f, kind); }
      Fields(f);
      if seek && !f.depChecked { var _ := FindDeps(f); }
    }

    lemma KeysAre()
      ensures Value().files.Keys == files.Keys
    {
    }

    lemma Held(name: string, key: string)
      requires Valid() && key in files && files[key].name == name
      ensures name == key && Holds(files[key])
    {
    }

    method SetKind(f: SourceFile, kind: FileType)
      requires Valid() && Holds(f)
      modifies f
      ensures Valid() && Holds(f)
      ensures f.name in old(Value()).files
      ensures Value() == old(Value()).(files := old(Value()).files[f.name := old(Value()).files[f.name].(kind := kind)])
    {
      f.kind := kind;
      assert old(HoldsDeps(f));
      Updated(f);
    }

    method Included(file: string) returns (n: int)
      requires Valid()
      ensures n == if file in Value().files then Value().files[file].count else 0
    {
      n := if file in files then files[file].includedCount as int else 0;
    }

    method SetTraversed(f: SourceFile, on: bool)
      requires Valid() && Holds(f)
      modifies f
      ensures Valid() && Holds(f) && f.deps == old(f.deps)
      ensures f.name in old(Value()).files && Value() == Flag(old(Value()), f.name, on)
    {
      f.traversed := on;
      assert old(HoldsDeps(f));
      Updated(f);
    }

    ghost predicate HoldsAll(s: seq<SourceFile>)
      reads this
    {
      forall i :: 0 <= i < |s| ==> Holds(s[i])
    }

    lemma WalkFields(f: SourceFile, base: State, seen: seq<string>)
      requires Holds(f) && Value() == Flagged(base, seen)
      ensures f.name in base.files && f.name in GraphOf(base)
      ensures f.traversed == (f.name in seen) && f.present == GraphOf(base)[f.name].present
      ensures GraphOf(base)[f.name].deps == if f.deps.None? then [] else Names(f.deps.value)
    {
      Fields(f);
    }

    /** Marks, in the given place, what can be reached and is not marked yet. */
    method DependTreeWalker(node: SourceFile, place: seq<SourceFile>, ghost base: State) returns (r: seq<SourceFile>)
      requires Valid() && Holds(node) && HoldsAll(place) && GoodGraph(GraphOf(base))
      requires Value() == Flagged(base, Names(place))
      modifies files.Values
      ensures Valid() && HoldsAll(r) && node.name in GraphOf(base)
      ensures Names(r) == Walk(GraphOf(base), Names(place), node.name)
      ensures Value() == Flagged(base, Names(r))
      decreases Unseen(GraphOf(base), Names(place)), 0
    {
      hide Valid, Value, SourceFile.Value, HoldsDeps, Flagged, Flag, GraphOf;
      r := place;
      WalkFields(node, base, Names(place));
      ghost var g := GraphOf(base);
      WalkStep(g, Names(place), node.name);
      if node.traversed || !node.present { return; }
      r := r + [node];
      assert Names(r) == Names(place) + [node.name];
      SetTraversed(node, true);
      FlagOne(base, Names(place), node.name);
      if node.deps.Some? {
        r := WalkDeps(node, r, base);
      }
    }

    method WalkDeps(node: SourceFile, place: seq<SourceFile>, ghost base: State) returns (r: seq<SourceFile>)
      requires Valid() && Holds(node) && HoldsAll(place) && GoodGraph(GraphOf(base)) && node.deps.Some?
      requires Value() == Flagged(base, Names(place))
      modifies files.Values
      ensures Valid() && HoldsAll(r) && node.name in GraphOf(base)
      ensures Names(r) == WalkAll(GraphOf(base), Names(place), GraphOf(base)[node.name].deps)
      ensures Value() == Flagged(base, Names(r))
      decreases Unseen(GraphOf(base), Names(place)), 1
    {
      hide Valid, Value, SourceFile.Value, HoldsDeps, Flagged, Flag, GraphOf, Walk, WalkAll, Unseen;
      ghost var g := GraphOf(base);
      WalkFields(node, base, Names(place));
      ghost var deps := g[node.name].deps;
      r := place;
      var i := 0;
      assert deps[0..] == deps;
      while i < |node.deps.value|
        invariant Valid() && HoldsAll(r) && Value() == Flagged(base, Names(r))
        invariant node.deps.Some? && Names(node.deps.value) == deps && 0 <= i <= |deps|
        invariant Names(place) <= Names(r)
        invariant WalkAll(g, Names(r), deps[i..]) == WalkAll(g, Names(place), deps)
        decreases |deps| - i
      {
        DepHeld(node, i);
        WalkAllStep(g, Names(r), deps, i);
        UnseenShrinks(g, Names(place), Names(r));
        r := DependTreeWalker(node.deps.value[i], r, base);
        WalkFields(node, base, Names(r));
        i := i + 1;
      }
      assert deps[i..] == [];
      WalkAllNone(g, Names(r));
    }

    /** The names of all files the given one depends on; the marks are taken back. */
    method Dependencies(file: string) returns (ret: seq<string>)
      requires Valid() && Good(Value()) && Clean(Value())
      modifies files.Values
      ensures Valid() && Value() == old(Value())
      ensures GoodGraph(GraphOf(Value())) && ret == SourceDepsGraph.Dependencies(GraphOf(Value()), file)
    {
      hide Valid, Value, SourceFile.Value, HoldsDeps, Flagged, Flag, GraphOf, WalkAll, Good, Clean;
      ghost var base := Value();
      ghost var g := GraphOf(base);
      GraphGood(base);
      KeysAre();
      GraphKeys(base);
      FlagNone(base);
      ret := [];
      if file !in files { return; }
      var node := files[file];
      Held(node.name, file);
      WalkFields(node, base, []);
      if node.deps.None? {
        WalkAllNone(g, []);
        return;
      }
      assert Names([]) == [];
      var place := WalkDeps(node, [], base);
      WalkAllSweeps(g, [], g[file].deps);
      ret := Reset(place, base);
    }

    method Reset(place: seq<SourceFile>, ghost base: State) returns (ret: seq<string>)
      requires Valid() && HoldsAll(place) && Distinct(Names(place)) && Value() == Flagged(base, Names(place))
      requires Clean(base)
      modifies files.Values
      ensures Valid() && Value() == base && ret == Names(place)
    {
      hide Valid, Value, SourceFile.Value, HoldsDeps, Flagged, Flag, Clean;
      ghost var names := Names(place);
      ret := [];
      assert names[0..] == names;
      for i := 0 to |place|
        invariant Valid() && Value() == Flagged(base, names[i..])
        invariant ret == names[..i]
      {
        assert Holds(place[i]);
        WalkFields(place[i], base, names[i..]);
        SetTraversed(place[i], false);
        assert names[i..][1..] == names[i + 1..];
        UnflagFirst(base, names[i..]);
        ret := ret + [place[i].name];
      }
      assert names[|place|..] == [] && names[..|place|] == names;
      FlagNone(base);
    }
  }
}
