/** The source root and the build root of a shadow build. */
module ShadowBuild {
  import opened Basics

  predicate EndsInSlash(path: string) {
    path != [] && path[|path| - 1] == '/'
  }

  function Slashed(path: string): string {
    if EndsInSlash(path) then path else path + "/"
  }

  // A common end that starts at a slash and is not the whole of either path.
  ghost predicate CommonEnd(src: string, dst: string, n: nat) {
    && 0 < n < |src| && n < |dst|
    && src[|src| - n] == '/' && src[|src| - n..] == dst[|dst| - n..]
  }

  /** The longest such end, or nothing. */
  ghost predicate LongestEnd(src: string, dst: string, n: nat) {
    && (n == 0 || CommonEnd(src, dst, n))
    && forall m: nat :: CommonEnd(src, dst, m) ==> m <= n
  }

  predicate SameEnd(src: string, dst: string, k: nat) {
    k <= |src| && k <= |dst| && src[|src| - k..] == dst[|dst| - k..]
  }

  // The largest end of at most k characters that starts at a slash, or nothing.
  function LastSlash(src: string, k: nat): (n: nat)
    requires k <= |src|
    ensures n <= k && (n > 0 ==> SlashAt(src, n))
    ensures forall m :: n < m <= k ==> !SlashAt(src, m)
  {
    if k == 0 || SlashAt(src, k) then k else LastSlash(src, k - 1)
  }

  predicate SlashAt(src: string, m: nat)
    requires 0 < m <= |src|
  {
    src[|src| - m] == '/'
  }

  lemma LastSlashStep(src: string, k: nat)
    requires k < |src|
    ensures LastSlash(src, k + 1) == if src[|src| - k - 1] == '/' then k + 1 else LastSlash(src, k)
    ensures LastSlash(src, 0) == 0
  {
  }

  lemma NoEnd(src: string, dst: string)
    ensures SameEnd(src, dst, 0)
  {
  }

  lemma OneMore(src: string, dst: string, k: nat)
    requires SameEnd(src, dst, k) && k < |src| && k < |dst|
    ensures SameEnd(src, dst, k + 1) <==> src[|src| - k - 1] == dst[|dst| - k - 1]
  {
    var a, b := src[|src| - k - 1..], dst[|dst| - k - 1..];
    assert a == [src[|src| - k - 1]] + src[|src| - k..];
    assert b == [dst[|dst| - k - 1]] + dst[|dst| - k..];
  }

  lemma ShorterEnd(src: string, dst: string, k: nat, m: nat)
    requires SameEnd(src, dst, k) && m <= k
    ensures SameEnd(src, dst, m)
  {
    assert src[|src| - m..] == src[|src| - k..][k - m..];
    assert dst[|dst| - m..] == dst[|dst| - k..][k - m..];
  }

  lemma NotLonger(src: string, dst: string, k: nat, m: nat)
    requires SameEnd(src, dst, m) && !SameEnd(src, dst, k + 1)
    ensures m <= k
  {
    hide SameEnd;
    if m > k { ShorterEnd(src, dst, m, k + 1); }
  }

  // Where the comparison ends.
  lemma EndsThere(src: string, dst: string, k: nat)
    requires k < |src| && k < |dst| && SameEnd(src, dst, k)
    requires k + 1 == |src| || k + 1 == |dst| || !SameEnd(src, dst, k + 1)
    ensures LongestEnd(src, dst, LastSlash(src, k))
  {
    var n := LastSlash(src, k);
    ShorterEnd(src, dst, k, n);
    forall m: nat | CommonEnd(src, dst, m) ensures m <= n {
      if k + 1 < |src| && k + 1 < |dst| { NotLonger(src, dst, k, m); }
      assert SlashAt(src, m);
    }
  }

  // Where an end of that many characters starts; the last slash itself is always stripped.
  function LeftOf(path: string, n: nat): (r: nat)
    requires path != []
    ensures r <= |path|
  {
    if n == 0 then |path| - 1 else if n <= |path| then |path| - n else 0
  }

  // The length of the common end, given where it starts in the source path.
  function Stripped(src: string, dst: string, srcEnd: nat): nat
    requires srcEnd <= |src|
  {
    if |src| == 1 || |dst| == 1 then 0 else |src| - srcEnd
  }

  /** The roots are what is left of the two directories without their longest common end. */
  ghost predicate AreRoots(inputDir: string, outputDir: string, n: nat, sourceRoot: string, buildRoot: string) {
    var src, dst := Slashed(inputDir), Slashed(outputDir);
    && LongestEnd(src, dst, n) && (n == 0 ==> |src| == 1 || |dst| == 1)
    && sourceRoot == src[..LeftOf(src, n)] && buildRoot == dst[..LeftOf(dst, n)]
  }

  // The path in the build tree.
  function Shadowed(sourceRoot: string, buildRoot: string, fileName: string): Option<string> {
    if sourceRoot == "" then Some(fileName)
    else if sourceRoot <= fileName && (|fileName| == |sourceRoot| || fileName[|sourceRoot|] == '/') then
      Some(buildRoot + fileName[|sourceRoot|..])
    else None
  }

  predicate Under(r: string) {
    r == "" || r[0] == '/'
  }

  /** Everything in the source directory goes to the same place in the build directory. */
  ghost predicate Mirrors(inputDir: string, outputDir: string, sourceRoot: string, buildRoot: string) {
    forall r: string :: Under(r) ==> Shadowed(sourceRoot, buildRoot, inputDir + r) == Some(outputDir + r)
  }

  lemma RootsOf(inputDir: string, outputDir: string, n: nat, sourceRoot: string,
                buildRoot: string) returns (end: string)
    requires AreRoots(inputDir, outputDir, n, sourceRoot, buildRoot) && n > 0
    ensures Slashed(inputDir) == sourceRoot + end && Slashed(outputDir) == buildRoot + end
    ensures end != [] && end[0] == '/' && sourceRoot != "" && buildRoot != ""
  {
    hide Slashed;
    var src, dst := Slashed(inputDir), Slashed(outputDir);
    assert CommonEnd(src, dst, n);
    end := src[|src| - n..];
    assert src == src[..|src| - n] + end && dst == dst[..|dst| - n] + end;
  }

  lemma RootsAtRoot(inputDir: string, outputDir: string, sourceRoot: string, buildRoot: string)
    requires AreRoots(inputDir, outputDir, 0, sourceRoot, buildRoot)
    requires inputDir != "" && inputDir != "/" && EndsInSlash(inputDir) == EndsInSlash(outputDir) && outputDir != ""
    ensures inputDir == sourceRoot + "/" && outputDir == buildRoot + "/" && sourceRoot != ""
  {
    hide LongestEnd;
    assert Slashed(outputDir) == "/" && outputDir == "/";
  }

  lemma MirrorsAtRoot(inputDir: string, outputDir: string, sourceRoot: string, buildRoot: string, r: string)
    requires AreRoots(inputDir, outputDir, 0, sourceRoot, buildRoot) && Under(r)
    requires inputDir != "" && inputDir != "/" && EndsInSlash(inputDir) == EndsInSlash(outputDir) && outputDir != ""
    ensures Shadowed(sourceRoot, buildRoot, inputDir + r) == Some(outputDir + r)
  {
    hide LongestEnd, Shadowed;
    RootsAtRoot(inputDir, outputDir, sourceRoot, buildRoot);
    ShadowedUnder(sourceRoot, buildRoot, "/" + r);
    Regroup(sourceRoot, "/", r);
    Regroup(buildRoot, "/", r);
  }

  lemma MirrorsBelow(inputDir: string, outputDir: string, end: string, sourceRoot: string, buildRoot: string, r: string)
    requires Slashed(inputDir) == sourceRoot + end && Slashed(outputDir) == buildRoot + end
    requires end != [] && end[0] == '/' && sourceRoot != "" && Under(r)
    requires EndsInSlash(inputDir) == EndsInSlash(outputDir)
    ensures Shadowed(sourceRoot, buildRoot, inputDir + r) == Some(outputDir + r)
  {
    hide Shadowed;
    var tail := if EndsInSlash(inputDir) then end else end[..|end| - 1];
    WithoutSlash(inputDir, sourceRoot, end);
    WithoutSlash(outputDir, buildRoot, end);
    assert inputDir + r == sourceRoot + (tail + r) && outputDir + r == buildRoot + (tail + r);
    ShadowedUnder(sourceRoot, buildRoot, tail + r);
  }

  lemma WithoutSlash(path: string, root: string, end: string)
    requires Slashed(path) == root + end && end != []
    ensures path == root + (if EndsInSlash(path) then end else end[..|end| - 1])
  {
    var s := Slashed(path);
    if !EndsInSlash(path) {
      assert path == s[..|s| - 1];
      assert s[..|s| - 1] == root + end[..|end| - 1];
    }
  }

  lemma MirrorsOne(inputDir: string, outputDir: string, n: nat, sourceRoot: string, buildRoot: string, r: string)
    requires AreRoots(inputDir, outputDir, n, sourceRoot, buildRoot) && Under(r)
    requires inputDir != "" && inputDir != "/" && EndsInSlash(inputDir) == EndsInSlash(outputDir) && outputDir != ""
    ensures Shadowed(sourceRoot, buildRoot, inputDir + r) == Some(outputDir + r)
  {
    hide LongestEnd, Shadowed;
    if n == 0 {
      MirrorsAtRoot(inputDir, outputDir, sourceRoot, buildRoot, r);
    } else {
      var end := RootsOf(inputDir, outputDir, n, sourceRoot, buildRoot);
      MirrorsBelow(inputDir, outputDir, end, sourceRoot, buildRoot, r);
    }
  }

  lemma ShadowedUnder(sourceRoot: string, buildRoot: string, tail: string)
    requires sourceRoot != "" && Under(tail)
    ensures Shadowed(sourceRoot, buildRoot, sourceRoot + tail) == Some(buildRoot + tail)
  {
    assert (sourceRoot + tail)[|sourceRoot|..] == tail;
  }

  /** For two directories, the build tree mirrors the source directory iff that is neither empty nor
      the root directory and either both or none of the two are given with a slash at the end. */
  lemma MirrorsIff(inputDir: string, outputDir: string, n: nat, sourceRoot: string, buildRoot: string)
    requires inputDir != outputDir && outputDir != "" && AreRoots(inputDir, outputDir, n, sourceRoot, buildRoot)
    ensures Mirrors(inputDir, outputDir, sourceRoot, buildRoot)
      <==> inputDir != "" && inputDir != "/" && EndsInSlash(inputDir) == EndsInSlash(outputDir)
  {
    hide LongestEnd, Shadowed;
    if inputDir != "" && inputDir != "/" && EndsInSlash(inputDir) == EndsInSlash(outputDir) {
      forall r: string | Under(r) ensures Shadowed(sourceRoot, buildRoot, inputDir + r) == Some(outputDir + r) {
        MirrorsOne(inputDir, outputDir, n, sourceRoot, buildRoot, r);
      }
    } else {
      NotMirrored(inputDir, outputDir, n, sourceRoot, buildRoot);
      assert Under("") && inputDir + "" == inputDir && outputDir + "" == outputDir;
    }
  }

  // The source directory itself is misplaced.
  lemma NotMirrored(inputDir: string, outputDir: string, n: nat, sourceRoot: string, buildRoot: string)
    requires inputDir != outputDir && outputDir != "" && AreRoots(inputDir, outputDir, n, sourceRoot, buildRoot)
    requires inputDir == "" || inputDir == "/" || EndsInSlash(inputDir) != EndsInSlash(outputDir)
    ensures Shadowed(sourceRoot, buildRoot, inputDir) != Some(outputDir)
  {
    var src, dst := Slashed(inputDir), Slashed(outputDir);
    if |src| == 1 {
      assert n == 0;
      assert sourceRoot == "";
    } else {
      var r := Shadowed(sourceRoot, buildRoot, inputDir);
      if r.Some? {
        assert sourceRoot != "";
        assert |r.value| == |buildRoot| + |inputDir| - |sourceRoot|;
      }
    }
  }

  // The same, seen from one file.
  ghost predicate Mirrored(sourceRoot: string, buildRoot: string, fileName: string, r: Option<string>) {
    forall inputDir: string, outputDir: string, n: nat, t: string ::
      AreRoots(inputDir, outputDir, n, sourceRoot, buildRoot) && Under(t) && fileName == inputDir + t
      && inputDir != "" && inputDir != "/" && outputDir != "" && EndsInSlash(inputDir) == EndsInSlash(outputDir)
      ==> r == Some(outputDir + t)
  }

  lemma MirrorsFile(sourceRoot: string, buildRoot: string, fileName: string)
    ensures Mirrored(sourceRoot, buildRoot, fileName, Shadowed(sourceRoot, buildRoot, fileName))
  {
    hide AreRoots, Shadowed, EndsInSlash;
    forall inputDir: string, outputDir: string, n: nat, t: string
      | AreRoots(inputDir, outputDir, n, sourceRoot, buildRoot) && Under(t) && fileName == inputDir + t
        && inputDir != "" && inputDir != "/" && outputDir != "" && EndsInSlash(inputDir) == EndsInSlash(outputDir)
      ensures Shadowed(sourceRoot, buildRoot, fileName) == Some(outputDir + t)
    {
      MirrorsOne(inputDir, outputDir, n, sourceRoot, buildRoot, t);
    }
  }

  /** No two paths have the same shadow. */
  lemma ShadowedInjective(sourceRoot: string, buildRoot: string, a: string, b: string)
    requires Shadowed(sourceRoot, buildRoot, a).Some?
    requires Shadowed(sourceRoot, buildRoot, a) == Shadowed(sourceRoot, buildRoot, b)
    ensures a == b
  {
    if sourceRoot != "" {
      var x := Shadowed(sourceRoot, buildRoot, a).value;
      assert a == sourceRoot + x[|buildRoot|..];
      assert b == sourceRoot + x[|buildRoot|..];
    }
  }

  class Globals {
    var sourceRoot: string
    var buildRoot: string

    constructor ()
      ensures sourceRoot == "" && buildRoot == ""
    {
      sourceRoot, buildRoot := "", "";
    }

    // How much is left of the two paths, which end in slashes, without the longest common end.
    method FindRoots(srcpath: string, dstpath: string) returns (srcEnd: nat, dstEnd: nat)
      requires EndsInSlash(srcpath) && EndsInSlash(dstpath)
      ensures srcEnd <= |srcpath|
      ensures var n := Stripped(srcpath, dstpath, srcEnd);
        LongestEnd(srcpath, dstpath, n) && srcEnd == LeftOf(srcpath, n) && dstEnd == LeftOf(dstpath, n)
    {
      hide SameEnd, LastSlash, LongestEnd;
      ghost var n := 0;
      var srcLen, dstLen, lastSl := |srcpath|, |dstpath|, -1;
      lastSl, srcLen, dstLen := lastSl + 1, srcLen - 1, dstLen - 1;
      ghost var k := 0;
      LastSlashStep(srcpath, 0);
      NoEnd(srcpath, dstpath);
      while srcLen != 0 && dstLen != 0 && srcpath[srcLen] == dstpath[dstLen]
        invariant 0 <= k && srcLen == |srcpath| - 1 - k >= 0 && dstLen == |dstpath| - 1 - k >= 0
        invariant SameEnd(srcpath, dstpath, k) && n == LastSlash(srcpath, k) && n <= k
        invariant n == 0 <==> k == 0
        // The last slash lies lastSl characters behind what is compared next.
        invariant lastSl == if n == 0 then 0 else k + 1 - n
      {
        OneMore(srcpath, dstpath, k);
        LastSlashStep(srcpath, k);
        if srcpath[srcLen] == '/' {
          lastSl := 0;
        }
        k := k + 1;
        n := LastSlash(srcpath, k);
        lastSl, srcLen, dstLen := lastSl + 1, srcLen - 1, dstLen - 1;
      }
      if srcLen != 0 && dstLen != 0 { OneMore(srcpath, dstpath, k); }
      EndsThere(srcpath, dstpath, k);
      return srcLen + lastSl, dstLen + lastSl;
    }

    /** Unless the build takes place in the source, the longest common end is stripped off. */
    method SetDirectories(inputDir: string, outputDir: string) returns (ghost n: nat)
      modifies this
      ensures (inputDir == outputDir || outputDir == ""
        ==> sourceRoot == old(sourceRoot) && buildRoot == old(buildRoot))
      ensures (inputDir != outputDir && outputDir != ""
        ==> AreRoots(inputDir, outputDir, n, sourceRoot, buildRoot))
    {
      hide LongestEnd;
      n := 0;
      if inputDir != outputDir && outputDir != "" {
        var srcpath := inputDir;
        if !EndsInSlash(srcpath) { srcpath := srcpath + "/"; }
        var dstpath := outputDir;
        if !EndsInSlash(dstpath) { dstpath := dstpath + "/"; }
        var srcEnd, dstEnd;
        srcEnd, dstEnd := FindRoots(srcpath, dstpath);
        n := Stripped(srcpath, dstpath, srcEnd);
        sourceRoot := srcpath[..srcEnd];
        buildRoot := dstpath[..dstEnd];
      }
    }

    /** A file in the source directory has the same place in the build directory. */
    function ShadowedPath(fileName: string): (r: Option<string>)
      reads this
      ensures Mirrored(sourceRoot, buildRoot, fileName, r)
      ensures r == Shadowed(sourceRoot, buildRoot, fileName)
    {
      MirrorsFile(sourceRoot, buildRoot, fileName);
      if sourceRoot == "" then Some(fileName)
      else if sourceRoot <= fileName && (|fileName| == |sourceRoot| || fileName[|sourceRoot|] == '/') then
        Some(buildRoot + fileName[|sourceRoot|..])
      else None
    }
  }
}
