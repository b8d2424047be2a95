// The specification of doPackage and of main's loop over packages: the
// discovery pass (printNode only sets found; -package prints the package
// comment straight away), the printing pass entered only when some file was
// found, pkgComments, and the exit on a regular expression that does not compile.

module Package {
  import opened Text
  import opened Syntax
  import opened Options
  import opened Matching
  import opened Locators
  import opened Walk

  /** What doPackage reads besides the package: the flags, the regexp engine, the target and the roots. */
  datatype Context = Context(flags: Flags, engine: RegexEngine, ident: string, roots: Roots)

  /** The File doPackage builds for file i of the package. */
  function NewFileInfo(c: Context, i: nat, name: string): (r: FileInfo)
    ensures r.index == i && r.name == name && r.ident == c.ident
    ensures r.regexp.Some? <==> HasSpecial(c.ident)
    ensures var p := ChoosePrefixes(name, c.roots); r.pathPrefix == p.pathPrefix && r.urlPrefix == p.urlPrefix
  {
    var p := ChoosePrefixes(name, c.roots);
    FileInfo(i, name, c.ident, Target(c.ident), p.pathPrefix, p.urlPrefix)
  }

  function FileVisitor(c: Context, fi: FileInfo, doPrint: bool, objs: map<Pos, TypeObj>): Visitor {
    Visitor(c.flags, c.engine, fi, doPrint, objs)
  }

  /** The line pkgComments prints for a file with a package comment: URL, locator and text, each under its flag. */
  function PkgCommentText(f: Flags, fi: FileInfo, ast: AstFile): (r: string)
    requires ast.doc.Some?
    ensures !f.urlFlag && !f.srcFlag && !f.docFlag ==> r == ""
    ensures f.urlFlag ==> HasPrefix(r, PackageURL(fi.name, fi.pathPrefix, fi.urlPrefix) + "\n")
    ensures var d := "package " + ast.pkgName + "\n" + ast.doc.value.text + "\n\n";
            f.docFlag ==> |r| >= |d| && r[|r| - |d|..] == d
    ensures !f.docFlag && f.srcFlag ==> |r| >= 2 && r[|r| - 2..] == ":\n"
    ensures var d := "package " + ast.pkgName + "\n" + ast.doc.value.text + "\n\n";
            r == (if f.urlFlag then PackageURL(fi.name, fi.pathPrefix, fi.urlPrefix) + "\n" else "") +
                 SourcePos(f.srcFlag, fi.name, ast.doc.value.line) + (if f.docFlag then d else "")
  {
    var url := if f.urlFlag then PackageURL(fi.name, fi.pathPrefix, fi.urlPrefix) + "\n" else "";
    var pos := SourcePos(f.srcFlag, fi.name, ast.doc.value.line);
    var d := "package " + ast.pkgName + "\n" + ast.doc.value.text + "\n\n";
    var docText := if f.docFlag then d else "";
    ConcatEnds(url, pos, docText);
    url + pos + docText
  }

  /** File.pkgComments: one line for a file with a package comment, nothing for one without. */
  function PkgComments(f: Flags, fi: FileInfo, ast: AstFile, out: seq<Piece>): (r: seq<Piece>)
    ensures ast.doc.None? ==> r == out
    ensures ast.doc.Some? ==> r == out + [Text(PkgCommentText(f, fi, ast))]
    ensures NoBodies(out) ==> NoBodies(r)
  {
    if ast.doc.None? then out else out + [Text(PkgCommentText(f, fi, ast))]
  }

  /** The state of doPackage's first loop: the ASTs, the files slice, found, the output, and the exit taken. */
  datatype Scan = Scan(asts: seq<AstFile>, files: seq<FileInfo>, found: bool, out: seq<Piece>, failure: Option<Failure>)

  predicate FilesIn(files: seq<FileInfo>, asts: seq<AstFile>) {
    forall t :: 0 <= t < |files| ==> files[t].index < |asts|
  }

  /** The target is a regular expression that regexp.Compile rejects. */
  predicate BadTarget(c: Context) {
    IsRegexp(c.ident) && !c.engine.compiles(Anchored(c.ident))
  }

  /** Whether the first loop keeps a file, rather than skipping it: -package skips the files without a package comment. */
  predicate Kept(c: Context, ast: AstFile) {
    !(c.flags.packageFlag && ast.doc.None?)
  }

  /** Some file of the package is kept. */
  predicate KeepsAny(c: Context, asts: seq<AstFile>) {
    exists t :: 0 <= t < |asts| && Kept(c, asts[t])
  }

  /** One file doPackage keeps in its first loop: its File is appended, and walked (or its package comment printed) unless found is already set. */
  function KeepFile(c: Context, i: nat, s: Scan): (r: Scan)
    requires i < |s.asts| && FilesIn(s.files, s.asts) && s.failure.None?
    ensures |r.asts| == |s.asts| && FilesIn(r.files, r.asts) && r.failure.None?
  {
    var fi := NewFileInfo(c, i, s.asts[i].name);
    var s1 := s.(files := s.files + [fi]);
    if s.found then s1
    else if c.flags.packageFlag then s1.(out := PkgComments(c.flags, fi, s.asts[i], s.out))
    else
      var w := WalkFile(FileVisitor(c, fi, false, map[]), 0, State(s.asts, false, s.out));
      s1.(asts := w.asts, found := w.found)
  }

  /** The first loop of doPackage over the package's files, from the i-th on. */
  function Discover(c: Context, i: nat, s: Scan): (r: Scan)
    requires i <= |s.asts| && FilesIn(s.files, s.asts) && s.failure.None?
    decreases |s.asts| - i
    ensures |r.asts| == |s.asts| && FilesIn(r.files, r.asts)
  {
    if i == |s.asts| then s
    else if c.flags.packageFlag && s.asts[i].doc.None? then Discover(c, i + 1, s)
    else if BadTarget(c) then s.(failure := Some(BadRegexp(Anchored(c.ident))))
    else Discover(c, i + 1, KeepFile(c, i, s))
  }

  lemma DiscoverStep(c: Context, i: nat, s: Scan)
    requires i < |s.asts| && FilesIn(s.files, s.asts) && s.failure.None?
    ensures Discover(c, i, s) ==
            if c.flags.packageFlag && s.asts[i].doc.None? then Discover(c, i + 1, s)
            else if BadTarget(c) then s.(failure := Some(BadRegexp(Anchored(c.ident))))
            else Discover(c, i + 1, KeepFile(c, i, s))
  {
  }

  lemma DiscoverDone(c: Context, s: Scan)
    requires FilesIn(s.files, s.asts) && s.failure.None?
    ensures Discover(c, |s.asts|, s) == s
  {
  }

  /** What the first loop may change, and how: one step. */
  ghost predicate FirstLoopStep(c: Context, s: Scan, r: Scan) {
    && SameShape(s.asts, r.asts)
    && |r.out| >= |s.out| && r.out[..|s.out|] == s.out
    && (NoBodies(s.out) ==> NoBodies(r.out))
    && (!c.flags.packageFlag ==> r.out == s.out)
    && (c.flags.packageFlag ==> r.asts == s.asts && r.found == s.found)
    && (s.found ==> r.found)
  }

  /** A kept file is appended to the slice; found is set only by a walk in the first pass, which prints nothing. */
  lemma KeepFileFacts(c: Context, i: nat, s: Scan)
    requires i < |s.asts| && FilesIn(s.files, s.asts) && s.failure.None?
    ensures var r := KeepFile(c, i, s);
            FirstLoopStep(c, s, r) && r.files == s.files + [NewFileInfo(c, i, s.asts[i].name)] &&
            (s.found ==> r == s.(files := r.files))
  {
  }

  lemma {:induction false} DiscoverFacts(c: Context, i: nat, s: Scan)
    requires i <= |s.asts| && FilesIn(s.files, s.asts) && s.failure.None?
    decreases |s.asts| - i
    ensures var r := Discover(c, i, s);
            FirstLoopStep(c, s, r) && (r.failure.Some? ==> BadTarget(c) && r.failure == Some(BadRegexp(Anchored(c.ident))))
  {
    if i < |s.asts| {
      if c.flags.packageFlag && s.asts[i].doc.None? {
        DiscoverFacts(c, i + 1, s);
      } else if !BadTarget(c) {
        var k := KeepFile(c, i, s);
        KeepFileFacts(c, i, s);
        DiscoverFacts(c, i + 1, k);
        var r := Discover(c, i + 1, k);
        assert r.out[..|s.out|] == r.out[..|k.out|][..|s.out|];
      }
    }
  }

  /** One file of doPackage's second loop, with doPrint set. */
  function PrintFile(c: Context, objs: map<Pos, TypeObj>, fi: FileInfo, asts: seq<AstFile>, out: seq<Piece>): (r: State)
    requires fi.index < |asts|
    ensures |r.asts| == |asts|
  {
    if c.flags.packageFlag then State(asts, false, PkgComments(c.flags, fi, asts[fi.index], out))
    else WalkFile(FileVisitor(c, fi, true, objs), 0, State(asts, false, out))
  }

  /** doPackage's second loop: every file of the slice, from the t-th on. */
  function PrintPass(c: Context, objs: map<Pos, TypeObj>, files: seq<FileInfo>, t: nat, asts: seq<AstFile>, out: seq<Piece>): (r: State)
    requires t <= |files| && FilesIn(files, asts)
    decreases |files| - t
    ensures |r.asts| == |asts|
  {
    if t == |files| then State(asts, false, out)
    else
      var w := PrintFile(c, objs, files[t], asts, out);
      PrintPass(c, objs, files, t + 1, w.asts, w.out)
  }

  lemma PrintPassStep(c: Context, objs: map<Pos, TypeObj>, files: seq<FileInfo>, t: nat, asts: seq<AstFile>, out: seq<Piece>)
    requires t < |files| && FilesIn(files, asts)
    ensures var w := PrintFile(c, objs, files[t], asts, out);
            FilesIn(files, w.asts) && PrintPass(c, objs, files, t, asts, out) == PrintPass(c, objs, files, t + 1, w.asts, w.out)
  {
  }

  /** What the second loop may change: the ASTs keep their shape and the output only grows, never by a function body. */
  ghost predicate Grows(asts: seq<AstFile>, out: seq<Piece>, r: State) {
    SameShape(asts, r.asts) && |r.out| >= |out| && r.out[..|out|] == out && (NoBodies(out) ==> NoBodies(r.out))
  }

  lemma {:induction false} PrintPassFacts(c: Context, objs: map<Pos, TypeObj>, files: seq<FileInfo>, t: nat, asts: seq<AstFile>, out: seq<Piece>)
    requires t <= |files| && FilesIn(files, asts)
    decreases |files| - t
    ensures Grows(asts, out, PrintPass(c, objs, files, t, asts, out))
  {
    if t < |files| {
      var w := PrintFile(c, objs, files[t], asts, out);
      assert Grows(asts, out, w);
      PrintPassFacts(c, objs, files, t + 1, w.asts, w.out);
      var r := PrintPass(c, objs, files, t + 1, w.asts, w.out);
      assert r.out[..|out|] == r.out[..|w.out|][..|out|];
    }
  }

  /** With a bad target, the first loop from file i on exits exactly when it reaches a file it keeps. */
  lemma {:induction false} DiscoverBadTargetExit(c: Context, i: nat, s: Scan)
    requires i <= |s.asts| && FilesIn(s.files, s.asts) && s.failure.None?
    requires BadTarget(c)
    decreases |s.asts| - i
    ensures Discover(c, i, s).failure.Some? <==> exists t :: i <= t < |s.asts| && Kept(c, s.asts[t])
  {
    if i < |s.asts| {
      if Kept(c, s.asts[i]) {
        assert Discover(c, i, s).failure.Some?;
      } else {
        DiscoverBadTargetExit(c, i + 1, s);
        assert forall t :: i <= t < |s.asts| && Kept(c, s.asts[t]) ==> i + 1 <= t;
      }
    }
  }

  /** With a bad target, the first loop exits exactly when the package has a file it keeps, so by name whenever it has a file. */
  lemma FirstPassExit(c: Context, asts: seq<AstFile>, out: seq<Piece>)
    ensures BadTarget(c) ==> (FirstPass(c, asts, out).failure.Some? <==> KeepsAny(c, asts))
    ensures BadTarget(c) && !c.flags.packageFlag && |asts| > 0 ==> FirstPass(c, asts, out).failure.Some?
  {
    if BadTarget(c) {
      DiscoverBadTargetExit(c, 0, Scan(asts, [], false, out, None));
      if !c.flags.packageFlag && |asts| > 0 {
        assert Kept(c, asts[0]);
      }
    }
  }

  /** What a call of doPackage leaves: the ASTs, standard output, and the exit it took, if any. */
  datatype Outcome = Outcome(asts: seq<AstFile>, out: seq<Piece>, failure: Option<Failure>)

  /**
   * doPackage's first loop from an empty files slice: it only appends to the
   * output, and only under -package; by name it only clears bodies; its one
   * exit is BadRegexp on a target that does not compile.
   */
  function FirstPass(c: Context, asts: seq<AstFile>, out: seq<Piece>): (r: Scan)
    ensures |r.asts| == |asts| && FilesIn(r.files, r.asts)
    ensures FirstLoopStep(c, Scan(asts, [], false, out, None), r)
    ensures r.failure.Some? ==> BadTarget(c) && r.failure == Some(BadRegexp(Anchored(c.ident)))
  {
    DiscoverFacts(c, 0, Scan(asts, [], false, out, None));
    Discover(c, 0, Scan(asts, [], false, out, None))
  }

  /** doPackage, given the files of the package in map order and the type checker's Defs map. */
  function DoPackage(c: Context, objs: map<Pos, TypeObj>, asts: seq<AstFile>, out: seq<Piece>): (r: Outcome)
    ensures SameShape(asts, r.asts)
    ensures |r.out| >= |out| && r.out[..|out|] == out
    ensures NoBodies(out) ==> NoBodies(r.out)
    ensures r.failure.Some? ==> BadTarget(c) && r.failure == Some(BadRegexp(Anchored(c.ident)))
    ensures BadTarget(c) ==> (r.failure.Some? <==> KeepsAny(c, asts))
    ensures BadTarget(c) && !c.flags.packageFlag && |asts| > 0 ==> r.failure == Some(BadRegexp(Anchored(c.ident)))
  {
    var s := FirstPass(c, asts, out);
    DiscoverFacts(c, 0, Scan(asts, [], false, out, None));
    FirstPassExit(c, asts, out);
    if s.failure.Some? || !s.found then Outcome(s.asts, s.out, s.failure)
    else
      var p := PrintPass(c, objs, s.files, 0, s.asts, s.out);
      PrintPassFacts(c, objs, s.files, 0, s.asts, s.out);
      assert p.out[..|out|] == p.out[..|s.out|][..|out|];
      Outcome(p.asts, p.out, None)
  }

  // ---------------------------------------------------------------------------------------
  // What doPackage promises.

  /** The package comments of the files from the i-th on, in file order. */
  function PackageDocs(c: Context, asts: seq<AstFile>, i: nat, out: seq<Piece>): seq<Piece>
    requires i <= |asts|
    decreases |asts| - i
  {
    if i == |asts| then out
    else PackageDocs(c, asts, i + 1, PkgComments(c.flags, NewFileInfo(c, i, asts[i].name), asts[i], out))
  }

  lemma {:induction false} DiscoverPackageMode(c: Context, i: nat, s: Scan)
    requires i <= |s.asts| && FilesIn(s.files, s.asts) && s.failure.None? && !s.found
    requires c.flags.packageFlag && !BadTarget(c)
    decreases |s.asts| - i
    ensures var r := Discover(c, i, s); r.failure.None? && !r.found && r.out == PackageDocs(c, s.asts, i, s.out)
  {
    if i < |s.asts| {
      var fi := NewFileInfo(c, i, s.asts[i].name);
      if s.asts[i].doc.None? {
        DiscoverPackageMode(c, i + 1, s);
        assert PkgComments(c.flags, fi, s.asts[i], s.out) == s.out;
      } else {
        DiscoverPackageMode(c, i + 1, KeepFile(c, i, s));
      }
    }
  }

  /**
   * -package: the package comment of every file that has one is printed
   * during the first loop, in file order; found is never set, so the
   * second loop never runs and no AST changes.
   */
  lemma PackageModeSinglePass(c: Context, objs: map<Pos, TypeObj>, asts: seq<AstFile>, out: seq<Piece>)
    requires c.flags.packageFlag && !BadTarget(c)
    ensures DoPackage(c, objs, asts, out) == Outcome(asts, PackageDocs(c, asts, 0, out), None)
  {
    DiscoverFacts(c, 0, Scan(asts, [], false, out, None));
    DiscoverPackageMode(c, 0, Scan(asts, [], false, out, None));
  }

  /** By name: the first loop prints nothing, so anything printed comes from the second loop, which runs only after a hit. */
  lemma NothingFoundNothingPrinted(c: Context, objs: map<Pos, TypeObj>, asts: seq<AstFile>, out: seq<Piece>)
    requires !c.flags.packageFlag
    ensures var r := DoPackage(c, objs, asts, out);
            r.out != out ==> FirstPass(c, asts, out).found && r.failure.None?
  {
    DiscoverFacts(c, 0, Scan(asts, [], false, out, None));
  }

  lemma {:induction false} DiscoverKeepsEveryFile(c: Context, i: nat, s: Scan)
    requires i <= |s.asts| && FilesIn(s.files, s.asts) && s.failure.None?
    requires !c.flags.packageFlag && !BadTarget(c)
    requires |s.files| == i && forall t :: 0 <= t < i ==> s.files[t].index == t
    decreases |s.asts| - i
    ensures var r := Discover(c, i, s);
            r.failure.None? && |r.files| == |s.asts| && forall t :: 0 <= t < |r.files| ==> r.files[t].index == t
  {
    if i < |s.asts| {
      KeepFileFacts(c, i, s);
      DiscoverKeepsEveryFile(c, i + 1, KeepFile(c, i, s));
    }
  }

  /**
   * By name: every file of the package gets a File, in order, so the second
   * loop walks them all and each File's allFiles is the whole package.
   */
  lemma ByNameKeepsEveryFile(c: Context, asts: seq<AstFile>, out: seq<Piece>)
    requires !c.flags.packageFlag && !BadTarget(c)
    ensures var s := FirstPass(c, asts, out);
            s.failure.None? && |s.files| == |asts| && forall t :: 0 <= t < |asts| ==> s.files[t].index == t
  {
    DiscoverKeepsEveryFile(c, 0, Scan(asts, [], false, out, None));
  }

  lemma {:induction false} DiscoverBadTarget(c: Context, i: nat, s: Scan)
    requires i <= |s.asts| && FilesIn(s.files, s.asts) && s.failure.None? && s.files == []
    requires BadTarget(c)
    decreases |s.asts| - i
    ensures var r := Discover(c, i, s); r.out == s.out && r.asts == s.asts && r.found == s.found
  {
    if i < |s.asts| && c.flags.packageFlag && s.asts[i].doc.None? {
      DiscoverBadTarget(c, i + 1, s);
    }
  }

  /**
   * A target that does not compile ends the program at the first file
   * doPackage keeps, before anything is printed or cleared; a package with
   * no such file is left alone without an exit.
   */
  lemma BadTargetPrintsNothing(c: Context, objs: map<Pos, TypeObj>, asts: seq<AstFile>, out: seq<Piece>)
    requires BadTarget(c)
    ensures var r := DoPackage(c, objs, asts, out); r.out == out && r.asts == asts
  {
    DiscoverBadTarget(c, 0, Scan(asts, [], false, out, None));
  }

  // ---------------------------------------------------------------------------------------
  // main's loop: lookInDirectory on every candidate directory, doPackage on every package in it.

  /** A package ParseDir returned: its files in map order and what the type checker records for it. */
  datatype PackageInput = PackageInput(files: seq<AstFile>, objs: map<Pos, TypeObj>)

  datatype RunOutcome = RunOutcome(out: seq<Piece>, failure: Option<Failure>)

  /** The packages from the i-th on; an exit stops the loop. */
  function RunPackages(c: Context, pkgs: seq<PackageInput>, i: nat, out: seq<Piece>): (r: RunOutcome)
    requires i <= |pkgs|
    decreases |pkgs| - i
    ensures |r.out| >= |out| && r.out[..|out|] == out
    ensures NoBodies(out) ==> NoBodies(r.out)
    ensures r.failure.Some? ==> BadTarget(c) && r.failure == Some(BadRegexp(Anchored(c.ident)))
  {
    if i == |pkgs| then RunOutcome(out, None)
    else
      var o := DoPackage(c, pkgs[i].objs, pkgs[i].files, out);
      if o.failure.Some? then RunOutcome(o.out, o.failure)
      else RunPackages(c, pkgs, i + 1, o.out)
  }

  /**
   * main: defaults, the dispatch of the arguments, then every package found
   * under the directories for the package hint (`packagesFor`, the
   * directory search and ParseDir together).
   */
  function Run(parsed: Flags, args: seq<string>, packagesFor: string -> seq<PackageInput>,
               roots: Roots, engine: RegexEngine): (r: RunOutcome)
    ensures NoBodies(r.out)
    ensures Dispatch(Defaulted(parsed), args).Err? ==> r == RunOutcome([], Some(Dispatch(Defaulted(parsed), args).failure))
    ensures r.failure.Some? && Dispatch(Defaulted(parsed), args).Ok? ==>
              var name := Dispatch(Defaulted(parsed), args).value.name;
              r.failure == Some(BadRegexp(Anchored(name))) && IsRegexp(name) && !engine.compiles(Anchored(name))
  {
    var f := Defaulted(parsed);
    match Dispatch(f, args)
    case Err(e) => RunOutcome([], Some(e))
    case Ok(q) => RunPackages(Context(f, engine, q.name, roots), packagesFor(q.pkg), 0, [])
  }

  /**
   * With a target that does not compile, main's loop prints nothing, and it
   * exits exactly when some package from the i-th on keeps a file.
   */
  lemma {:induction false} RunPackagesBadTarget(c: Context, pkgs: seq<PackageInput>, i: nat, out: seq<Piece>)
    requires i <= |pkgs| && BadTarget(c)
    decreases |pkgs| - i
    ensures var r := RunPackages(c, pkgs, i, out);
            r.out == out && (r.failure.Some? <==> exists p :: i <= p < |pkgs| && KeepsAny(c, pkgs[p].files))
  {
    if i < |pkgs| {
      BadTargetPrintsNothing(c, pkgs[i].objs, pkgs[i].files, out);
      if !KeepsAny(c, pkgs[i].files) {
        RunPackagesBadTarget(c, pkgs, i + 1, out);
        assert forall p :: i <= p < |pkgs| && KeepsAny(c, pkgs[p].files) ==> i + 1 <= p;
      }
    }
  }

  /** A target that does not compile: main prints nothing at all, whether or not it exits. */
  lemma RunBadTarget(parsed: Flags, args: seq<string>, packagesFor: string -> seq<PackageInput>,
                     roots: Roots, engine: RegexEngine)
    requires Dispatch(Defaulted(parsed), args).Ok?
    requires BadTarget(Context(Defaulted(parsed), engine, Dispatch(Defaulted(parsed), args).value.name, roots))
    ensures Run(parsed, args, packagesFor, roots, engine).out == []
  {
    var q := Dispatch(Defaulted(parsed), args).value;
    RunPackagesBadTarget(Context(Defaulted(parsed), engine, q.name, roots), packagesFor(q.pkg), 0, []);
  }

  /** A literal name never takes the regular-expression exit. */
  lemma LiteralTargetNeverFails(parsed: Flags, args: seq<string>, packagesFor: string -> seq<PackageInput>,
                                roots: Roots, engine: RegexEngine)
    requires Dispatch(Defaulted(parsed), args).Ok? && !HasSpecial(Dispatch(Defaulted(parsed), args).value.name)
    ensures Run(parsed, args, packagesFor, roots, engine).failure.None?
  {
    QuoteMetaIdentityIff(Dispatch(Defaulted(parsed), args).value.name);
  }
}
