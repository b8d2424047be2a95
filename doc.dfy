// The imperative core of doc.go: the package's ASTs changed in place, the File
// visitor with its found and doPrint fields, the methodVisitor splicing its
// pending list and filling the docs array, doPackage's two loops and main.
// Every method is proved to leave exactly the state its specification
// function (modules Walk, MethodSets and Package) computes.

module Doc {
  import opened Syntax
  import opened Options
  import opened Matching
  import opened Locators
  import M = MethodSets
  import W = Walk
  import P = Package

  /** The files of one *ast.Package; `n.Body = nil` changes them in place. */
  class AstPackage {
    var files: seq<AstFile>

    constructor (files: seq<AstFile>)
      ensures this.files == files
    {
      this.files := files;
    }

    /** `n.Body = nil` on declaration j of file k. */
    method ClearBody(k: nat, j: nat)
      requires k < |files| && j < |files[k].decls| && files[k].decls[j].Func?
      modifies this
      ensures files == Syntax.ClearBody(old(files), k, j)
    {
      var f := files[k];
      files := files[k := f.(decls := f.decls[j := f.decls[j].(body := None)])];
    }
  }

  /** Standard output. */
  class Stdout {
    var out: seq<Piece>

    constructor ()
      ensures out == []
    {
      out := [];
    }

    method Print(ps: seq<Piece>)
      modifies this
      ensures out == old(out) + ps
    {
      out := out + ps;
    }
  }

  /** doc.go's methodVisitor: the package, the methods still looked for, and the shared docs slice. */
  class MethodVisitor {
    const pkg: AstPackage
    const docFlag: bool
    var methods: seq<M.Pending>
    const docs: array<seq<Piece>>

    constructor (pkg: AstPackage, docFlag: bool, methods: seq<M.Pending>, docs: array<seq<Piece>>)
      ensures this.pkg == pkg && this.docFlag == docFlag && this.methods == methods && this.docs == docs
    {
      this.pkg := pkg;
      this.docFlag := docFlag;
      this.methods := methods;
      this.docs := docs;
    }

    function State(): M.MState
      reads this, pkg, docs
    {
      M.MState(pkg.files, methods, docs[..])
    }

    /** methodVisitor.Visit on declaration j of file k. */
    method Visit(k: nat, j: nat)
      requires k < |pkg.files| && j < |pkg.files[k].decls| && M.IndicesBelow(methods, docs.Length)
      modifies this, pkg, docs
      ensures State() == M.MethodVisit(docFlag, k, j, old(State()))
    {
      match pkg.files[k].decls[j]
      case Gen(_) =>
      case Func(name, recv, _) =>
        var i := 0;
        while i < |methods|
          invariant 0 <= i <= |methods| && State() == old(State())
          invariant forall t :: 0 <= t < i ==> methods[t].obj.pos != name.pos
        {
          if methods[i].obj.pos == name.pos {
            assert M.FindMethod(methods, name.pos, 0) == i;
            pkg.ClearBody(k, j);
            docs[methods[i].index] := Docs(docFlag, DeclNode(Func(name, recv, None)));
            if |methods| == 1 {
              return;
            }
            methods := methods[..i] + methods[i + 1..];
            return;
          }
          i := i + 1;
        }
    }

    /** ast.Walk(visitor, file.file) for file k. */
    method Walk(k: nat)
      requires k < |pkg.files| && M.IndicesBelow(methods, docs.Length)
      modifies this, pkg, docs
      ensures State() == M.VisitMethods(docFlag, k, 0, old(State()))
    {
      var j := 0;
      while j < |pkg.files[k].decls|
        invariant k < |pkg.files| && j <= |pkg.files[k].decls| && M.IndicesBelow(methods, docs.Length)
        invariant |pkg.files[k].decls| == |old(pkg.files[k].decls)|
        invariant M.VisitMethods(docFlag, k, j, State()) == M.VisitMethods(docFlag, k, 0, old(State()))
        decreases |pkg.files[k].decls| - j
      {
        Visit(k, j);
        j := j + 1;
      }
    }
  }

  /** doc.go's File: the fields fixed when doPackage builds it, and doPrint, found and objs. */
  class File {
    const info: W.FileInfo
    const flags: Flags
    const engine: RegexEngine
    const pkg: AstPackage
    const stdout: Stdout
    var doPrint: bool
    var found: bool
    var objs: map<Pos, TypeObj>

    constructor (info: W.FileInfo, flags: Flags, engine: RegexEngine, pkg: AstPackage, stdout: Stdout)
      ensures this.info == info && this.flags == flags && this.engine == engine
      ensures this.pkg == pkg && this.stdout == stdout
      ensures !doPrint && !found && objs == map[]
    {
      this.info := info;
      this.flags := flags;
      this.engine := engine;
      this.pkg := pkg;
      this.stdout := stdout;
      doPrint := false;
      found := false;
      objs := map[];
    }

    function Visitor(): W.Visitor
      reads this
    {
      W.Visitor(flags, engine, info, doPrint, objs)
    }

    function State(): W.State
      reads this, pkg, stdout
    {
      W.State(pkg.files, found, stdout.out)
    }

    /** File.printNode. */
    method PrintNode(node: Node, id: Ident, url: string)
      requires Bodiless(node)
      modifies this, stdout
      ensures Visitor() == old(Visitor())
      ensures State() == W.PrintNode(old(Visitor()), node, id, url, old(State()))
    {
      if !doPrint {
        found := true;
        return;
      }
      stdout.Print([Text(url + SourcePos(flags.srcFlag, info.name, id.line))] + Docs(flags.docFlag, node));
    }

    /** File.methodSet. */
    method MethodSet(mset: seq<MethodObj>)
      modifies pkg, stdout
      ensures var p := M.MethodSet(flags.docFlag, mset, old(pkg.files), old(stdout.out));
              pkg.files == p.asts && stdout.out == p.out
    {
      var methods := ExportedMethods(mset);
      if |methods| == 0 {
        return;
      }
      var docs := new seq<Piece>[|mset|](_ => []);
      assert docs[..] == M.EmptyDocs(|mset|);
      CollectDocs(flags.docFlag, pkg, methods, docs);
      PrintDocs(stdout, docs);
    }

    /** One spec of a GenDecl, as the inner switch of File.Visit handles it. */
    method VisitSpec(g: GenDecl, sp: Spec)
      modifies this, pkg, stdout
      ensures Visitor() == old(Visitor())
      ensures State() == W.VisitSpec(old(Visitor()), g, sp, old(State()))
    {
      match sp
      case ValueSpec(_) => VisitValueSpec(g, sp);
      case TypeSpec(_, _) => VisitTypeSpec(g, sp);
      case ImportSpec(_) =>
    }

    /** The ValueSpec case: the first matching name prints the whole declaration, when the keyword's flag is set. */
    method VisitValueSpec(g: GenDecl, sp: Spec)
      requires sp.ValueSpec?
      modifies this, stdout
      ensures Visitor() == old(Visitor())
      ensures State() == W.VisitSpec(old(Visitor()), g, sp, old(State()))
    {
      if (flags.constFlag && g.tok == CONST) || (flags.varFlag && g.tok == VAR) {
        var names := sp.names;
        var i := 0;
        while i < |names| && !Match(names[i].name, info.ident, info.regexp, engine)
          invariant 0 <= i <= |names| && W.FirstMatch(Visitor(), names, i) == W.FirstMatch(Visitor(), names, 0)
        {
          i := i + 1;
        }
        if i < |names| {
          PrintNode(DeclNode(Gen(g)), names[i], W.FileNameURL(Visitor(), names[i].name));
        }
      }
    }

    /** The TypeSpec case: the kind filter, then the method set once printing. */
    method VisitTypeSpec(g: GenDecl, sp: Spec)
      requires sp.TypeSpec?
      modifies this, pkg, stdout
      ensures Visitor() == old(Visitor())
      ensures State() == W.VisitSpec(old(Visitor()), g, sp, old(State()))
    {
      var name := sp.name;
      if Match(name.name, info.ident, info.regexp, engine) {
        PrintType(g, sp);
        ghost var s1 := State();
        if doPrint && name.pos in objs {
          MethodSet(M.ChooseMethodSet(objs[name.pos]));
          assert State() == s1.(asts := pkg.files, out := stdout.out);
        }
      }
    }

    /** `if *typeFlag ... else switch spec.Type.(type)` for a matching type. */
    method PrintType(g: GenDecl, sp: Spec)
      requires sp.TypeSpec?
      modifies this, stdout
      ensures Visitor() == old(Visitor())
      ensures State() == W.PrintType(old(Visitor()), g, sp, old(State()))
    {
      var name := sp.name;
      var node := if g.lparen then SpecNode(sp) else DeclNode(Gen(g));
      if flags.typeFlag {
        PrintNode(node, name, W.FileNameURL(Visitor(), name.name));
      } else {
        match sp.typ
        case InterfaceType =>
          if flags.interfaceFlag {
            PrintNode(node, name, W.FileNameURL(Visitor(), name.name));
          }
        case StructType =>
          if flags.structFlag {
            PrintNode(node, name, W.FileNameURL(Visitor(), name.name));
          }
        case OtherType =>
      }
    }

    /** The GenDecl case of File.Visit. */
    method VisitGenDecl(g: GenDecl)
      modifies this, pkg, stdout
      ensures Visitor() == old(Visitor())
      ensures State() == W.VisitGenDecl(old(Visitor()), g, 0, old(State()))
    {
      for i := 0 to |g.specs|
        invariant Visitor() == old(Visitor())
        invariant W.VisitGenDecl(Visitor(), g, i, State()) == W.VisitGenDecl(Visitor(), g, 0, old(State()))
      {
        VisitSpec(g, g.specs[i]);
      }
    }

    /** ast.Walk's descent into a function body: the declarations nested in it. */
    method VisitLocals(locals: seq<GenDecl>)
      modifies this, pkg, stdout
      ensures Visitor() == old(Visitor())
      ensures State() == W.VisitLocals(old(Visitor()), locals, 0, old(State()))
    {
      for i := 0 to |locals|
        invariant Visitor() == old(Visitor())
        invariant W.VisitLocals(Visitor(), locals, i, State()) == W.VisitLocals(Visitor(), locals, 0, old(State()))
      {
        VisitGenDecl(locals[i]);
      }
    }

    /** File.Visit on top-level declaration j, followed by the descent into an uncleared body. */
    method Visit(j: nat)
      requires info.index < |pkg.files| && j < |pkg.files[info.index].decls|
      modifies this, pkg, stdout
      ensures Visitor() == old(Visitor())
      ensures State() == W.Visit(old(Visitor()), j, old(State()))
    {
      match pkg.files[info.index].decls[j]
      case Gen(g) =>
        VisitGenDecl(g);
      case Func(name, recv, body) =>
        if Match(name.name, info.ident, info.regexp, engine) {
          pkg.ClearBody(info.index, j);
          var node := DeclNode(Func(name, recv, None));
          if flags.methodFlag && recv.Some? {
            PrintNode(node, name, W.FileMethodURL(Visitor(), recv.value, name.name));
          } else if flags.funcFlag && recv.None? {
            PrintNode(node, name, W.FileNameURL(Visitor(), name.name));
          }
        } else if body.Some? {
          VisitLocals(body.value);
        }
    }

    /** ast.Walk(file, file.file). */
    method Walk()
      requires info.index < |pkg.files|
      modifies this, pkg, stdout
      ensures Visitor() == old(Visitor())
      ensures State() == W.WalkFile(old(Visitor()), 0, old(State()))
    {
      var j := 0;
      while j < |pkg.files[info.index].decls|
        invariant info.index < |pkg.files| && j <= |pkg.files[info.index].decls| && Visitor() == old(Visitor())
        invariant |pkg.files[info.index].decls| == |old(pkg.files[info.index].decls)|
        invariant W.WalkFile(Visitor(), j, State()) == W.WalkFile(Visitor(), 0, old(State()))
        decreases |pkg.files[info.index].decls| - j
      {
        Visit(j);
        j := j + 1;
      }
    }

    /** File.pkgComments. */
    method PkgComments()
      requires info.index < |pkg.files|
      modifies stdout
      ensures stdout.out == P.PkgComments(flags, info, pkg.files[info.index], old(stdout.out))
    {
      var ast := pkg.files[info.index];
      if ast.doc.None? {
        return;
      }
      var url := "";
      if flags.urlFlag {
        url := PackageURL(info.name, info.pathPrefix, info.urlPrefix) + "\n";
      }
      var docText := "";
      if flags.docFlag {
        docText := "package " + ast.pkgName + "\n" + ast.doc.value.text + "\n\n";
      }
      stdout.Print([Text(url + SourcePos(flags.srcFlag, info.name, ast.doc.value.line) + docText)]);
    }
  }

  /** The first loop of methodSet: the exported entries of the set, each with its index. */
  method ExportedMethods(mset: seq<MethodObj>) returns (methods: seq<M.Pending>)
    ensures methods == M.Exported(mset, |mset|)
  {
    methods := [];
    for i := 0 to |mset|
      invariant methods == M.Exported(mset, i)
    {
      if IsExported(mset[i].name) {
        methods := methods + [M.Pending(i, mset[i])];
      }
    }
  }

  /** The loop of methodSet over all files: a methodVisitor per file, handing on what is still looked for. */
  method CollectDocs(docFlag: bool, pkg: AstPackage, methods: seq<M.Pending>, docs: array<seq<Piece>>)
    requires M.IndicesBelow(methods, docs.Length)
    modifies pkg, docs
    ensures var m := M.Collect(docFlag, 0, old(M.MState(pkg.files, methods, docs[..])));
            pkg.files == m.asts && docs[..] == m.docs
  {
    var pending := methods;
    ghost var goal := M.Collect(docFlag, 0, M.MState(pkg.files, methods, docs[..]));
    var k := 0;
    while k < |pkg.files|
      invariant k <= |pkg.files| && M.IndicesBelow(pending, docs.Length)
      invariant M.Collect(docFlag, k, M.MState(pkg.files, pending, docs[..])) == goal
      decreases |pkg.files| - k
    {
      M.CollectStep(docFlag, k, M.MState(pkg.files, pending, docs[..]));
      var visitor := new MethodVisitor(pkg, docFlag, pending, docs);
      visitor.Walk(k);
      pending := visitor.methods;
      k := k + 1;
    }
  }

  /** The printing loop of methodSet: the non-empty docs, in index order. */
  method PrintDocs(stdout: Stdout, docs: array<seq<Piece>>)
    modifies stdout
    ensures stdout.out == old(stdout.out) + M.PrintDocs(docs[..], docs.Length)
  {
    for i := 0 to docs.Length
      invariant stdout.out == old(stdout.out) + M.PrintDocs(docs[..], i)
    {
      if docs[i] != [] {
        stdout.Print(docs[i]);
      }
    }
  }

  function Infos(files: seq<File>): (r: seq<W.FileInfo>)
    ensures |r| == |files| && forall t :: 0 <= t < |files| ==> r[t] == files[t].info
  {
    seq(|files|, t requires 0 <= t < |files| => files[t].info)
  }

  /** The Files of the slice, as the set the second loop may change. */
  function FileSet(files: seq<File>): set<File> {
    set t | 0 <= t < |files| :: files[t]
  }

  /** Appending a File adds exactly that File to the set. */
  lemma FileSetGrows(files: seq<File>, files': seq<File>)
    requires |files'| == |files| + 1 && files'[..|files|] == files
    ensures FileSet(files') == FileSet(files) + {files'[|files|]}
  {
  }

  /** The Files of one package: all share its ASTs, standard output, flags and engine. */
  ghost predicate Shared(files: seq<File>, c: P.Context, pkg: AstPackage, stdout: Stdout) {
    forall t :: 0 <= t < |files| ==>
      files[t].pkg == pkg && files[t].stdout == stdout && files[t].flags == c.flags && files[t].engine == c.engine
  }

  /** The body of doPackage's first loop for a file it keeps (index i, given the File list so far). */
  method KeepFile(c: P.Context, i: nat, pkg: AstPackage, stdout: Stdout, found: bool, ghost infos: seq<W.FileInfo>)
    returns (file: File, found': bool)
    requires i < |pkg.files| && P.FilesIn(infos, pkg.files)
    modifies pkg, stdout
    ensures fresh(file) && file.pkg == pkg && file.stdout == stdout && file.flags == c.flags && file.engine == c.engine
    ensures P.KeepFile(c, i, P.Scan(old(pkg.files), infos, found, old(stdout.out), None)) ==
            P.Scan(pkg.files, infos + [file.info], found', stdout.out, None)
  {
    file := new File(P.NewFileInfo(c, i, pkg.files[i].name), c.flags, c.engine, pkg, stdout);
    found' := found;
    if found {
      return;
    }
    file.doPrint := false;
    if c.flags.packageFlag {
      file.PkgComments();
    } else {
      file.Walk();
      if file.found {
        found' := true;
      }
    }
  }

  /** The state of doPackage's first loop before file i, against the whole loop's result `first`. */
  ghost predicate FirstLoop(c: P.Context, i: nat, asts: seq<AstFile>, out: seq<Piece>, files: seq<File>,
                            found: bool, pkg: AstPackage, stdout: Stdout, first: P.Scan) {
    && i <= |asts| && Shared(files, c, pkg, stdout) && P.FilesIn(Infos(files), asts)
    && P.Discover(c, i, P.Scan(asts, Infos(files), found, out, None)) == first
  }

  /** One turn of doPackage's first loop, on file i. */
  method DiscoverOne(c: P.Context, i: nat, pkg: AstPackage, stdout: Stdout, files: seq<File>, found: bool, ghost first: P.Scan)
    returns (files': seq<File>, found': bool, failure: Option<Failure>)
    requires i < |pkg.files| && FirstLoop(c, i, pkg.files, stdout.out, files, found, pkg, stdout, first)
    modifies pkg, stdout
    ensures failure.None? ==> FirstLoop(c, i + 1, pkg.files, stdout.out, files', found', pkg, stdout, first)
    ensures failure.Some? ==> first == P.Scan(pkg.files, Infos(files'), found', stdout.out, failure) && Shared(files', c, pkg, stdout)
    ensures files' == files || (|files'| == |files| + 1 && files'[..|files|] == files && fresh(files'[|files|]))
  {
    P.DiscoverStep(c, i, P.Scan(pkg.files, Infos(files), found, stdout.out, None));
    if c.flags.packageFlag && pkg.files[i].doc.None? {
      return files, found, None;
    }
    if IsRegexp(c.ident) && !c.engine.compiles(Anchored(c.ident)) {
      return files, found, Some(BadRegexp(Anchored(c.ident)));
    }
    files', found' := KeepOne(c, i, pkg, stdout, files, found, first);
    failure := None;
  }

  /** The turn of doPackage's first loop on a file it keeps. */
  method KeepOne(c: P.Context, i: nat, pkg: AstPackage, stdout: Stdout, files: seq<File>, found: bool, ghost first: P.Scan)
    returns (files': seq<File>, found': bool)
    requires i < |pkg.files| && FirstLoop(c, i, pkg.files, stdout.out, files, found, pkg, stdout, first)
    requires !(c.flags.packageFlag && pkg.files[i].doc.None?) && !P.BadTarget(c)
    modifies pkg, stdout
    ensures FirstLoop(c, i + 1, pkg.files, stdout.out, files', found', pkg, stdout, first)
    ensures |files'| == |files| + 1 && files'[..|files|] == files && fresh(files'[|files|])
  {
    P.DiscoverStep(c, i, P.Scan(pkg.files, Infos(files), found, stdout.out, None));
    var file;
    file, found' := KeepFile(c, i, pkg, stdout, found, Infos(files));
    files' := files + [file];
    assert Infos(files') == Infos(files) + [file.info];
  }

  /** doPackage's first loop: a File for every file kept, each walked (or its package comment printed) until one is found. */
  method Discover(c: P.Context, pkg: AstPackage, stdout: Stdout) returns (files: seq<File>, found: bool, failure: Option<Failure>)
    modifies pkg, stdout
    ensures Shared(files, c, pkg, stdout) && fresh(FileSet(files))
    ensures P.Scan(pkg.files, Infos(files), found, stdout.out, failure) == P.FirstPass(c, old(pkg.files), old(stdout.out))
  {
    files := [];
    found := false;
    ghost var first := P.FirstPass(c, pkg.files, stdout.out);
    var i := 0;
    while i < |pkg.files|
      invariant FirstLoop(c, i, pkg.files, stdout.out, files, found, pkg, stdout, first)
      invariant fresh(FileSet(files))
      decreases |pkg.files| - i
    {
      ghost var before := files;
      files, found, failure := DiscoverOne(c, i, pkg, stdout, files, found, first);
      if files != before {
        FileSetGrows(before, files);
      }
      if failure.Some? {
        return;
      }
      i := i + 1;
    }
    P.DiscoverDone(c, P.Scan(pkg.files, Infos(files), found, stdout.out, None));
    failure := None;
  }

  /** The body of doPackage's second loop for one File. */
  method PrintFile(c: P.Context, objs: map<Pos, TypeObj>, file: File)
    requires file.flags == c.flags && file.engine == c.engine && file.info.index < |file.pkg.files|
    modifies file, file.pkg, file.stdout
    ensures var p := P.PrintFile(c, objs, file.info, old(file.pkg.files), old(file.stdout.out));
            file.pkg.files == p.asts && file.stdout.out == p.out
  {
    file.doPrint := true;
    file.objs := objs;
    if c.flags.packageFlag {
      file.PkgComments();
    } else {
      W.WalkFileAgree(file.Visitor(), 0, file.State(), W.State(file.pkg.files, false, file.stdout.out));
      file.Walk();
    }
  }

  /** doPackage's second loop: every File with doPrint set and the type checker's objects. */
  method PrintPass(c: P.Context, objs: map<Pos, TypeObj>, files: seq<File>, pkg: AstPackage, stdout: Stdout)
    requires Shared(files, c, pkg, stdout) && P.FilesIn(Infos(files), pkg.files)
    modifies pkg, stdout, FileSet(files)
    ensures var p := P.PrintPass(c, objs, Infos(files), 0, old(pkg.files), old(stdout.out));
            pkg.files == p.asts && stdout.out == p.out
  {
    ghost var infos := Infos(files);
    ghost var goal := P.PrintPass(c, objs, infos, 0, pkg.files, stdout.out);
    for t := 0 to |files|
      invariant P.FilesIn(infos, pkg.files)
      invariant P.PrintPass(c, objs, infos, t, pkg.files, stdout.out) == goal
    {
      P.PrintPassStep(c, objs, infos, t, pkg.files, stdout.out);
      PrintFile(c, objs, files[t]);
    }
  }

  /** doPackage, on a package whose files are in pkg; the result is the exit taken, if any. */
  method DoPackage(c: P.Context, objs: map<Pos, TypeObj>, pkg: AstPackage, stdout: Stdout) returns (failure: Option<Failure>)
    modifies pkg, stdout
    ensures P.Outcome(pkg.files, stdout.out, failure) == P.DoPackage(c, objs, old(pkg.files), old(stdout.out))
  {
    var files, found;
    files, found, failure := Discover(c, pkg, stdout);
    if failure.Some? || !found {
      return;
    }
    // The type checker's Defs map is objs; every File's allFiles is the whole package.
    PrintPass(c, objs, files, pkg, stdout);
  }

  /** main, from the flags as parsed and the positional arguments on. */
  method Run(parsed: Flags, args: seq<string>, packagesFor: string -> seq<P.PackageInput>, roots: Roots, engine: RegexEngine)
    returns (out: seq<Piece>, failure: Option<Failure>)
    ensures P.RunOutcome(out, failure) == P.Run(parsed, args, packagesFor, roots, engine)
  {
    var flags := new FlagSet(parsed);
    flags.SetDefaults();
    var f := flags.Value();
    var q := Dispatch(f, args);
    if q.Err? {
      return [], Some(q.failure);
    }
    var c := P.Context(f, engine, q.value.name, roots);
    var pkgs := packagesFor(q.value.pkg);
    var stdout := new Stdout();
    for i := 0 to |pkgs|
      invariant P.RunPackages(c, pkgs, i, stdout.out) == P.RunPackages(c, pkgs, 0, [])
    {
      var pkg := new AstPackage(pkgs[i].files);
      var fail := DoPackage(c, pkgs[i].objs, pkg, stdout);
      if fail.Some? {
        return stdout.out, fail;
      }
    }
    return stdout.out, None;
  }
}
