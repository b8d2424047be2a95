// The specification of File.Visit as ast.Walk drives it over one file:
// which declarations match, which node is printed for each, when a function
// body is cleared, when a type's method set is collected, and what printNode
// does in the discovery pass and in the printing pass.

module Walk {
  import opened Text
  import opened Syntax
  import opened Options
  import opened Matching
  import opened Locators
  import opened MethodSets

  /** The fields of a File that stay fixed while it is walked. */
  datatype FileInfo = FileInfo(
    index: nat,              // which file of the package
    name: string,            // its path
    ident: string,           // the target
    regexp: Option<string>,  // the compiled pattern, for a regular-expression target
    pathPrefix: string,
    urlPrefix: string)

  /** A File as a visitor: its fixed fields, the flags, the regexp engine, doPrint and the type checker's objects. */
  datatype Visitor = Visitor(flags: Flags, engine: RegexEngine, file: FileInfo, doPrint: bool, objs: map<Pos, TypeObj>)

  /** What a walk changes: the package's ASTs (cleared bodies), the File's found field, and standard output. */
  datatype State = State(asts: seq<AstFile>, found: bool, out: seq<Piece>)

  function Matches(v: Visitor, name: string): bool {
    Match(name, v.file.ident, v.file.regexp, v.engine)
  }

  function FilePackageURL(v: Visitor): string {
    PackageURL(v.file.name, v.file.pathPrefix, v.file.urlPrefix)
  }

  function FileNameURL(v: Visitor, name: string): string {
    NameURL(v.flags.urlFlag, FilePackageURL(v), name)
  }

  function FileMethodURL(v: Visitor, recvType: string, name: string): string {
    MethodURL(v.flags.urlFlag, FilePackageURL(v), recvType, name)
  }

  /** The common shape of every walk step's promises. */
  ghost predicate Step(v: Visitor, s: State, r: State) {
    && SameShape(s.asts, r.asts)
    && |r.out| >= |s.out| && r.out[..|s.out|] == s.out
    && (NoBodies(s.out) ==> NoBodies(r.out))
    && (!v.doPrint ==> r.out == s.out)
    && (v.doPrint ==> r.found == s.found)
    && (s.found ==> r.found)
  }

  /** printNode: in the discovery pass only found is set; in the printing pass url, locator and docs are written. */
  function PrintNode(v: Visitor, node: Node, id: Ident, url: string, s: State): (r: State)
    requires Bodiless(node)
    ensures Step(v, s, r) && r.asts == s.asts
    ensures !v.doPrint ==> r.found
    ensures v.doPrint ==> r.out == s.out + [Text(url + SourcePos(v.flags.srcFlag, v.file.name, id.line))] + Docs(v.flags.docFlag, node)
  {
    if !v.doPrint then s.(found := true)
    else s.(out := s.out + [Text(url + SourcePos(v.flags.srcFlag, v.file.name, id.line))] + Docs(v.flags.docFlag, node))
  }

  /** The loop over spec.Names: the first name that matches, or |names|. */
  function FirstMatch(v: Visitor, names: seq<Ident>, i: nat): (r: nat)
    requires i <= |names|
    decreases |names| - i
    ensures i <= r <= |names|
    ensures forall t :: i <= t < r ==> !Matches(v, names[t].name)
    ensures r < |names| ==> Matches(v, names[r].name)
  {
    if i == |names| then i
    else if Matches(v, names[i].name) then i
    else FirstMatch(v, names, i + 1)
  }

  /** The node whose comment documents a type: the spec inside parentheses, the GenDecl otherwise. */
  function TypeNode(g: GenDecl, sp: Spec): Node {
    if g.lparen then SpecNode(sp) else DeclNode(Gen(g))
  }

  /** The kind filter for a type, as a single condition. */
  predicate TypeSelected(f: Flags, typ: TypeExpr) {
    f.typeFlag || (typ == InterfaceType && f.interfaceFlag) || (typ == StructType && f.structFlag)
  }

  /** The printing part of the TypeSpec case: `if *typeFlag ... else switch spec.Type.(type)`. */
  function PrintType(v: Visitor, g: GenDecl, sp: Spec, s: State): (r: State)
    requires sp.TypeSpec?
    ensures Step(v, s, r) && r.asts == s.asts
  {
    var node := TypeNode(g, sp);
    if v.flags.typeFlag then PrintNode(v, node, sp.name, FileNameURL(v, sp.name.name), s)
    else
      match sp.typ
      case InterfaceType =>
        if v.flags.interfaceFlag then PrintNode(v, node, sp.name, FileNameURL(v, sp.name.name), s) else s
      case StructType =>
        if v.flags.structFlag then PrintNode(v, node, sp.name, FileNameURL(v, sp.name.name), s) else s
      case OtherType => s
  }

  /** One spec of a GenDecl, as the inner switch of File.Visit handles it. */
  function VisitSpec(v: Visitor, g: GenDecl, sp: Spec, s: State): (r: State)
    ensures Step(v, s, r)
  {
    match sp
    case ValueSpec(names) =>
      if (v.flags.constFlag && g.tok == CONST) || (v.flags.varFlag && g.tok == VAR) then
        var i := FirstMatch(v, names, 0);
        if i < |names| then PrintNode(v, DeclNode(Gen(g)), names[i], FileNameURL(v, names[i].name), s) else s
      else s
    case TypeSpec(name, _) =>
      if Matches(v, name.name) then
        var s1 := PrintType(v, g, sp, s);
        if v.doPrint && name.pos in v.objs then
          var p := MethodSet(v.flags.docFlag, ChooseMethodSet(v.objs[name.pos]), s1.asts, s1.out);
          s1.(asts := p.asts, out := p.out)
        else s1
      else s
    case ImportSpec(_) => s
  }

  /** The GenDecl case of File.Visit: its specs from the i-th on. */
  function VisitGenDecl(v: Visitor, g: GenDecl, i: nat, s: State): (r: State)
    decreases |g.specs| - i
    ensures Step(v, s, r)
  {
    if i >= |g.specs| then s
    else VisitGenDecl(v, g, i + 1, VisitSpec(v, g, g.specs[i], s))
  }

  /** ast.Walk inside a function body: the declarations nested in it, from the i-th on. */
  function VisitLocals(v: Visitor, locals: seq<GenDecl>, i: nat, s: State): (r: State)
    decreases |locals| - i
    ensures Step(v, s, r)
  {
    if i >= |locals| then s
    else VisitLocals(v, locals, i + 1, VisitGenDecl(v, locals[i], 0, s))
  }

  /**
   * File.Visit on top-level declaration j of the file, followed by ast.Walk's
   * descent into what Visit left of it: a FuncDecl's body is walked only when
   * Visit did not clear it.
   */
  function Visit(v: Visitor, j: nat, s: State): (r: State)
    requires v.file.index < |s.asts| && j < |s.asts[v.file.index].decls|
    ensures Step(v, s, r)
  {
    match s.asts[v.file.index].decls[j]
    case Gen(g) => VisitGenDecl(v, g, 0, s)
    case Func(name, recv, body) =>
      if Matches(v, name.name) then
        var s1 := s.(asts := ClearBody(s.asts, v.file.index, j));
        var node := DeclNode(Func(name, recv, None));
        if v.flags.methodFlag && recv.Some? then PrintNode(v, node, name, FileMethodURL(v, recv.value, name.name), s1)
        else if v.flags.funcFlag && recv.None? then PrintNode(v, node, name, FileNameURL(v, name.name), s1)
        else s1
      else if body.Some? then VisitLocals(v, body.value, 0, s)
      else s
  }

  /** ast.Walk(file, file.file): the top-level declarations from the j-th on. */
  function WalkFile(v: Visitor, j: nat, s: State): (r: State)
    requires v.file.index < |s.asts| && j <= |s.asts[v.file.index].decls|
    decreases |s.asts[v.file.index].decls| - j
    ensures Step(v, s, r)
  {
    if j == |s.asts[v.file.index].decls| then s
    else WalkFile(v, j + 1, Visit(v, j, s))
  }

  // ---------------------------------------------------------------------------------------
  // What the walk promises.

  /** The nested if and switch that gate a type's printing amount to TypeSelected: -type first, then -interface or -struct by shape. */
  lemma PrintTypeSelected(v: Visitor, g: GenDecl, sp: Spec, s: State)
    requires sp.TypeSpec?
    ensures PrintType(v, g, sp, s) ==
            if TypeSelected(v.flags, sp.typ) then PrintNode(v, TypeNode(g, sp), sp.name, FileNameURL(v, sp.name.name), s) else s
  {
  }

  /** The head a matching type prints before its method set: locator and docs, when the kind flags select it. */
  function TypeHead(v: Visitor, g: GenDecl, sp: Spec): seq<Piece>
    requires sp.TypeSpec?
  {
    if TypeSelected(v.flags, sp.typ)
    then [Text(FileNameURL(v, sp.name.name) + SourcePos(v.flags.srcFlag, v.file.name, sp.name.line))] + Docs(v.flags.docFlag, TypeNode(g, sp))
    else []
  }

  /** During discovery a matching type is found exactly when the kind flags select it, and nothing else changes. */
  lemma TypeSpecFound(v: Visitor, g: GenDecl, sp: Spec, s: State)
    requires sp.TypeSpec? && Matches(v, sp.name.name) && !v.doPrint
    ensures VisitSpec(v, g, sp, s) == s.(found := s.found || TypeSelected(v.flags, sp.typ))
  {
    PrintTypeSelected(v, g, sp, s);
  }

  /**
   * When printing, a matching type writes its head (the node given to the
   * printer being the spec inside a parenthesised group and the GenDecl
   * otherwise), then its method set whenever the type checker knows the
   * type, whatever the kind flags; an unknown type writes the head alone.
   */
  lemma TypeSpecPrinted(v: Visitor, g: GenDecl, sp: Spec, s: State)
    requires sp.TypeSpec? && Matches(v, sp.name.name) && v.doPrint
    ensures var r := VisitSpec(v, g, sp, s);
            var pre := s.out + TypeHead(v, g, sp);
            |r.out| >= |pre| && r.out[..|pre|] == pre &&
            (sp.name.pos !in v.objs ==> r.out == pre && r.asts == s.asts)
  {
    PrintTypeSelected(v, g, sp, s);
    var s1 := PrintType(v, g, sp, s);
    assert s1.out == s.out + TypeHead(v, g, sp) && s1.asts == s.asts;
  }

  /** A matching function declaration has its body cleared, whatever the flags. */
  lemma FuncDeclClears(v: Visitor, j: nat, s: State)
    requires v.file.index < |s.asts| && j < |s.asts[v.file.index].decls|
    requires s.asts[v.file.index].decls[j].Func? && Matches(v, s.asts[v.file.index].decls[j].name.name)
    ensures Visit(v, j, s).asts == ClearBody(s.asts, v.file.index, j)
    ensures Visit(v, j, s).asts[v.file.index].decls[j].body == None
  {
  }

  /** The step Visit takes on a matching function declaration: which PrintNode, if any. */
  lemma FuncDeclUnfold(v: Visitor, j: nat, s: State)
    requires v.file.index < |s.asts| && j < |s.asts[v.file.index].decls|
    requires s.asts[v.file.index].decls[j].Func? && Matches(v, s.asts[v.file.index].decls[j].name.name)
    ensures var d := s.asts[v.file.index].decls[j];
            var node := DeclNode(d.(body := None));
            Visit(v, j, s).(asts := s.asts) ==
              if v.flags.methodFlag && d.recv.Some? then PrintNode(v, node, d.name, FileMethodURL(v, d.recv.value, d.name.name), s)
              else if v.flags.funcFlag && d.recv.None? then PrintNode(v, node, d.name, FileNameURL(v, d.name.name), s)
              else s
  {
    var d := s.asts[v.file.index].decls[j];
    assert d.(body := None) == Func(d.name, d.recv, None);
  }

  /** Whether a matching function declaration is a hit: a method under -method, a plain function under -func. */
  predicate FuncHit(flags: Flags, d: Decl)
    requires d.Func?
  {
    (flags.methodFlag && d.recv.Some?) || (flags.funcFlag && d.recv.None?)
  }

  /** What a hit on a function declaration prints: its locator, then its docs with the body left out. */
  function FuncHead(v: Visitor, d: Decl): seq<Piece>
    requires d.Func?
  {
    var url := if d.recv.Some? then FileMethodURL(v, d.recv.value, d.name.name) else FileNameURL(v, d.name.name);
    [Text(url + SourcePos(v.flags.srcFlag, v.file.name, d.name.line))] + Docs(v.flags.docFlag, DeclNode(d.(body := None)))
  }

  /**
   * A matching function declaration is a hit as a method exactly when -method
   * is set and it has a receiver, and as a function exactly when -func is set
   * and it has none; the node printed carries no body.
   */
  lemma FuncDeclVisit(v: Visitor, j: nat, s: State)
    requires v.file.index < |s.asts| && j < |s.asts[v.file.index].decls|
    requires s.asts[v.file.index].decls[j].Func? && Matches(v, s.asts[v.file.index].decls[j].name.name)
    ensures var d := s.asts[v.file.index].decls[j];
            var r := Visit(v, j, s);
            (!v.doPrint ==> r.found == (s.found || FuncHit(v.flags, d))) &&
            (v.doPrint ==> r.out == s.out + if FuncHit(v.flags, d) then FuncHead(v, d) else [])
  {
    FuncDeclCases(v, j, s);
  }

  /** The three cases of a matching function declaration, as they set found and extend the output. */
  lemma FuncDeclCases(v: Visitor, j: nat, s: State)
    requires v.file.index < |s.asts| && j < |s.asts[v.file.index].decls|
    requires s.asts[v.file.index].decls[j].Func? && Matches(v, s.asts[v.file.index].decls[j].name.name)
    ensures var d := s.asts[v.file.index].decls[j];
            var r := Visit(v, j, s);
            if FuncHit(v.flags, d) then
              r.found == (s.found || !v.doPrint) && r.out == s.out + (if v.doPrint then FuncHead(v, d) else [])
            else r.found == s.found && r.out == s.out
  {
    FuncDeclUnfold(v, j, s);
    FuncPick(v, s.asts[v.file.index].decls[j], s, Visit(v, j, s));
  }

  /** A state that agrees, up to its ASTs, with the PrintNode a function declaration selects. */
  lemma FuncPick(v: Visitor, d: Decl, s: State, x: State)
    requires d.Func?
    requires var node := DeclNode(d.(body := None));
             x.(asts := s.asts) ==
               if v.flags.methodFlag && d.recv.Some? then PrintNode(v, node, d.name, FileMethodURL(v, d.recv.value, d.name.name), s)
               else if v.flags.funcFlag && d.recv.None? then PrintNode(v, node, d.name, FileNameURL(v, d.name.name), s)
               else s
    ensures if FuncHit(v.flags, d) then
              x.found == (s.found || !v.doPrint) && x.out == s.out + (if v.doPrint then FuncHead(v, d) else [])
            else x.found == s.found && x.out == s.out
  {
    assert x.found == x.(asts := s.asts).found && x.out == x.(asts := s.asts).out;
  }

  /**
   * A value spec is a hit exactly when its keyword's flag is set and one of its
   * names matches: discovery then sets found, and printing writes the whole
   * GenDecl once, located at the first matching name.
   */
  lemma ValueSpecVisit(v: Visitor, g: GenDecl, sp: Spec, s: State)
    requires sp.ValueSpec?
    ensures var r := VisitSpec(v, g, sp, s);
            var kind := (v.flags.constFlag && g.tok == CONST) || (v.flags.varFlag && g.tok == VAR);
            var i := FirstMatch(v, sp.names, 0);
            var hit := kind && i < |sp.names|;
            (!v.doPrint ==> r == s.(found := s.found || hit)) &&
            (v.doPrint ==> r.asts == s.asts && r.found == s.found &&
                           r.out == s.out + if hit then [Text(FileNameURL(v, sp.names[i].name) + SourcePos(v.flags.srcFlag, v.file.name, sp.names[i].line))] +
                                                        Docs(v.flags.docFlag, DeclNode(Gen(g)))
                                            else [])
  {
    var kind := (v.flags.constFlag && g.tok == CONST) || (v.flags.varFlag && g.tok == VAR);
    var i := FirstMatch(v, sp.names, 0);
    ValueSpecPick(v, g, sp, s, kind && i < |sp.names|, VisitSpec(v, g, sp, s));
  }

  /** A state equal to the PrintNode a value spec's hit selects, or to the old state without a hit. */
  lemma ValueSpecPick(v: Visitor, g: GenDecl, sp: Spec, s: State, hit: bool, x: State)
    requires sp.ValueSpec? && (hit ==> FirstMatch(v, sp.names, 0) < |sp.names|)
    requires var i := FirstMatch(v, sp.names, 0);
             x == if hit then PrintNode(v, DeclNode(Gen(g)), sp.names[i], FileNameURL(v, sp.names[i].name), s) else s
    ensures var i := FirstMatch(v, sp.names, 0);
            (!v.doPrint ==> x == s.(found := s.found || hit)) &&
            (v.doPrint ==> x.asts == s.asts && x.found == s.found &&
                           x.out == s.out + if hit then [Text(FileNameURL(v, sp.names[i].name) + SourcePos(v.flags.srcFlag, v.file.name, sp.names[i].line))] +
                                                        Docs(v.flags.docFlag, DeclNode(Gen(g)))
                                            else [])
  {
  }

  /** The walk of a whole file: discovery writes nothing, and no printed node carries a function body. */
  lemma WalkFileSummary(v: Visitor, s: State)
    requires v.file.index < |s.asts|
    ensures var r := WalkFile(v, 0, s);
            SameShape(s.asts, r.asts) && (!v.doPrint ==> r.out == s.out) && (NoBodies(s.out) ==> NoBodies(r.out))
  {
  }
  // ---------------------------------------------------------------------------------------
  // The found field a File brings into a walk changes neither the ASTs nor the output.

  predicate Agree(a: State, b: State) {
    a.asts == b.asts && a.out == b.out
  }

  lemma VisitSpecAgree(v: Visitor, g: GenDecl, sp: Spec, a: State, b: State)
    requires Agree(a, b)
    ensures Agree(VisitSpec(v, g, sp, a), VisitSpec(v, g, sp, b))
  {
    if sp.TypeSpec? && Matches(v, sp.name.name) {
      PrintTypeSelected(v, g, sp, a);
      PrintTypeSelected(v, g, sp, b);
    }
  }

  lemma {:induction false} VisitGenDeclAgree(v: Visitor, g: GenDecl, i: nat, a: State, b: State)
    requires Agree(a, b)
    decreases |g.specs| - i
    ensures Agree(VisitGenDecl(v, g, i, a), VisitGenDecl(v, g, i, b))
  {
    if i < |g.specs| {
      VisitSpecAgree(v, g, g.specs[i], a, b);
      VisitGenDeclAgree(v, g, i + 1, VisitSpec(v, g, g.specs[i], a), VisitSpec(v, g, g.specs[i], b));
    }
  }

  lemma {:induction false} VisitLocalsAgree(v: Visitor, locals: seq<GenDecl>, i: nat, a: State, b: State)
    requires Agree(a, b)
    decreases |locals| - i
    ensures Agree(VisitLocals(v, locals, i, a), VisitLocals(v, locals, i, b))
  {
    if i < |locals| {
      VisitGenDeclAgree(v, locals[i], 0, a, b);
      VisitLocalsAgree(v, locals, i + 1, VisitGenDecl(v, locals[i], 0, a), VisitGenDecl(v, locals[i], 0, b));
    }
  }

  lemma VisitAgree(v: Visitor, j: nat, a: State, b: State)
    requires v.file.index < |a.asts| && j < |a.asts[v.file.index].decls| && Agree(a, b)
    ensures Agree(Visit(v, j, a), Visit(v, j, b))
  {
    match a.asts[v.file.index].decls[j]
    case Gen(g) => VisitGenDeclAgree(v, g, 0, a, b);
    case Func(name, _, body) =>
      if !Matches(v, name.name) && body.Some? {
        VisitLocalsAgree(v, body.value, 0, a, b);
      }
  }

  lemma {:induction false} WalkFileAgree(v: Visitor, j: nat, a: State, b: State)
    requires v.file.index < |a.asts| && j <= |a.asts[v.file.index].decls| && Agree(a, b)
    decreases |a.asts[v.file.index].decls| - j
    ensures Agree(WalkFile(v, j, a), WalkFile(v, j, b))
  {
    if j < |a.asts[v.file.index].decls| {
      VisitAgree(v, j, a, b);
      WalkFileAgree(v, j + 1, Visit(v, j, a), Visit(v, j, b));
    }
  }
}
