// The part of a parsed Go file that the declaration walker looks at, and the
// pieces of output it writes. Parsing itself, go/printer and the comment map
// are outside the model: a rendered node is the value Source(node).

module Syntax {

  datatype Option<T> = None | Some(value: T)

  /** A token.Pos: unique for every identifier of the file set of one package. */
  type Pos = nat

  /** An *ast.Ident with the line its position falls on. */
  datatype Ident = Ident(name: string, pos: Pos, line: nat)

  /** The keyword of a GenDecl. */
  datatype Token = CONST | VAR | TYPE | IMPORT

  /** The shape of a TypeSpec's type expression, as far as the walker inspects it. */
  datatype TypeExpr = InterfaceType | StructType | OtherType

  datatype Spec =
    | ValueSpec(names: seq<Ident>)
    | TypeSpec(name: Ident, typ: TypeExpr)
    | ImportSpec(path: string)

  /** A const, var, type or import declaration; `lparen` is Lparen.IsValid(). */
  datatype GenDecl = GenDecl(tok: Token, lparen: bool, specs: seq<Spec>)

  /**
   * A top-level declaration. A FuncDecl's receiver is the text go/printer gives
   * for Recv.List[0].Type, and its body, when present, lists the const, var and
   * type declarations of the body outside function literals, in the order
   * ast.Walk reaches them.
   */
  datatype Decl =
    | Gen(gen: GenDecl)
    | Func(name: Ident, recv: Option<string>, body: Option<seq<GenDecl>>)

  /** A comment group with its Text() and the line of its position. */
  datatype CommentGroup = CommentGroup(text: string, line: nat)

  /** An *ast.File: its path, the package clause name, the package doc comment, the declarations. */
  datatype AstFile = AstFile(name: string, pkgName: string, doc: Option<CommentGroup>, decls: seq<Decl>)

  /** The node handed to go/printer. */
  datatype Node = DeclNode(decl: Decl) | SpecNode(spec: Spec)

  /** One piece of standard output: literal text, or go/printer's rendering of a node with its comments. */
  datatype Piece = Text(s: string) | Source(node: Node)

  /** A method object of a method set: its name and the position of its declaring identifier. */
  datatype MethodObj = MethodObj(name: string, pos: Pos)

  /** What the type checker knows of a type name: the method sets of T and of *T, sorted by name. */
  datatype TypeObj = TypeObj(valueSet: seq<MethodObj>, pointerSet: seq<MethodObj>)

  predicate Bodiless(n: Node) {
    !(n.DeclNode? && n.decl.Func? && n.decl.body.Some?)
  }

  /** No rendered node in the output is a function carrying its body. */
  predicate NoBodies(out: seq<Piece>) {
    forall p :: p in out ==> (p.Source? ==> Bodiless(p.node))
  }

  /** Two snapshots of a package that have the same files with the same number of declarations. */
  predicate SameShape(a: seq<AstFile>, b: seq<AstFile>) {
    |a| == |b| && forall k :: 0 <= k < |a| ==> |a[k].decls| == |b[k].decls|
  }

  /** `n.Body = nil` on declaration j of file k; nothing else in the package changes. */
  function ClearBody(asts: seq<AstFile>, k: nat, j: nat): (r: seq<AstFile>)
    requires k < |asts| && j < |asts[k].decls| && asts[k].decls[j].Func?
    ensures SameShape(asts, r)
    ensures r[k].decls[j] == asts[k].decls[j].(body := None)
    ensures forall k', j' :: 0 <= k' < |asts| && 0 <= j' < |asts[k'].decls| && (k', j') != (k, j) ==>
                               r[k'].decls[j'] == asts[k'].decls[j']
    ensures forall k' :: 0 <= k' < |asts| ==> r[k'].name == asts[k'].name && r[k'].pkgName == asts[k'].pkgName && r[k'].doc == asts[k'].doc
  {
    var f := asts[k];
    asts[k := f.(decls := f.decls[j := f.decls[j].(body := None)])]
  }

  /** A declaration as it is printed without its body: a FuncDecl's body left out, a GenDecl as it is. */
  function Head(d: Decl): (r: Decl)
    ensures r.Func? == d.Func? && (d.Func? ==> r.name == d.name && r.recv == d.recv && r.body.None?)
    ensures d.Gen? ==> r == d
  {
    if d.Func? then d.(body := None) else d
  }

  /** The head of declaration j of file k. */
  function HeadAt(asts: seq<AstFile>, k: nat, j: nat): Decl
    requires k < |asts| && j < |asts[k].decls|
  {
    Head(asts[k].decls[j])
  }

  /** Two snapshots of a package that differ at most in function bodies. */
  ghost predicate SameHeads(a: seq<AstFile>, b: seq<AstFile>) {
    SameShape(a, b) &&
    forall k, j :: 0 <= k < |a| && 0 <= j < |a[k].decls| ==> HeadAt(a, k, j) == HeadAt(b, k, j)
  }

  /** Clearing a body changes no declaration's head. */
  lemma ClearBodyHeads(asts: seq<AstFile>, k: nat, j: nat)
    requires k < |asts| && j < |asts[k].decls| && asts[k].decls[j].Func?
    ensures SameHeads(asts, ClearBody(asts, k, j))
  {
    var r := ClearBody(asts, k, j);
    forall k', j' | 0 <= k' < |asts| && 0 <= j' < |asts[k'].decls|
      ensures HeadAt(asts, k', j') == HeadAt(r, k', j')
    {
      if (k', j') == (k, j) {
        assert r[k].decls[j] == asts[k].decls[j].(body := None);
      } else {
        assert r[k'].decls[j'] == asts[k'].decls[j'];
      }
    }
  }

  lemma SameHeadsTrans(a: seq<AstFile>, b: seq<AstFile>, c: seq<AstFile>)
    requires SameHeads(a, b) && SameHeads(b, c)
    ensures SameHeads(a, c)
  {
    forall k, j | 0 <= k < |a| && 0 <= j < |a[k].decls|
      ensures HeadAt(a, k, j) == HeadAt(c, k, j)
    {
      assert HeadAt(a, k, j) == HeadAt(b, k, j);
    }
  }

  /** docs(node): the rendered node and a blank line, only under -doc. */
  function Docs(docFlag: bool, node: Node): (r: seq<Piece>)
    ensures docFlag <==> r != []
    ensures Bodiless(node) ==> NoBodies(r)
  {
    if docFlag then [Source(node), Text("\n\n")] else []
  }
}
