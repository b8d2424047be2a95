// The specification of methodSet and methodVisitor.Visit: collecting the
// documentation of every exported method of a type's method set by walking
// all files of the package once, matching declarations by the position of
// their identifier, and printing the results in the method set's order.

module MethodSets {
  import opened Syntax
  import opened Matching

  /** doc.go's `method`: an entry of the method set and the index of the doc to write. */
  datatype Pending = Pending(index: nat, obj: MethodObj)

  /** What the method visitors share: the package's ASTs, the methods still looked for, the docs slice. */
  datatype MState = MState(asts: seq<AstFile>, methods: seq<Pending>, docs: seq<seq<Piece>>)

  datatype Printed = Printed(asts: seq<AstFile>, out: seq<Piece>)

  /** The method set of T, or that of *T when T's is empty. */
  function ChooseMethodSet(t: TypeObj): (r: seq<MethodObj>)
    ensures |t.valueSet| > 0 ==> r == t.valueSet
    ensures |t.valueSet| == 0 ==> r == t.pointerSet
  {
    if |t.valueSet| == 0 then t.pointerSet else t.valueSet
  }

  predicate IndicesBelow(ps: seq<Pending>, n: nat) {
    forall t :: 0 <= t < |ps| ==> ps[t].index < n
  }

  /** Every entry is an exported member of the set, at its own index. */
  ghost predicate Faithful(ps: seq<Pending>, mset: seq<MethodObj>) {
    forall t :: 0 <= t < |ps| ==> ps[t].index < |mset| && ps[t].obj == mset[ps[t].index] && IsExported(ps[t].obj.name)
  }

  ghost predicate Increasing(ps: seq<Pending>) {
    forall t, u :: 0 <= t < u < |ps| ==> ps[t].index < ps[u].index
  }

  /** The first loop of methodSet, after its first n iterations. */
  function Exported(mset: seq<MethodObj>, n: nat): (r: seq<Pending>)
    requires n <= |mset|
    ensures Faithful(r, mset) && Increasing(r)
    ensures forall t :: 0 <= t < |r| ==> r[t].index < n
  {
    if n == 0 then []
    else Exported(mset, n - 1) + (if IsExported(mset[n - 1].name) then [Pending(n - 1, mset[n - 1])] else [])
  }

  /** Every exported member of the set is looked for: an index is in the list exactly when its name is exported. */
  lemma {:induction false} ExportedComplete(mset: seq<MethodObj>, n: nat)
    requires n <= |mset|
    ensures forall i :: 0 <= i < n ==> (IsExported(mset[i].name) <==> exists t :: 0 <= t < |Exported(mset, n)| && Exported(mset, n)[t].index == i)
  {
    if n > 0 {
      ExportedComplete(mset, n - 1);
      var prev := Exported(mset, n - 1);
      var r := Exported(mset, n);
      forall i | 0 <= i < n
        ensures IsExported(mset[i].name) <==> exists t :: 0 <= t < |r| && r[t].index == i
      {
        if IsExported(mset[i].name) {
          if i == n - 1 {
            assert r[|prev|].index == n - 1;
          } else {
            var t :| 0 <= t < |prev| && prev[t].index == i;
            assert r[t] == prev[t];
          }
        }
        if exists t :: 0 <= t < |r| && r[t].index == i {
          var t :| 0 <= t < |r| && r[t].index == i;
          assert r[t].obj == mset[i];
        }
      }
    }
  }

  /** The loop `for i, method := range visitor.methods`: the first entry at position pos, or |ps|. */
  function FindMethod(ps: seq<Pending>, pos: Pos, i: nat): (r: nat)
    requires i <= |ps|
    decreases |ps| - i
    ensures i <= r <= |ps|
    ensures forall t :: i <= t < r ==> ps[t].obj.pos != pos
    ensures r < |ps| ==> ps[r].obj.pos == pos
  {
    if i == |ps| then i
    else if ps[i].obj.pos == pos then i
    else FindMethod(ps, pos, i + 1)
  }

  /** A declaration is all docs[i] can hold: a bodiless function declared at the position of mset[i]. */
  ghost predicate DocOf(d: seq<Piece>, m: MethodObj) {
    |d| == 2 && d[1] == Text("\n\n") && d[0].Source? && d[0].node.DeclNode? && d[0].node.decl.Func? &&
    d[0].node.decl.name.pos == m.pos && d[0].node.decl.body.None?
  }

  ghost predicate DocsFor(docFlag: bool, docs: seq<seq<Piece>>, mset: seq<MethodObj>) {
    |docs| == |mset| &&
    forall i :: 0 <= i < |docs| ==> docs[i] == [] || (docFlag && IsExported(mset[i].name) && DocOf(docs[i], mset[i]))
  }

  predicate AllBodiless(docs: seq<seq<Piece>>) {
    forall i :: 0 <= i < |docs| ==> NoBodies(docs[i])
  }

  /** The pending list and the docs slice: what a method visitor updates besides the ASTs. */
  datatype Tally = Tally(methods: seq<Pending>, docs: seq<seq<Piece>>)

  /** A visit of d finds a method: d is a FuncDecl at the position of some pending entry. */
  predicate Hits(d: Decl, methods: seq<Pending>) {
    d.Func? && FindMethod(methods, d.name.pos, 0) < |methods|
  }

  /** What methodVisitor.Visit does to the pending list and the docs on declaration d: the doc write and the splice. */
  function Take(docFlag: bool, d: Decl, t: Tally): (r: Tally)
    requires IndicesBelow(t.methods, |t.docs|)
    ensures |r.docs| == |t.docs| && IndicesBelow(r.methods, |r.docs|) && |r.methods| <= |t.methods|
    ensures AllBodiless(t.docs) ==> AllBodiless(r.docs)
  {
    if !Hits(d, t.methods) then t
    else
      var x := FindMethod(t.methods, d.name.pos, 0);
      var methods := if |t.methods| == 1 then t.methods else t.methods[..x] + t.methods[x + 1..];
      assert forall u :: 0 <= u < |methods| ==> methods[u] == t.methods[if u < x || |t.methods| == 1 then u else u + 1];
      Tally(methods, t.docs[t.methods[x].index := Docs(docFlag, DeclNode(Func(d.name, d.recv, None)))])
  }

  /** The FuncDecl case of methodVisitor.Visit, on declaration j of file k: a hit also clears that declaration's body. */
  function MethodVisit(docFlag: bool, k: nat, j: nat, m: MState): (r: MState)
    requires k < |m.asts| && j < |m.asts[k].decls| && IndicesBelow(m.methods, |m.docs|)
    ensures SameShape(m.asts, r.asts) && |r.docs| == |m.docs| && IndicesBelow(r.methods, |r.docs|)
    ensures AllBodiless(m.docs) ==> AllBodiless(r.docs)
    ensures |r.methods| <= |m.methods|
  {
    var d := m.asts[k].decls[j];
    var t := Take(docFlag, d, Tally(m.methods, m.docs));
    MState(if Hits(d, m.methods) then ClearBody(m.asts, k, j) else m.asts, t.methods, t.docs)
  }

  /** ast.Walk of a methodVisitor over file k, from declaration j on. */
  function VisitMethods(docFlag: bool, k: nat, j: nat, m: MState): (r: MState)
    requires k < |m.asts| && j <= |m.asts[k].decls| && IndicesBelow(m.methods, |m.docs|)
    decreases |m.asts[k].decls| - j
    ensures SameShape(m.asts, r.asts) && |r.docs| == |m.docs| && IndicesBelow(r.methods, |r.docs|)
    ensures AllBodiless(m.docs) ==> AllBodiless(r.docs)
  {
    if j == |m.asts[k].decls| then m
    else VisitMethods(docFlag, k, j + 1, MethodVisit(docFlag, k, j, m))
  }

  /** One declaration of the walk of a file, unfolded. */
  lemma VisitMethodsStep(docFlag: bool, k: nat, j: nat, m: MState)
    requires k < |m.asts| && j < |m.asts[k].decls| && IndicesBelow(m.methods, |m.docs|)
    ensures VisitMethods(docFlag, k, j, m) == VisitMethods(docFlag, k, j + 1, MethodVisit(docFlag, k, j, m))
  {
  }

  /** The loop of methodSet over all files, from file k on. */
  function Collect(docFlag: bool, k: nat, m: MState): (r: MState)
    requires k <= |m.asts| && IndicesBelow(m.methods, |m.docs|)
    decreases |m.asts| - k
    ensures SameShape(m.asts, r.asts) && |r.docs| == |m.docs|
    ensures AllBodiless(m.docs) ==> AllBodiless(r.docs)
  {
    if k == |m.asts| then m
    else Collect(docFlag, k + 1, VisitMethods(docFlag, k, 0, m))
  }

  /** One turn of the loop over files, unfolded. */
  lemma CollectStep(docFlag: bool, k: nat, m: MState)
    requires k < |m.asts| && IndicesBelow(m.methods, |m.docs|)
    ensures Collect(docFlag, k, m) == Collect(docFlag, k + 1, VisitMethods(docFlag, k, 0, m))
  {
  }

  /** The printing loop of methodSet over its first n docs: the non-empty ones, in index order. */
  function PrintDocs(docs: seq<seq<Piece>>, n: nat): (r: seq<Piece>)
    requires n <= |docs|
    ensures AllBodiless(docs) ==> NoBodies(r)
  {
    if n == 0 then []
    else PrintDocs(docs, n - 1) + (if docs[n - 1] != [] then docs[n - 1] else [])
  }

  function EmptyDocs(n: nat): (r: seq<seq<Piece>>)
    ensures |r| == n && AllBodiless(r)
    ensures forall i :: 0 <= i < n ==> r[i] == []
  {
    seq(n, _ => [])
  }

  /** The docs slice once every file has been walked (methods non-empty). */
  function CollectedDocs(docFlag: bool, mset: seq<MethodObj>, asts: seq<AstFile>): (r: MState)
    ensures SameShape(asts, r.asts) && |r.docs| == |mset| && AllBodiless(r.docs)
  {
    Collect(docFlag, 0, MState(asts, Exported(mset, |mset|), EmptyDocs(|mset|)))
  }

  /** File.methodSet. */
  function MethodSet(docFlag: bool, mset: seq<MethodObj>, asts: seq<AstFile>, out: seq<Piece>): (r: Printed)
    ensures SameShape(asts, r.asts)
    ensures |r.out| >= |out| && r.out[..|out|] == out
    ensures NoBodies(out) ==> NoBodies(r.out)
    ensures !docFlag ==> r.out == out
  {
    if |Exported(mset, |mset|)| == 0 then Printed(asts, out)
    else
      var m := CollectedDocs(docFlag, mset, asts);
      var printed := PrintDocs(m.docs, |m.docs|);
      assert !docFlag ==> printed == [] by {
        if !docFlag { NothingPrintedWithoutDoc(mset, asts); }
      }
      Printed(m.asts, out + printed)
  }

  // ---------------------------------------------------------------------------------------
  // What the collection promises.

  /** One visit: a position match writes the doc at that method's index and drops that one entry, unless it is the last. */
  lemma MethodVisitEffect(docFlag: bool, k: nat, j: nat, m: MState)
    requires k < |m.asts| && j < |m.asts[k].decls| && IndicesBelow(m.methods, |m.docs|)
    ensures var d := m.asts[k].decls[j];
            var r := MethodVisit(docFlag, k, j, m);
            if d.Func? && exists t :: 0 <= t < |m.methods| && m.methods[t].obj.pos == d.name.pos then
              exists t :: 0 <= t < |m.methods| && m.methods[t].obj.pos == d.name.pos &&
                (forall u :: 0 <= u < t ==> m.methods[u].obj.pos != d.name.pos) &&
                r.docs == m.docs[m.methods[t].index := Docs(docFlag, DeclNode(d.(body := None)))] &&
                r.asts == ClearBody(m.asts, k, j) && r.asts[k].decls[j].body == None &&
                (|m.methods| > 1 ==> r.methods == m.methods[..t] + m.methods[t + 1..]) &&
                (|m.methods| == 1 ==> r.methods == m.methods)
            else r == m
  {
    var d := m.asts[k].decls[j];
    if d.Func? {
      var t := FindMethod(m.methods, d.name.pos, 0);
      if t < |m.methods| {
        assert d == Func(d.name, d.recv, d.body);
      }
    }
  }

  /** The collection invariant: every pending entry is an exported member at its own index, every doc empty or its method's declaration. */
  ghost predicate Good(docFlag: bool, mset: seq<MethodObj>, m: MState) {
    |m.docs| == |mset| && Faithful(m.methods, mset) && DocsFor(docFlag, m.docs, mset)
  }

  lemma MethodVisitFaithful(docFlag: bool, mset: seq<MethodObj>, k: nat, j: nat, m: MState)
    requires k < |m.asts| && j < |m.asts[k].decls| && Good(docFlag, mset, m)
    ensures IndicesBelow(m.methods, |m.docs|)
    ensures Good(docFlag, mset, MethodVisit(docFlag, k, j, m))
  {
    var r := MethodVisit(docFlag, k, j, m);
    var d := m.asts[k].decls[j];
    if d.Func? {
      var t := FindMethod(m.methods, d.name.pos, 0);
      if t < |m.methods| {
        var i := m.methods[t].index;
        assert r.docs == m.docs[i := Docs(docFlag, DeclNode(Func(d.name, d.recv, None)))];
        assert forall u :: 0 <= u < |r.methods| ==> r.methods[u] in m.methods;
        forall u | 0 <= u < |r.methods|
          ensures r.methods[u].index < |mset| && r.methods[u].obj == mset[r.methods[u].index] && IsExported(r.methods[u].obj.name)
        {
          var w :| 0 <= w < |m.methods| && m.methods[w] == r.methods[u];
        }
      }
    }
  }

  lemma {:induction false} VisitMethodsFaithful(docFlag: bool, mset: seq<MethodObj>, k: nat, j: nat, m: MState)
    requires k < |m.asts| && j <= |m.asts[k].decls| && Good(docFlag, mset, m)
    decreases |m.asts[k].decls| - j
    ensures IndicesBelow(m.methods, |m.docs|)
    ensures Good(docFlag, mset, VisitMethods(docFlag, k, j, m))
  {
    if j < |m.asts[k].decls| {
      MethodVisitFaithful(docFlag, mset, k, j, m);
      VisitMethodsFaithful(docFlag, mset, k, j + 1, MethodVisit(docFlag, k, j, m));
    }
  }

  lemma {:induction false} CollectFaithful(docFlag: bool, mset: seq<MethodObj>, k: nat, m: MState)
    requires k <= |m.asts| && Good(docFlag, mset, m)
    decreases |m.asts| - k
    ensures IndicesBelow(m.methods, |m.docs|)
    ensures DocsFor(docFlag, Collect(docFlag, k, m).docs, mset)
  {
    if k < |m.asts| {
      VisitMethodsFaithful(docFlag, mset, k, 0, m);
      CollectFaithful(docFlag, mset, k + 1, VisitMethods(docFlag, k, 0, m));
    }
  }

  /**
   * The order of the output: methodSet prints docs[0], docs[1], ... in turn, and
   * docs[i] is empty or the bodiless declaration found at the position of the
   * i-th method of the mset, which is exported; nothing is printed without -doc.
   */
  lemma MethodSetOrder(docFlag: bool, mset: seq<MethodObj>, asts: seq<AstFile>, out: seq<Piece>)
    requires |Exported(mset, |mset|)| > 0
    ensures var m := CollectedDocs(docFlag, mset, asts);
            DocsFor(docFlag, m.docs, mset) &&
            MethodSet(docFlag, mset, asts, out).out == out + PrintDocs(m.docs, |mset|)
  {
    CollectFaithful(docFlag, mset, 0, MState(asts, Exported(mset, |mset|), EmptyDocs(|mset|)));
  }

  // ---------------------------------------------------------------------------------------
  // Completeness: the doc of every exported method declared in the package is written at its index.

  /** d is a FuncDecl whose name is at position pos. */
  predicate FuncDeclAt(d: Decl, pos: Pos) {
    d.Func? && d.name.pos == pos
  }

  /** Declaration j of file k is a FuncDecl whose name is at position pos. */
  predicate FuncAt(asts: seq<AstFile>, k: nat, j: nat, pos: Pos)
    requires k < |asts| && j < |asts[k].decls|
  {
    FuncDeclAt(asts[k].decls[j], pos)
  }

  /** No other method of the set shares method i's position. */
  predicate UniqueAt(mset: seq<MethodObj>, i: nat)
    requires i < |mset|
  {
    forall b :: 0 <= b < |mset| && b != i ==> mset[b].pos != mset[i].pos
  }

  /** Some entry of the pending list is still looking for method i. */
  ghost predicate PendingAt(ps: seq<Pending>, i: nat) {
    exists t :: 0 <= t < |ps| && ps[t].index == i
  }

  /** The pending list holds exported members of the set at their own index, and there is a doc per member. */
  ghost predicate Tracks(mset: seq<MethodObj>, t: Tally) {
    |t.docs| == |mset| && Faithful(t.methods, mset)
  }

  /** Only a declaration's head decides what a visit does to the pending list and the docs. */
  lemma TakeHead(docFlag: bool, d: Decl, t: Tally)
    requires IndicesBelow(t.methods, |t.docs|)
    ensures Take(docFlag, Head(d), t) == Take(docFlag, d, t)
  {
  }

  lemma TakeTracks(docFlag: bool, mset: seq<MethodObj>, d: Decl, t: Tally)
    requires Tracks(mset, t)
    ensures IndicesBelow(t.methods, |t.docs|)
    ensures Tracks(mset, Take(docFlag, d, t))
  {
    var r := Take(docFlag, d, t);
    if Hits(d, t.methods) {
      assert forall u :: 0 <= u < |r.methods| ==> r.methods[u] in t.methods;
      forall u | 0 <= u < |r.methods|
        ensures r.methods[u].index < |mset| && r.methods[u].obj == mset[r.methods[u].index] && IsExported(r.methods[u].obj.name)
      {
        var w :| 0 <= w < |t.methods| && t.methods[w] == r.methods[u];
      }
    }
  }

  /** A visit of a declaration not at method i's position leaves docs[i] alone and keeps method i pending. */
  lemma TakeMiss(docFlag: bool, mset: seq<MethodObj>, i: nat, d: Decl, t: Tally)
    requires Tracks(mset, t) && i < |mset| && !FuncDeclAt(d, mset[i].pos)
    ensures IndicesBelow(t.methods, |t.docs|)
    ensures var r := Take(docFlag, d, t);
            r.docs[i] == t.docs[i] && (PendingAt(t.methods, i) ==> PendingAt(r.methods, i))
  {
    var r := Take(docFlag, d, t);
    if Hits(d, t.methods) {
      var x := FindMethod(t.methods, d.name.pos, 0);
      assert t.methods[x].index != i;
      if PendingAt(t.methods, i) && |t.methods| > 1 {
        var w :| 0 <= w < |t.methods| && t.methods[w].index == i;
        assert r.methods == t.methods[..x] + t.methods[x + 1..];
        assert r.methods[if w < x then w else w - 1] == t.methods[w];
      }
    }
  }

  /** The visit of method i's declaration while it is pending writes that declaration's docs at index i. */
  lemma TakeHit(docFlag: bool, mset: seq<MethodObj>, i: nat, d: Decl, t: Tally)
    requires Tracks(mset, t) && i < |mset| && UniqueAt(mset, i) && FuncDeclAt(d, mset[i].pos) && PendingAt(t.methods, i)
    ensures IndicesBelow(t.methods, |t.docs|)
    ensures Take(docFlag, d, t).docs[i] == Docs(docFlag, DeclNode(Head(d)))
  {
    var w :| 0 <= w < |t.methods| && t.methods[w].index == i;
    var x := FindMethod(t.methods, d.name.pos, 0);
    assert x <= w;
    var y := t.methods[x].index;
    assert mset[y].pos == mset[i].pos;
    assert y == i;
  }

  /** The walk of one file's declarations from the j-th on, as it acts on the pending list and the docs. */
  function TakeAll(docFlag: bool, ds: seq<Decl>, j: nat, t: Tally): (r: Tally)
    requires j <= |ds| && IndicesBelow(t.methods, |t.docs|)
    decreases |ds| - j
    ensures |r.docs| == |t.docs| && IndicesBelow(r.methods, |r.docs|)
  {
    if j == |ds| then t else TakeAll(docFlag, ds, j + 1, Take(docFlag, ds[j], t))
  }

  /** The walk of the files from the k-th on, as it acts on the pending list and the docs. */
  function TakeFiles(docFlag: bool, asts: seq<AstFile>, k: nat, t: Tally): (r: Tally)
    requires k <= |asts| && IndicesBelow(t.methods, |t.docs|)
    decreases |asts| - k
    ensures |r.docs| == |t.docs|
  {
    if k == |asts| then t else TakeFiles(docFlag, asts, k + 1, TakeAll(docFlag, asts[k].decls, 0, t))
  }

  /** A visit changes no declaration's head. */
  lemma MethodVisitHeads(docFlag: bool, a0: seq<AstFile>, k: nat, j: nat, m: MState)
    requires k < |m.asts| && j < |m.asts[k].decls| && IndicesBelow(m.methods, |m.docs|) && SameHeads(a0, m.asts)
    ensures SameHeads(a0, MethodVisit(docFlag, k, j, m).asts)
  {
    if Hits(m.asts[k].decls[j], m.methods) {
      ClearBodyHeads(m.asts, k, j);
      SameHeadsTrans(a0, m.asts, ClearBody(m.asts, k, j));
    }
  }

  lemma {:induction false} VisitMethodsHeads(docFlag: bool, a0: seq<AstFile>, k: nat, j: nat, m: MState)
    requires SameHeads(a0, m.asts) && k < |m.asts| && j <= |m.asts[k].decls| && IndicesBelow(m.methods, |m.docs|)
    decreases |m.asts[k].decls| - j
    ensures SameHeads(a0, VisitMethods(docFlag, k, j, m).asts)
  {
    if j < |m.asts[k].decls| {
      MethodVisitHeads(docFlag, a0, k, j, m);
      VisitMethodsStep(docFlag, k, j, m);
      VisitMethodsHeads(docFlag, a0, k, j + 1, MethodVisit(docFlag, k, j, m));
    }
  }

  function TallyOf(m: MState): Tally {
    Tally(m.methods, m.docs)
  }

  /** One visit acts on the pending list and the docs as Take on the original declaration. */
  lemma MethodVisitTake(docFlag: bool, a0: seq<AstFile>, k: nat, j: nat, m: MState)
    requires SameHeads(a0, m.asts) && k < |m.asts| && j < |m.asts[k].decls| && IndicesBelow(m.methods, |m.docs|)
    ensures TallyOf(MethodVisit(docFlag, k, j, m)) == Take(docFlag, a0[k].decls[j], TallyOf(m))
  {
    assert HeadAt(a0, k, j) == HeadAt(m.asts, k, j);
    TakeHead(docFlag, a0[k].decls[j], TallyOf(m));
    TakeHead(docFlag, m.asts[k].decls[j], TallyOf(m));
  }

  lemma TakeAllStep(docFlag: bool, ds: seq<Decl>, j: nat, t: Tally)
    requires j < |ds| && IndicesBelow(t.methods, |t.docs|)
    ensures TakeAll(docFlag, ds, j, t) == TakeAll(docFlag, ds, j + 1, Take(docFlag, ds[j], t))
  {
  }

  /** The walk of file k acts on the pending list and the docs as TakeAll over the file's original declarations. */
  lemma {:induction false} VisitMethodsTake(docFlag: bool, a0: seq<AstFile>, k: nat, j: nat, m: MState)
    requires SameHeads(a0, m.asts) && k < |m.asts| && j <= |m.asts[k].decls| && IndicesBelow(m.methods, |m.docs|)
    decreases |m.asts[k].decls| - j
    ensures TallyOf(VisitMethods(docFlag, k, j, m)) == TakeAll(docFlag, a0[k].decls, j, TallyOf(m))
    ensures SameHeads(a0, VisitMethods(docFlag, k, j, m).asts)
  {
    VisitMethodsHeads(docFlag, a0, k, j, m);
    if j < |m.asts[k].decls| {
      var m1 := MethodVisit(docFlag, k, j, m);
      MethodVisitHeads(docFlag, a0, k, j, m);
      MethodVisitTake(docFlag, a0, k, j, m);
      VisitMethodsStep(docFlag, k, j, m);
      TakeAllStep(docFlag, a0[k].decls, j, TallyOf(m));
      VisitMethodsTake(docFlag, a0, k, j + 1, m1);
    }
  }

  lemma TakeFilesStep(docFlag: bool, asts: seq<AstFile>, k: nat, t: Tally)
    requires k < |asts| && IndicesBelow(t.methods, |t.docs|)
    ensures TakeFiles(docFlag, asts, k, t) == TakeFiles(docFlag, asts, k + 1, TakeAll(docFlag, asts[k].decls, 0, t))
  {
  }

  /** The walk of the files acts on the pending list and the docs as TakeFiles over the original files. */
  lemma {:induction false} CollectTake(docFlag: bool, a0: seq<AstFile>, k: nat, m: MState)
    requires SameHeads(a0, m.asts) && k <= |m.asts| && IndicesBelow(m.methods, |m.docs|)
    decreases |m.asts| - k, 1
    ensures TallyOf(Collect(docFlag, k, m)) == TakeFiles(docFlag, a0, k, TallyOf(m))
  {
    if k < |m.asts| {
      CollectTakeNext(docFlag, a0, k, m);
    }
  }

  /** The walk of the files from the k-th on, where there is a k-th: its first turn, then the rest. */
  lemma {:induction false} CollectTakeNext(docFlag: bool, a0: seq<AstFile>, k: nat, m: MState)
    requires SameHeads(a0, m.asts) && k < |m.asts| && IndicesBelow(m.methods, |m.docs|)
    decreases |m.asts| - k, 0
    ensures TallyOf(Collect(docFlag, k, m)) == TakeFiles(docFlag, a0, k, TallyOf(m))
  {
    var m1 := VisitMethods(docFlag, k, 0, m);
    VisitMethodsTake(docFlag, a0, k, 0, m);
    CollectStep(docFlag, k, m);
    TakeFilesStep(docFlag, a0, k, TallyOf(m));
    CollectTake(docFlag, a0, k + 1, m1);
  }

  /** The declarations of one file from the j-th on, where none is at method i's position. */
  lemma {:induction false} TakeAllMiss(docFlag: bool, mset: seq<MethodObj>, i: nat, ds: seq<Decl>, j: nat, t: Tally)
    requires j <= |ds| && Tracks(mset, t) && i < |mset|
    requires forall j' :: j <= j' < |ds| ==> !FuncDeclAt(ds[j'], mset[i].pos)
    decreases |ds| - j
    ensures IndicesBelow(t.methods, |t.docs|)
    ensures var r := TakeAll(docFlag, ds, j, t);
            Tracks(mset, r) && r.docs[i] == t.docs[i] && (PendingAt(t.methods, i) ==> PendingAt(r.methods, i))
  {
    if j < |ds| {
      TakeMiss(docFlag, mset, i, ds[j], t);
      TakeTracks(docFlag, mset, ds[j], t);
      TakeAllMiss(docFlag, mset, i, ds, j + 1, Take(docFlag, ds[j], t));
    }
  }

  /** The declarations of one file from the j-th on, where the j0-th is the only one at method i's position. */
  lemma {:induction false} TakeAllHit(docFlag: bool, mset: seq<MethodObj>, i: nat, ds: seq<Decl>, j: nat, j0: nat, t: Tally)
    requires j <= j0 < |ds| && Tracks(mset, t) && i < |mset| && UniqueAt(mset, i)
    requires PendingAt(t.methods, i) && FuncDeclAt(ds[j0], mset[i].pos)
    requires forall j' :: j <= j' < |ds| && j' != j0 ==> !FuncDeclAt(ds[j'], mset[i].pos)
    decreases j0 - j
    ensures IndicesBelow(t.methods, |t.docs|)
    ensures var r := TakeAll(docFlag, ds, j, t);
            Tracks(mset, r) && r.docs[i] == Docs(docFlag, DeclNode(Head(ds[j0])))
  {
    TakeTracks(docFlag, mset, ds[j], t);
    if j == j0 {
      TakeHit(docFlag, mset, i, ds[j], t);
      TakeAllMiss(docFlag, mset, i, ds, j + 1, Take(docFlag, ds[j], t));
    } else {
      TakeMiss(docFlag, mset, i, ds[j], t);
      TakeAllHit(docFlag, mset, i, ds, j + 1, j0, Take(docFlag, ds[j], t));
    }
  }

  /** The files from the k-th on, none of which declares anything at method i's position. */
  lemma {:induction false} TakeFilesMiss(docFlag: bool, mset: seq<MethodObj>, i: nat, asts: seq<AstFile>, k: nat, t: Tally)
    requires k <= |asts| && Tracks(mset, t) && i < |mset|
    requires forall k', j :: k <= k' < |asts| && 0 <= j < |asts[k'].decls| ==> !FuncAt(asts, k', j, mset[i].pos)
    decreases |asts| - k
    ensures IndicesBelow(t.methods, |t.docs|)
    ensures TakeFiles(docFlag, asts, k, t).docs[i] == t.docs[i]
  {
    if k < |asts| {
      forall j' | 0 <= j' < |asts[k].decls| ensures !FuncDeclAt(asts[k].decls[j'], mset[i].pos) {
        assert !FuncAt(asts, k, j', mset[i].pos);
      }
      TakeAllMiss(docFlag, mset, i, asts[k].decls, 0, t);
      TakeFilesMiss(docFlag, mset, i, asts, k + 1, TakeAll(docFlag, asts[k].decls, 0, t));
    }
  }

  /**
   * The files from the k-th on, where declaration j0 of file k0 is the only
   * one at the position of pending method i: docs[i] ends up as the docs of
   * that declaration without its body.
   */
  lemma {:induction false} CollectComplete(docFlag: bool, mset: seq<MethodObj>, i: nat, asts: seq<AstFile>, k: nat, k0: nat, j0: nat, t: Tally)
    requires k <= k0 < |asts| && j0 < |asts[k0].decls| && Tracks(mset, t) && i < |mset| && UniqueAt(mset, i)
    requires PendingAt(t.methods, i) && FuncAt(asts, k0, j0, mset[i].pos)
    requires forall k', j :: k <= k' < |asts| && 0 <= j < |asts[k'].decls| && (k' != k0 || j != j0) ==> !FuncAt(asts, k', j, mset[i].pos)
    decreases k0 - k
    ensures IndicesBelow(t.methods, |t.docs|)
    ensures TakeFiles(docFlag, asts, k, t).docs[i] == Docs(docFlag, DeclNode(Head(asts[k0].decls[j0])))
  {
    var ds := asts[k].decls;
    if k == k0 {
      forall j' | 0 <= j' < |ds| && j' != j0 ensures !FuncDeclAt(ds[j'], mset[i].pos) {
        assert !FuncAt(asts, k, j', mset[i].pos);
      }
      assert FuncAt(asts, k0, j0, mset[i].pos);
      TakeAllHit(docFlag, mset, i, ds, 0, j0, t);
      TakeFilesMiss(docFlag, mset, i, asts, k + 1, TakeAll(docFlag, ds, 0, t));
    } else {
      forall j' | 0 <= j' < |ds| ensures !FuncDeclAt(ds[j'], mset[i].pos) {
        assert !FuncAt(asts, k, j', mset[i].pos);
      }
      TakeAllMiss(docFlag, mset, i, ds, 0, t);
      CollectComplete(docFlag, mset, i, asts, k + 1, k0, j0, TakeAll(docFlag, ds, 0, t));
    }
  }

  /** Where a method is declared in the package: nowhere, or at the one FuncDecl at its position. */
  datatype Loc = Loc(file: nat, decl: nat)

  ghost predicate LocatedAt(asts: seq<AstFile>, l: Option<Loc>, pos: Pos) {
    match l
    case None => forall k, j :: 0 <= k < |asts| && 0 <= j < |asts[k].decls| ==> !FuncAt(asts, k, j, pos)
    case Some(loc) =>
      loc.file < |asts| && loc.decl < |asts[loc.file].decls| && FuncAt(asts, loc.file, loc.decl, pos) &&
      forall k, j :: 0 <= k < |asts| && 0 <= j < |asts[k].decls| && FuncAt(asts, k, j, pos) ==> k == loc.file && j == loc.decl
  }

  ghost predicate Locates(mset: seq<MethodObj>, asts: seq<AstFile>, locs: seq<Option<Loc>>) {
    |locs| == |mset| && forall i :: 0 <= i < |mset| ==> LocatedAt(asts, locs[i], mset[i].pos)
  }

  /**
   * A method declared in the package shares its position with no other method
   * of the set. Methods promoted from imported types may all sit at the same
   * unknown position; they are declared nowhere in the package.
   */
  predicate DeclaredDistinct(mset: seq<MethodObj>, locs: seq<Option<Loc>>) {
    |locs| == |mset| &&
    forall a, b :: 0 <= a < |mset| && 0 <= b < |mset| && a != b && locs[a].Some? ==> mset[a].pos != mset[b].pos
  }

  /** What methodSet prints for method i: the bodiless docs of its declaration when it is exported and declared here, nothing otherwise. */
  ghost function ExpectedDoc(docFlag: bool, mset: seq<MethodObj>, asts: seq<AstFile>, locs: seq<Option<Loc>>, i: nat): seq<Piece>
    requires Locates(mset, asts, locs) && i < |mset|
  {
    match locs[i]
    case None => []
    case Some(l) => if IsExported(mset[i].name) then Docs(docFlag, DeclNode(Head(asts[l.file].decls[l.decl]))) else []
  }

  /** The expected docs of the first n methods of the set, in the set's order. */
  ghost function ExpectedDocs(docFlag: bool, mset: seq<MethodObj>, asts: seq<AstFile>, locs: seq<Option<Loc>>, n: nat): seq<Piece>
    requires Locates(mset, asts, locs) && n <= |mset|
  {
    if n == 0 then [] else ExpectedDocs(docFlag, mset, asts, locs, n - 1) + ExpectedDoc(docFlag, mset, asts, locs, n - 1)
  }

  /** Once every file is walked, docs[i] is exactly ExpectedDoc for every method of the set. */
  lemma CollectedDocsExpected(docFlag: bool, mset: seq<MethodObj>, asts: seq<AstFile>, locs: seq<Option<Loc>>)
    requires Locates(mset, asts, locs) && DeclaredDistinct(mset, locs)
    ensures forall i :: 0 <= i < |mset| ==> CollectedDocs(docFlag, mset, asts).docs[i] == ExpectedDoc(docFlag, mset, asts, locs, i)
  {
    var m0 := MState(asts, Exported(mset, |mset|), EmptyDocs(|mset|));
    var t0 := Tally(m0.methods, m0.docs);
    assert Good(docFlag, mset, m0) && Tracks(mset, t0);
    ExportedComplete(mset, |mset|);
    CollectFaithful(docFlag, mset, 0, m0);
    CollectTake(docFlag, asts, 0, m0);
    forall i | 0 <= i < |mset|
      ensures CollectedDocs(docFlag, mset, asts).docs[i] == ExpectedDoc(docFlag, mset, asts, locs, i)
    {
      assert LocatedAt(asts, locs[i], mset[i].pos);
      if locs[i].None? {
        TakeFilesMiss(docFlag, mset, i, asts, 0, t0);
      } else if IsExported(mset[i].name) {
        var l := locs[i].value;
        assert PendingAt(m0.methods, i);
        assert UniqueAt(mset, i);
        CollectComplete(docFlag, mset, i, asts, 0, l.file, l.decl, t0);
      }
    }
  }

  lemma {:induction false} PrintDocsExpected(docFlag: bool, mset: seq<MethodObj>, asts: seq<AstFile>, locs: seq<Option<Loc>>, docs: seq<seq<Piece>>, n: nat)
    requires Locates(mset, asts, locs) && n <= |mset| && |docs| == |mset|
    requires forall i :: 0 <= i < |mset| ==> docs[i] == ExpectedDoc(docFlag, mset, asts, locs, i)
    ensures PrintDocs(docs, n) == ExpectedDocs(docFlag, mset, asts, locs, n)
  {
    if n > 0 { PrintDocsExpected(docFlag, mset, asts, locs, docs, n - 1); }
  }

  lemma {:induction false} ExpectedDocsNone(docFlag: bool, mset: seq<MethodObj>, asts: seq<AstFile>, locs: seq<Option<Loc>>, n: nat)
    requires Locates(mset, asts, locs) && n <= |mset|
    requires forall i :: 0 <= i < |mset| ==> !IsExported(mset[i].name)
    ensures ExpectedDocs(docFlag, mset, asts, locs, n) == []
  {
    if n > 0 { ExpectedDocsNone(docFlag, mset, asts, locs, n - 1); }
  }

  /**
   * What methodSet prints: for each method of the set in the set's order
   * (go/types sorts it by name), the docs of its declaration without the body
   * when the method is exported and declared in the package, and nothing for
   * the others; the order the files declare the methods in plays no part.
   */
  lemma MethodSetPrinted(docFlag: bool, mset: seq<MethodObj>, asts: seq<AstFile>, locs: seq<Option<Loc>>, out: seq<Piece>)
    requires Locates(mset, asts, locs) && DeclaredDistinct(mset, locs)
    ensures MethodSet(docFlag, mset, asts, out).out == out + ExpectedDocs(docFlag, mset, asts, locs, |mset|)
  {
    if |Exported(mset, |mset|)| == 0 {
      ExportedComplete(mset, |mset|);
      ExpectedDocsNone(docFlag, mset, asts, locs, |mset|);
    } else {
      CollectedDocsExpected(docFlag, mset, asts, locs);
      var m := CollectedDocs(docFlag, mset, asts);
      PrintDocsExpected(docFlag, mset, asts, locs, m.docs, |mset|);
    }
  }

  /** Without -doc every docs entry stays empty, so the method set prints nothing. */
  lemma NothingPrintedWithoutDoc(mset: seq<MethodObj>, asts: seq<AstFile>)
    ensures PrintDocs(CollectedDocs(false, mset, asts).docs, |mset|) == []
  {
    var m := CollectedDocs(false, mset, asts);
    CollectFaithful(false, mset, 0, MState(asts, Exported(mset, |mset|), EmptyDocs(|mset|)));
    EmptyPrintsNothing(m.docs, |mset|);
  }

  lemma {:induction false} EmptyPrintsNothing(docs: seq<seq<Piece>>, n: nat)
    requires n <= |docs| && forall i :: 0 <= i < n ==> docs[i] == []
    ensures PrintDocs(docs, n) == []
  {
    if n > 0 { EmptyPrintsNothing(docs, n - 1); }
  }
}
