# doc: a verified model of the lookup core

`doc` is a command-line tool. It finds the Go declarations whose name matches
a target, in the packages whose directory matches a package hint, and prints
three things for each: a godoc URL, a `file:line:` locator, and the
declaration with its comment. This project models the decision engine of
`doc.go` in Dafny and proves what that engine promises.

- **Flags and arguments.** In `main`: the kind flags and the output flags get
  their defaults, the positional arguments become `(pkg, name)`, and `split`
  cuts `pkg.name` at its first dot.
- **Matching.** `File.match` needs an exported name. A literal target is
  compared case-insensitively. A target with regexp metacharacters (so that
  `QuoteMeta(ident) != ident`) is compiled as `^(?i:ident)$`.
- **Declaration selection.** `File.Visit`, as `ast.Walk` drives it over a
  file, with `printNode`, the URL builders (`packageURL`, `nameURL`,
  `methodURL`), `sourcePos` and `pkgComments`.
- **The two passes of `doPackage`.** The first loop builds a `File` for each
  kept file and walks it with `doPrint` false until something is found. The
  second loop runs only after a hit, and walks every `File` with `doPrint`
  true.
- **Method sets.** `methodSet` and `methodVisitor.Visit` keep the exported
  methods with their indices and walk every file of the package. They match
  function declarations by the identifier's position, write each doc at its
  method's index, splice the pending list, and print the docs in index order.

## Layout

The code is modelled in two layers.

- **Pure specification modules.** `Text`, `Syntax`, `Options`, `Matching`,
  `Locators`, `MethodSets`, `Walk` and `Package` are functions over values:
  - the ASTs are datatypes;
  - standard output is a sequence of pieces;
  - the regexp engine, the type checker's objects and the directory search
    are parameters.
- **The imperative module `Doc`.** It has the source's mutable objects:
  - an `AstPackage`, whose files change in place when `n.Body = nil` runs;
  - a `Stdout`;
  - `MethodVisitor`, with its pending `methods` slice and the shared `docs`
    array;
  - `File`, with its `doPrint`, `found` and `objs` fields.

  Each of their methods, and the loops of `doPackage`, `methodSet` and
  `main`, is proved to leave exactly the state that the matching
  specification function computes. The properties are proved about those
  functions.

Six behaviours of `doc.go` that a reader may not expect:

- **Local declarations.** `ast.Walk` descends into the body of any function
  declaration that `Visit` did not clear, so consts, vars and types declared
  inside an unmatched function are candidates too, not only top-level ones
  (doc.go:420-431).
- **Package mode.** With `-package`, `pkgComments` prints during the first
  loop even though `doPrint` is false. `found` is never set, so the second
  loop never runs (doc.go:315-328, 467-481).
- **Method sets and kind flags.** When printing, the method set of a matching
  type is printed whenever the type checker knows the type, whatever the
  kind flags say. A type the kind flags do not select never sets `found`
  itself (doc.go:396-407), so this shows only when another hit in the
  package started the printing pass. Then `-interface` on a struct prints
  its methods but not the struct (doc.go:393-414).
- **The bad-regexp exit.** An invalid pattern is detected in `doPackage`, at
  the first file the package keeps, not before scanning. Nothing is printed
  before the exit, because with an invalid pattern every package earlier in
  the loop kept no file and so printed nothing. A package that keeps no file
  does not exit (doc.go:285-292).
- **The last pending method.** When the last pending method is found, it is
  not removed from the list (doc.go:579-581).
- **Files after a hit.** The first loop stops walking files once one is
  found, but it still builds the remaining `File`s (doc.go:311-314).

## Model

| member | source | states |
|---|---|---|
| Text.ToLower | doc.go:440 | strings.ToLower keeps the length and lowers each character, and nothing else |
| Text.CaseVariantsIff | doc.go:440 | two strings have equal lower-case forms exactly when they differ only in the case of their letters |
| Text.HasPrefixIff | doc.go:295-305 | strings.HasPrefix holds exactly when the string is the prefix followed by something |
| Text.TrimPrefix | doc.go:484 | a present prefix is removed, so that prefix + result is the input; otherwise the input is returned |
| Text.IndexOf | doc.go:184 | the index of the first occurrence: the character is there and does not occur before it |
| Text.LastIndex | doc.go:486 | -1 or the index of an occurrence, with no occurrence after it |
| Text.Decimal | doc.go:496 | the %d text of a line number is a non-empty string of digits, with no leading zero: it starts with '0' exactly for zero |
| Text.DecimalRoundTrip | doc.go:496 | reading the %d text back gives the number |
| Syntax.ClearBody | doc.go:423 | `n.Body = nil`: that declaration loses its body; every other declaration stays the same, every file keeps its name, package name and package comment, and the shape is kept |
| Syntax.Docs | doc.go:453-465 | docs(node) is non-empty exactly under -doc, and it never renders a function body when the node has none |
| Options.Defaulted | doc.go:135-147 | with no kind flag set: exactly const, func, method, type and var, never package, interface or struct; with one set: the kind flags as given; with no output flag set: doc, src and url; with one set: as given; -r unchanged |
| Options.DefaultedIdempotent | doc.go:135-147 | filling in the defaults twice is the same as once |
| Options.FlagSet.SetDefaults | doc.go:135-147 | the two in-place updates of the global flags leave exactly Defaulted of the parsed flags |
| Options.Split | doc.go:183-186 | on an argument holding a dot: the package part has no dot, and pkg + "." + name is the argument |
| Options.SplitUnique | doc.go:183-186 | split of p + "." + n, with p free of dots, gives back (p, n) |
| Options.Dispatch | doc.go:148-171 | every argument count and flag combination: the usage exit for a count other than 1 or 2 and for -package with two arguments; the slash exit exactly when the package each case assigns holds a slash (the first of two arguments, the single argument under -package, the part before the dot of a dotted single argument); otherwise the (pkg, name) pair each case assigns, with a dotted single argument split |
| Matching.QuoteMeta | doc.go:285 | quoting never shortens the target |
| Matching.QuoteMetaRoundTrip | doc.go:285 | unquoting QuoteMeta's result gives the target back |
| Matching.QuoteMetaIdentityIff | doc.go:285 | QuoteMeta leaves the target unchanged exactly when it has no metacharacter |
| Matching.IsRegexpIff | doc.go:285 | the target is taken as a regular expression exactly when it holds a metacharacter |
| Matching.Anchored | doc.go:288 | the pattern is the target between `^(?i:` and `)$` |
| Matching.Target | doc.go:285-293 | a File gets a regexp exactly when the target has a metacharacter, and it is the anchored pattern |
| Matching.Match | doc.go:434-443 | false for an unexported name; a literal target matches exactly the exported names equal to it up to case; a regexp target matches exactly the exported names the engine accepts |
| Matching.LiteralMatchesCaseVariants | doc.go:439-440 | any exported re-casing of a literal target is found |
| Matching.LiteralMatchIgnoresCase | doc.go:439-440 | re-casing either the candidate or the target does not change a literal match |
| Matching.UnexportedNeverMatches | doc.go:436-438 | a name starting with a lower-case letter is never found, even by itself |
| Locators.FirstRoot | doc.go:303-309 | the GOPATH loop picks the first root that prefixes the file name, or none |
| Locators.ChoosePrefixes | doc.go:294-310 | the GOROOT src/pkg root first, then src/cmd, each with its golang.org base; otherwise godoc.org with the first GOPATH src that prefixes the name, or an empty prefix when none does |
| Locators.PackageURL | doc.go:483-490 | the URL base followed by the file name with its root stripped; when a separator occurs past the first character, the text is cut just after the last one and ends with it; otherwise it is kept whole |
| Locators.PackageURLUntruncated | doc.go:486-489 | a stripped name with no separator past its first character is kept entirely |
| Locators.StripStar | doc.go:513-515 | at most one leading '*' is removed from the receiver text |
| Locators.StripStarOnce | doc.go:513-515 | a receiver `**T` keeps one star |
| Locators.NameURL | doc.go:499-504 | "" without -url; otherwise the package URL with `#Name` and a newline |
| Locators.MethodURL | doc.go:506-517 | "" without -url; otherwise the package URL with `#Type.Name` and a newline, with one leading '*' dropped from the type |
| Locators.MethodURLIgnoresPointer | doc.go:513-516 | pointer and value receivers of the same type give the same anchor |
| Locators.SourcePos | doc.go:492-497 | "" without -src; otherwise `file:` and the line's decimal digits (non-empty, no leading zero), which read back as the line, and `:` and a newline |
| MethodSets.ChooseMethodSet | doc.go:408-412 | the method set of T, or that of *T when T's is empty |
| MethodSets.Exported | doc.go:537-547 | the search list holds only exported members of the set, each at its own index, in increasing index order |
| MethodSets.ExportedComplete | doc.go:539-547 | an index is in the search list exactly when its method's name is exported |
| MethodSets.FindMethod | doc.go:573-575 | the first pending method declared at the position, or none |
| MethodSets.MethodVisit | doc.go:570-589 | a visit keeps the AST shape and the docs length, keeps every pending index in range, and never lengthens the pending list |
| MethodSets.MethodVisitEffect | doc.go:573-585 | a function declared at a pending method's position: the first such entry gets its bodiless doc written at its index, the declaration's body is cleared and every other part of every file stays as it was, and that entry alone is removed unless it is the last one left; anything else changes nothing |
| MethodSets.MethodVisitFaithful | doc.go:573-583 | a visit keeps the collection invariant: every pending entry is an exported member at its own index, and every doc is empty or its own method's bodiless declaration |
| MethodSets.VisitMethodsFaithful | doc.go:558 | the walk of one file keeps the collection invariant |
| MethodSets.CollectFaithful | doc.go:552-560 | after the walks of all files, every doc is empty or the declaration at its own method's position |
| MethodSets.CollectStep | doc.go:552-560 | the loop over files goes one file at a time: the rest of the walk starts where this file's walk ends |
| MethodSets.PrintDocs | doc.go:562-566 | the printed docs render no function body |
| MethodSets.MethodSet | doc.go:535-567 | methodSet keeps the AST shape and only appends to the output, never a function body, and prints nothing without -doc |
| MethodSets.MethodSetOrder | doc.go:561-566 | the output is docs[0], docs[1], … in index order, whatever order the files held them in; each doc is empty or the exported i-th method's declaration |
| MethodSets.VisitMethods | doc.go:558 | the walk of one file keeps the AST shape and the docs length, and every pending index in range |
| MethodSets.Collect | doc.go:552-560 | the loop over files keeps the AST shape and the docs length, and never puts a function body in a doc |
| MethodSets.CollectedDocs | doc.go:537-560 | after collection there is one doc per method of the set, none rendering a function body |
| MethodSets.TakeAllHit | doc.go:573-585 | in a file whose one declaration at a pending method's position is the j0-th, the walk writes that declaration's bodiless docs at the method's index |
| MethodSets.TakeFilesMiss | doc.go:552-560 | a method declared in none of the remaining files keeps its doc |
| MethodSets.CollectComplete | doc.go:552-585 | a pending method declared at exactly one place in the package gets that declaration's bodiless docs, whatever file holds it and whichever other methods are found first |
| MethodSets.CollectTake | doc.go:552-560 | the walk over the files acts on the pending list and the docs as a walk over the original declarations, bodies cleared along the way making no difference |
| MethodSets.CollectedDocsExpected | doc.go:537-585 | after the walk, the doc of every method of the set is exactly its declaration's bodiless docs when it is exported and declared in the package, and empty otherwise |
| MethodSets.MethodSetPrinted | doc.go:535-567 | methodSet prints, in the set's order, the bodiless docs of each exported method declared in the package and nothing for the others, whatever the order of files and declarations |
| MethodSets.NothingPrintedWithoutDoc | doc.go:454-455 | without -doc every doc stays empty and the method set prints nothing |
| MethodSets.EmptyPrintsNothing | doc.go:562-566 | empty docs print nothing |
| Walk.PrintNode | doc.go:445-451 | in discovery it only sets found; when printing, the url, the locator and the docs are appended, in that order, and nothing else changes |
| Walk.FirstMatch | doc.go:376-381 | the first name of the spec that matches; none of the earlier names match |
| Walk.PrintType | doc.go:394-407 | the kind-flag switch on a type changes no AST, prints only when printing and sets found only in discovery |
| Walk.VisitSpec | doc.go:372-419 | one spec keeps the AST shape, only appends to the output, prints only when printing and sets found only in discovery |
| Walk.VisitGenDecl | doc.go:372-419 | the same promises for the loop over a GenDecl's specs |
| Walk.VisitLocals | doc.go:420-431 | the same promises for the descent into an uncleared function body |
| Walk.Visit | doc.go:368-432 | the same promises for one declaration with the descent into it |
| Walk.WalkFile | doc.go:319 | the same promises for a whole file |
| Walk.PrintTypeSelected | doc.go:394-407 | a matching type is printed exactly when -type is set, or it is an interface under -interface, or a struct under -struct |
| Walk.TypeSpecFound | doc.go:393-407 | in discovery, a matching type sets found exactly when the kind flags select it, and changes nothing else |
| Walk.TypeSpecPrinted | doc.go:389-414 | when printing, a matching type's output starts with its head (the spec in a parenthesised group, otherwise the GenDecl, under the kind flags); when the type checker does not know the type, the head is all it writes and no AST changes |
| Walk.FuncDeclClears | doc.go:422-423 | a matching function declaration loses its body whatever the flags |
| Walk.FuncDeclUnfold | doc.go:422-429 | a matching function is printed with methodURL under -method when it has a receiver, with nameURL under -func when it has none, and not printed otherwise |
| Walk.FuncDeclCases | doc.go:422-429 | a matching function that is a hit sets found in discovery and, when printing, writes its locator and bodiless docs; one that is not a hit changes neither found nor the output |
| Walk.FuncDeclVisit | doc.go:424-428 | a matching function is a hit exactly as a method under -method or as a plain function under -func; discovery sets found for a hit, and printing writes the hit's locator and bodiless docs |
| Walk.ValueSpecVisit | doc.go:375-381 | a const or var spec is a hit exactly when its keyword's flag is set and one of its names matches; discovery then sets found and changes nothing else; printing writes the whole GenDecl once, at the first matching name, or nothing |
| Walk.WalkFileSummary | doc.go:368-432 | a discovery walk writes nothing, and no walk prints a function body |
| Walk.VisitSpecAgree | doc.go:372-419 | the found value a spec visit starts from does not affect the ASTs or the output |
| Walk.VisitGenDeclAgree | doc.go:372-419 | likewise for a GenDecl |
| Walk.VisitLocalsAgree | doc.go:420-431 | likewise for the declarations inside a function body |
| Walk.VisitAgree | doc.go:368-432 | likewise for one top-level declaration |
| Walk.WalkFileAgree | doc.go:360 | likewise for a file, so the second loop does not depend on what the first loop left in found |
| Package.NewFileInfo | doc.go:278-310 | a File for file i has its index, name and target, a regexp exactly when the target has a metacharacter, and the prefixes ChoosePrefixes picks |
| Package.PkgCommentText | doc.go:467-481 | the package comment line is the package URL and a newline under -url, then the file's locator (SourcePos, empty without -src), then `package name`, the comment text and a blank line under -doc; so it is empty with no output flag, and under -src without -doc it ends with the locator's `:` and newline |
| Package.PkgComments | doc.go:467-481 | one line for a file with a package comment, nothing for a file without one |
| Package.KeepFile | doc.go:311-323 | keeping a file keeps the AST count and every File index in range |
| Package.KeepFileFacts | doc.go:311-323 | the File is appended; once found is set the file is not walked; a walk prints nothing, and -package prints without clearing or setting found |
| Package.Discover | doc.go:274-324 | the first loop keeps the AST count and every File index in range |
| Package.DiscoverStep | doc.go:275-292 | one turn of the first loop: a file without a package comment is skipped under -package; a bad pattern exits; otherwise the file is kept |
| Package.DiscoverDone | doc.go:274 | the first loop ends after the last file |
| Package.DiscoverFacts | doc.go:274-324 | the first loop only appends to the output, keeps the AST shape, and exits only with BadRegexp on the anchored target when the target is a pattern that does not compile |
| Package.PrintFile | doc.go:355-361 | one File of the second loop keeps the AST count |
| Package.PrintPass | doc.go:354-362 | the second loop keeps the AST count |
| Package.PrintPassStep | doc.go:354-362 | the second loop goes one File at a time |
| Package.PrintPassFacts | doc.go:354-362 | the second loop keeps the AST shape and only appends to the output, never a function body |
| Package.DoPackage | doc.go:271-363 | doPackage keeps the AST shape and only appends to the output, never a function body; its only exit is BadRegexp on a pattern that does not compile, and with such a pattern it exits exactly when some file is kept, so by name whenever the package has a file |
| Package.FirstPass | doc.go:272-324 | the first loop keeps the AST shape, appends only under -package, never unsets found, and exits only with BadRegexp on a pattern that does not compile |
| Package.DiscoverBadTargetExit | doc.go:275-292 | with a bad pattern the first loop exits exactly when it reaches a file it keeps |
| Package.FirstPassExit | doc.go:275-292 | with a bad pattern doPackage's first loop exits exactly when the package has a kept file, so by name whenever it has a file |
| Package.DiscoverPackageMode | doc.go:275-317 | under -package the first loop prints the package comment of every file that has one, in file order, and never sets found |
| Package.PackageModeSinglePass | doc.go:312-328 | -package: doPackage prints exactly those package comments, changes no AST and never enters the second loop |
| Package.NothingFoundNothingPrinted | doc.go:326-328 | by name: doPackage prints only after the first loop found something |
| Package.DiscoverKeepsEveryFile | doc.go:274-311 | by name, with a usable target, every file gets a File, in order |
| Package.ByNameKeepsEveryFile | doc.go:350-353 | so the second loop walks the whole package and every File's allFiles is all of its files |
| Package.DiscoverBadTarget | doc.go:285-292 | with a bad pattern the first loop prints nothing, clears nothing and sets nothing |
| Package.BadTargetPrintsNothing | doc.go:285-292 | with a bad pattern doPackage leaves the output and the ASTs as they were |
| Package.RunPackages | doc.go:172-174 | main's loop only appends to the output, never a function body, and stops only at a BadRegexp exit |
| Package.Run | doc.go:132-175 | a dispatch error exits before anything is printed; any other exit is BadRegexp on the anchored name, which must be a pattern the engine does not compile; no function body is ever printed |
| Package.RunPackagesBadTarget | doc.go:172-174 | with a bad pattern main's loop prints nothing, and exits exactly when some remaining package keeps a file |
| Package.RunBadTarget | doc.go:132-175 | with a bad pattern main prints nothing at all |
| Package.LiteralTargetNeverFails | doc.go:285-292 | a literal name never takes the regexp exit |
| Doc.AstPackage.ClearBody | doc.go:423 | the package's files become Syntax.ClearBody of the old files |
| Doc.Stdout.Print | doc.go:450 | the pieces are appended to standard output |
| Doc.MethodVisitor.Visit | doc.go:570-589 | the search loop, the body clearing, the docs write and the splice leave exactly MethodVisit of the old state |
| Doc.MethodVisitor.Walk | doc.go:558 | the walk of file k leaves exactly VisitMethods of the old state |
| Doc.ExportedMethods | doc.go:537-547 | the first loop of methodSet builds exactly the exported list |
| Doc.CollectDocs | doc.go:552-560 | the loop over files, with a fresh methodVisitor per file, leaves the ASTs and the docs array exactly as Collect computes |
| Doc.PrintDocs | doc.go:562-566 | the printing loop appends exactly PrintDocs of the array |
| Doc.File.PrintNode | doc.go:445-451 | printNode on the object leaves exactly the state Walk.PrintNode computes |
| Doc.File.MethodSet | doc.go:535-567 | allocating the docs array, collecting and printing leave exactly the ASTs and output MethodSets.MethodSet computes |
| Doc.File.VisitSpec | doc.go:372-419 | the spec switch leaves exactly Walk.VisitSpec's state |
| Doc.File.VisitValueSpec | doc.go:374-382 | the ValueSpec case, including the loop over names with its break |
| Doc.File.VisitTypeSpec | doc.go:383-415 | the TypeSpec case, with the method set |
| Doc.File.PrintType | doc.go:394-407 | the nested if and switch on the kind flags leave exactly Walk.PrintType's state |
| Doc.File.VisitGenDecl | doc.go:372-419 | the loop over a GenDecl's specs |
| Doc.File.VisitLocals | doc.go:420-431 | the descent into an uncleared function body |
| Doc.File.Visit | doc.go:368-432 | File.Visit plus the descent leave exactly Walk.Visit's state |
| Doc.File.Walk | doc.go:319 | ast.Walk over the file leaves exactly WalkFile's state |
| Doc.File.PkgComments | doc.go:467-481 | pkgComments appends exactly Package.PkgComments' line |
| Doc.KeepFile | doc.go:278-323 | building, classifying and (unless found) walking a kept File leaves exactly Package.KeepFile's state; the File is fresh and shares the package, output, flags and engine |
| Doc.KeepOne | doc.go:278-323 | a turn on a kept file keeps the first loop's invariant and appends one fresh File |
| Doc.DiscoverOne | doc.go:274-324 | one turn of the first loop: skip, exit or keep, keeping the invariant, or giving the loop's result on an exit |
| Doc.Discover | doc.go:272-324 | the first loop leaves exactly FirstPass's ASTs, output, Files, found and exit; every File is fresh |
| Doc.PrintFile | doc.go:355-361 | setting doPrint and objs, then pkgComments or the walk, leaves exactly Package.PrintFile's state |
| Doc.PrintPass | doc.go:354-362 | the second loop leaves exactly Package.PrintPass's state |
| Doc.DoPackage | doc.go:271-363 | the two loops with the found check in between leave exactly Package.DoPackage's outcome |
| Doc.Run | doc.go:132-175 | main (defaults, dispatch, then doPackage on every package with one shared output) gives exactly Package.Run's output and exit |

## Left out

- The directory search: `paths` and `pathsFor` with `filepath.Walk`, `splitGopath`, `runtime.GOROOT`, and `parser.ParseDir` in `lookInDirectory` (doc.go:188-239). They are I/O. `Run` takes a function from the package hint to the packages found, each with its files in one fixed order, and the roots are a parameter.
- Go's map iteration order over `pkg.Files` (doc.go:274, 342). The order is unspecified, so the model takes the files as a sequence.
- `go/types`, `config.Check` and `MethodSetCache` (doc.go:330-348, 408-414). They are foreign code. The type checker's result is a map from an identifier's position to the value and pointer method sets of its type. A missing entry stands for a nil object or a nil type.
- `go/printer` and `ast.CommentMap` (doc.go:283, 457-462). They are foreign code. A rendered node is the opaque piece `Source(node)`, and the comment it carries is part of that opaque rendering. The receiver type's printed text is a string field of the declaration.
- The regexp engine. Whether a pattern compiles and whether it matches a name are the two functions of a `RegexEngine` parameter. The text of the compile error is not modelled.
- `usage`, `os.Exit` and the messages written to standard error (doc.go:96-99, 162-171, 290-291). An exit is a `Failure` value that ends the run. Output written before the exit is kept.
- Declarations inside function literals, in initialisers or in function bodies, and statements other than declarations. ast.Walk reaches them, but the declaration datatype records only the const, var and type declarations of a body.
- `allFiles` (doc.go:350-353, 552). It is modelled as the whole package, which is what it is whenever a method set is printed: by name, every file is kept (`Package.ByNameKeepsEveryFile`).
- `ParseDir` is called with a nil filter (doc.go:235), so every `.go` file of the directory is parsed: `*_test.go` files are processed like the others, a separate `_test` package is a package of its own, and build tags are ignored. The model takes whatever packages and files the directory search returns and adds no filtering.
- Text.IsUpper: ASCII upper-case only, not Unicode's `unicode.IsUpper`. `Matching.IsExported` and the exported-name checks inherit this.
- Text.ToLower: ASCII case folding only, not Unicode's `strings.ToLower`. `Matching.Match` compares literal targets with this folding.
- MethodSets.MethodSetPrinted and MethodSets.CollectedDocsExpected: they take as given that at most one declaration of the package sits at any position, and that a method declared in the package shares its position with no other method of the set. Methods promoted from imported types may share one unknown position (the importer gives them no position); they are declared nowhere in the package and need not be distinct. The model does not derive these facts from the parser.
- Line and file positions come from the file set. A position is an abstract `Pos` that is unique per identifier, and a line is a number carried next to it.
