// Command-line handling of main: the kind and output flags, their defaults,
// and the dispatch of the positional arguments into a package hint and a name.

module Options {
  import opened Text

  /** The flag variables after flag.Parse (aliases such as -c already folded in). */
  datatype Flags = Flags(
    constFlag: bool, funcFlag: bool, interfaceFlag: bool, methodFlag: bool,
    packageFlag: bool, structFlag: bool, typeFlag: bool, varFlag: bool,
    docFlag: bool, srcFlag: bool, urlFlag: bool, regexpFlag: bool)

  predicate AnyKind(f: Flags) {
    f.constFlag || f.funcFlag || f.interfaceFlag || f.methodFlag ||
    f.packageFlag || f.structFlag || f.typeFlag || f.varFlag
  }

  predicate AnyOutput(f: Flags) {
    f.docFlag || f.srcFlag || f.urlFlag
  }

  /** The flags main works with once it has filled in the defaults. */
  function Defaulted(f: Flags): (r: Flags)
    // no kind flag: exactly const, func, method, type and var; never package, interface or struct
    ensures !AnyKind(f) ==>
      r.constFlag && r.funcFlag && r.methodFlag && r.typeFlag && r.varFlag &&
      !r.packageFlag && !r.interfaceFlag && !r.structFlag
    // some kind flag: the kind flags are left as given
    ensures AnyKind(f) ==>
      r.constFlag == f.constFlag && r.funcFlag == f.funcFlag && r.interfaceFlag == f.interfaceFlag &&
      r.methodFlag == f.methodFlag && r.packageFlag == f.packageFlag && r.structFlag == f.structFlag &&
      r.typeFlag == f.typeFlag && r.varFlag == f.varFlag
    // no output flag: all three; otherwise as given
    ensures !AnyOutput(f) ==> r.docFlag && r.srcFlag && r.urlFlag
    ensures AnyOutput(f) ==> r.docFlag == f.docFlag && r.srcFlag == f.srcFlag && r.urlFlag == f.urlFlag
    ensures r.regexpFlag == f.regexpFlag
    ensures AnyKind(r) && AnyOutput(r)
  {
    var k := if AnyKind(f) then f
             else f.(constFlag := true, funcFlag := true, methodFlag := true, typeFlag := true, varFlag := true);
    if AnyOutput(k) then k else k.(docFlag := true, srcFlag := true, urlFlag := true)
  }

  /** Filling in the defaults a second time changes nothing. */
  lemma DefaultedIdempotent(f: Flags)
    ensures Defaulted(Defaulted(f)) == Defaulted(f)
  {
  }

  /** The mutable flag variables of main. */
  class FlagSet {
    var constFlag: bool
    var funcFlag: bool
    var interfaceFlag: bool
    var methodFlag: bool
    var packageFlag: bool
    var structFlag: bool
    var typeFlag: bool
    var varFlag: bool
    var docFlag: bool
    var srcFlag: bool
    var urlFlag: bool
    var regexpFlag: bool

    function Value(): Flags
      reads this
    {
      Flags(constFlag, funcFlag, interfaceFlag, methodFlag, packageFlag, structFlag,
            typeFlag, varFlag, docFlag, srcFlag, urlFlag, regexpFlag)
    }

    /** The flags as flag.Parse leaves them. */
    constructor (parsed: Flags)
      ensures Value() == parsed
    {
      constFlag, funcFlag, interfaceFlag, methodFlag := parsed.constFlag, parsed.funcFlag, parsed.interfaceFlag, parsed.methodFlag;
      packageFlag, structFlag, typeFlag, varFlag := parsed.packageFlag, parsed.structFlag, parsed.typeFlag, parsed.varFlag;
      docFlag, srcFlag, urlFlag, regexpFlag := parsed.docFlag, parsed.srcFlag, parsed.urlFlag, parsed.regexpFlag;
    }

    /** The two `if none set` blocks at the top of main. */
    method SetDefaults()
      modifies this
      ensures Value() == Defaulted(old(Value()))
    {
      if !AnyKind(Value()) {
        // Not package: package-doc mode is only ever asked for.
        constFlag, funcFlag, methodFlag, typeFlag, varFlag := true, true, true, true, true;
      }
      if !AnyOutput(Value()) {
        docFlag, srcFlag, urlFlag := true, true, true;
      }
    }
  }

  datatype Failure =
    | UsageError        // wrong argument count, or -package with two arguments: usage and exit 2
    | SlashInPackage    // "package name cannot contain slash": exit 2
    | BadRegexp(pattern: string)  // the target did not compile: exit 2

  datatype Query = Query(pkg: string, name: string)

  datatype Result<T> = Ok(value: T) | Err(failure: Failure)

  /** split: cut pkg.name at its first dot. */
  function Split(arg: string): (r: Query)
    requires '.' in arg
    ensures '.' !in r.pkg
    ensures r.pkg + "." + r.name == arg
  {
    var dot := IndexOf(arg, '.');
    assert arg == arg[..dot] + [arg[dot]] + arg[dot + 1..];
    Query(arg[..dot], arg[dot + 1..])
  }

  /** Split undone: the package part is the text before the first dot. */
  lemma SplitUnique(p: string, n: string)
    requires '.' !in p
    ensures Split(p + "." + n) == Query(p, n)
  {
    var a := p + "." + n;
    assert a[|p|] == '.';
    assert a[..|p|] == p;
    assert '.' !in a[..|p|];
    assert a[|p| + 1..] == n;
  }

  /** The switch on flag.NArg() in main, then the slash check on the package. */
  function Dispatch(f: Flags, args: seq<string>): (r: Result<Query>)
    ensures |args| != 1 && |args| != 2 ==> r == Err(UsageError)
    ensures |args| == 2 && f.packageFlag ==> r == Err(UsageError)
    ensures r.Ok? ==> '/' !in r.value.pkg
    ensures r == Err(SlashInPackage) ==> |args| > 0 && '/' in args[0]
    ensures |args| == 2 && !f.packageFlag && '/' !in args[0] ==> r == Ok(Query(args[0], args[1]))
    ensures |args| == 1 && f.packageFlag && '/' !in args[0] ==> r == Ok(Query(args[0], ""))
    ensures |args| == 1 && !f.packageFlag && f.regexpFlag ==> r == Ok(Query("", args[0]))
    ensures |args| == 1 && !f.packageFlag && !f.regexpFlag && '.' !in args[0] ==> r == Ok(Query("", args[0]))
    ensures |args| == 1 && !f.packageFlag && !f.regexpFlag && '.' in args[0] ==>
              r.Ok? || r == Err(SlashInPackage)
    ensures |args| == 1 && !f.packageFlag && !f.regexpFlag && r.Ok? && '.' in args[0] ==>
              '.' !in r.value.pkg && r.value.pkg + "." + r.value.name == args[0]
    ensures |args| == 2 && !f.packageFlag && '/' in args[0] ==> r == Err(SlashInPackage)
    ensures |args| == 1 && f.packageFlag && '/' in args[0] ==> r == Err(SlashInPackage)
    ensures |args| == 1 && !f.packageFlag && !f.regexpFlag && '.' in args[0] ==>
              r == if '/' in Split(args[0]).pkg then Err(SlashInPackage) else Ok(Split(args[0]))
  {
    var q :=
      if |args| == 1 then
        if f.packageFlag then Ok(Query(args[0], ""))
        else if f.regexpFlag then Ok(Query("", args[0]))
        else if '.' in args[0] then Ok(Split(args[0]))
        else Ok(Query("", args[0]))
      else if |args| == 2 then
        if f.packageFlag then Err(UsageError) else Ok(Query(args[0], args[1]))
      else Err(UsageError);
    if q.Ok? && '/' in q.value.pkg then
      assert '/' in args[0] by {
        if |args| == 1 && !f.packageFlag && !f.regexpFlag && '.' in args[0] {
          assert q.value.pkg + "." + q.value.name == args[0];
          var i :| 0 <= i < |q.value.pkg| && q.value.pkg[i] == '/';
          assert args[0][i] == '/';
        }
      }
      Err(SlashInPackage)
    else q
  }
}
