// The URL and source-locator text printed before each hit: which root a file
// lies under, packageURL, nameURL, methodURL and sourcePos. The separator is
// the Unix one.

module Locators {
  import opened Text

  const Slash: char := '/'

  const GolangPkg: string := "http://golang.org/pkg"
  const GolangCmd: string := "http://golang.org/cmd"
  const GodocOrg: string := "http://godoc.org"

  /** The roots doc.go compares file names with: GOROOT/src/pkg, GOROOT/src/cmd, and each GOPATH entry's src. */
  datatype Roots = Roots(goRootSrcPkg: string, goRootSrcCmd: string, goPathSrcs: seq<string>)

  datatype Prefixes = Prefixes(urlPrefix: string, pathPrefix: string)

  /** The loop over goPaths: the index of the first root that prefixes name, or |paths| for none. */
  function FirstRoot(name: string, paths: seq<string>, i: nat): (r: nat)
    requires i <= |paths|
    decreases |paths| - i
    ensures i <= r <= |paths|
    ensures forall j :: i <= j < r ==> !HasPrefix(name, paths[j])
    ensures r < |paths| ==> HasPrefix(name, paths[r])
  {
    if i == |paths| then i
    else if HasPrefix(name, paths[i]) then i
    else FirstRoot(name, paths, i + 1)
  }

  /** The switch in doPackage choosing a file's urlPrefix and pathPrefix. */
  function ChoosePrefixes(name: string, roots: Roots): (r: Prefixes)
    ensures HasPrefix(name, roots.goRootSrcPkg) ==> r == Prefixes(GolangPkg, roots.goRootSrcPkg)
    ensures !HasPrefix(name, roots.goRootSrcPkg) && HasPrefix(name, roots.goRootSrcCmd) ==>
              r == Prefixes(GolangCmd, roots.goRootSrcCmd)
    ensures !HasPrefix(name, roots.goRootSrcPkg) && !HasPrefix(name, roots.goRootSrcCmd) ==>
              r.urlPrefix == GodocOrg &&
              ((r.pathPrefix == "" && forall j :: 0 <= j < |roots.goPathSrcs| ==> !HasPrefix(name, roots.goPathSrcs[j])) ||
               (exists i :: 0 <= i < |roots.goPathSrcs| && r.pathPrefix == roots.goPathSrcs[i] && HasPrefix(name, r.pathPrefix) &&
                  forall j :: 0 <= j < i ==> !HasPrefix(name, roots.goPathSrcs[j])))
  {
    if HasPrefix(name, roots.goRootSrcPkg) then Prefixes(GolangPkg, roots.goRootSrcPkg)
    else if HasPrefix(name, roots.goRootSrcCmd) then Prefixes(GolangCmd, roots.goRootSrcCmd)
    else
      var i := FirstRoot(name, roots.goPathSrcs, 0);
      Prefixes(GodocOrg, if i < |roots.goPathSrcs| then roots.goPathSrcs[i] else "")
  }

  /** packageURL: the URL prefix, then the file name with its root stripped and its last element dropped. */
  function PackageURL(name: string, pathPrefix: string, urlPrefix: string): (r: string)
    ensures HasPrefix(r, urlPrefix)
    ensures var s := TrimPrefix(name, pathPrefix);
            var d := r[|urlPrefix|..];
            HasPrefix(s, d) &&
            if exists i :: 0 < i < |s| && s[i] == Slash then
              |d| > 1 && d[|d| - 1] == Slash && forall k :: |d| <= k < |s| ==> s[k] != Slash
            else d == s
  {
    var s := TrimPrefix(name, pathPrefix);
    var i := LastIndex(s, Slash);
    var d := if i > 0 then s[..i + 1] else s;
    assert (urlPrefix + d)[|urlPrefix|..] == d;
    assert i <= 0 ==> forall k :: 0 < k < |s| ==> s[k] != Slash;
    urlPrefix + d
  }

  /** A file whose stripped name has no separator after its first character keeps its whole name. */
  lemma PackageURLUntruncated(name: string, pathPrefix: string, urlPrefix: string)
    requires forall k :: 0 < k < |TrimPrefix(name, pathPrefix)| ==> TrimPrefix(name, pathPrefix)[k] != Slash
    ensures PackageURL(name, pathPrefix, urlPrefix) == urlPrefix + TrimPrefix(name, pathPrefix)
  {
    var r := PackageURL(name, pathPrefix, urlPrefix);
    assert r == r[..|urlPrefix|] + r[|urlPrefix|..];
  }

  /** The receiver type text with at most one leading '*' removed. */
  function StripStar(t: string): (r: string)
    ensures |t| > 0 && t[0] == '*' ==> t == "*" + r
    ensures !(|t| > 0 && t[0] == '*') ==> r == t
  {
    if |t| > 0 && t[0] == '*' then
      assert t == [t[0]] + t[1..];
      t[1..]
    else t
  }

  /** Only one star goes: a pointer to a pointer keeps the inner star. */
  lemma StripStarOnce(t: string)
    ensures StripStar("**" + t) == "*" + t
  {
    assert ("**" + t)[1..] == "*" + t;
  }

  /** nameURL: the package URL with a #Name anchor, or nothing without -url. */
  function NameURL(urlFlag: bool, packageURL: string, name: string): (r: string)
    ensures !urlFlag ==> r == ""
    ensures urlFlag ==> HasPrefix(r, packageURL) && r[|packageURL|..] == "#" + name + "\n"
  {
    if !urlFlag then "" else
      var r := packageURL + "#" + name + "\n";
      assert r[..|packageURL|] == packageURL && r[|packageURL|..] == "#" + name + "\n";
      r
  }

  /** methodURL: the package URL with a #Type.Name anchor, or nothing without -url. */
  function MethodURL(urlFlag: bool, packageURL: string, recvType: string, name: string): (r: string)
    ensures !urlFlag ==> r == ""
    ensures urlFlag ==> r == packageURL + "#" + StripStar(recvType) + "." + name + "\n"
    ensures urlFlag && |recvType| > 0 && recvType[0] == '*' ==>
              r == packageURL + "#" + recvType[1..] + "." + name + "\n"
  {
    if !urlFlag then "" else packageURL + "#" + StripStar(recvType) + "." + name + "\n"
  }

  /** A pointer and a value receiver of the same type give the same anchor. */
  lemma MethodURLIgnoresPointer(urlFlag: bool, packageURL: string, typ: string, name: string)
    requires !(|typ| > 0 && typ[0] == '*')
    ensures MethodURL(urlFlag, packageURL, "*" + typ, name) == MethodURL(urlFlag, packageURL, typ, name)
  {
    assert ("*" + typ)[1..] == typ;
  }

  /** sourcePos: `file:line:` and a newline, or nothing without -src. */
  function SourcePos(srcFlag: bool, filename: string, line: nat): (r: string)
    ensures !srcFlag ==> r == ""
    ensures srcFlag ==> |r| >= |filename| + 4 && HasPrefix(r, filename + ":") && r[|r| - 2..] == ":\n"
    ensures srcFlag ==> var d := r[|filename| + 1..|r| - 2];
                        |d| > 0 && (forall i :: 0 <= i < |d| ==> IsDigit(d[i])) && ParseDecimal(d) == line &&
                        (|d| > 1 ==> d[0] != '0')
  {
    if !srcFlag then "" else
      var d := Decimal(line);
      var r := filename + ":" + d + ":\n";
      assert r[..|filename| + 1] == filename + ":";
      assert r[|filename| + 1..|r| - 2] == d;
      DecimalRoundTrip(line);
      r
  }
}
