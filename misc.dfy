/**
 * misc.go: the godoc page URL of a package, the package path of a directory
 * under GOPATH, and the two-column listing printed by printPkgsWithLink.
 * The package globals `port` and `gopath` are parameters here.
 */
module Misc {
  import opened Wrappers
  import opened Text

  const UrlHead := "http://localhost:"

  /** The text before the package path in every page URL for `port`. */
  function UrlPrefix(port: int): string {
    UrlHead + Decimal(port) + "/pkg/"
  }

  /** absPkgURL: `http://localhost:<port>/pkg/<path>/`. */
  function AbsPkgURL(port: int, fullPkgPath: string): string {
    UrlPrefix(port) + fullPkgPath + "/"
  }

  /** Reads the package path back out of a page URL for `port`. */
  function PkgOfURL(port: int, url: string): Option<string> {
    var p := UrlPrefix(port);
    if HasPrefix(url, p) && |url| > |p| && url[|url| - 1] == '/' then Some(url[|p|..|url| - 1]) else None
  }

  /** The URL determines the package: absPkgURL loses nothing and is injective. */
  lemma AbsPkgURLRoundTrip(port: int, fullPkgPath: string)
    ensures PkgOfURL(port, AbsPkgURL(port, fullPkgPath)) == Some(fullPkgPath)
  {
    var url := AbsPkgURL(port, fullPkgPath);
    var p := UrlPrefix(port);
    assert url[|p|..|url| - 1] == fullPkgPath;
  }

  /** The port can be read back out of the URL, too: the digits after `http://localhost:`. */
  lemma AbsPkgURLPort(port: int, fullPkgPath: string)
    ensures var url := AbsPkgURL(port, fullPkgPath);
      ParseDecimal(url[|UrlHead|..|UrlHead| + |Decimal(port)|]) == port
  {
    var url := AbsPkgURL(port, fullPkgPath);
    assert url[|UrlHead|..|UrlHead| + |Decimal(port)|] == Decimal(port);
    DecimalRoundTrip(port);
  }

  /** The example in absPkgURL's doc comment, with the default port. */
  lemma ExampleAbsPkgURL()
    ensures AbsPkgURL(6060, "sync/atomic") == "http://localhost:6060/pkg/sync/atomic/"
  {
    DefaultPortDigits();
  }

  lemma DefaultPortDigits()
    ensures Decimal(6060) == "6060"
  {
    assert NatDecimal(6) == "6";
    assert NatDecimal(60) == "60";
    assert NatDecimal(606) == "606";
  }

  // ---------------------------------------------------------------------------
  // determinePackage
  // ---------------------------------------------------------------------------

  const NotOnGopath := "current dir does not appear to be a valid package on GOPATH"

  /**
   * determinePackage: strip `path.Join(gopath, "src")` and one more character.
   * `join` stands for path.Join. The prefix test is a plain string test, and
   * the character after the prefix is dropped without being checked.
   */
  function DeterminePackage(join: (string, string) -> string, gopath: string, pkgPath: string): (r: Result<string>)
    ensures r.Err? ==> r.msg == NotOnGopath
  {
    var gopathPrefix := join(gopath, "src");
    if !HasPrefix(pkgPath, gopathPrefix) || pkgPath == gopathPrefix then Err(NotOnGopath)
    else
      var pkg := pkgPath[|gopathPrefix| + 1..];
      if pkg == "" then Err(NotOnGopath) else Ok(pkg)
  }

  /**
   * determinePackage fails exactly when the path does not start with the
   * prefix, equals it, or is only one character longer.
   */
  lemma DeterminePackageFails(join: (string, string) -> string, gopath: string, pkgPath: string)
    ensures var prefix := join(gopath, "src");
      DeterminePackage(join, gopath, pkgPath).Err?
      <==> !HasPrefix(pkgPath, prefix) || |pkgPath| <= |prefix| + 1
  {
  }

  /** On success the path is the prefix, one unchecked character, and the non-empty package. */
  lemma DeterminePackageSplits(join: (string, string) -> string, gopath: string, pkgPath: string)
    requires DeterminePackage(join, gopath, pkgPath).Ok?
    ensures var prefix := join(gopath, "src");
      var pkg := DeterminePackage(join, gopath, pkgPath).value;
      pkg != "" && pkgPath == prefix + [pkgPath[|prefix|]] + pkg
  {
    var prefix := join(gopath, "src");
    assert pkgPath == pkgPath[..|prefix|] + [pkgPath[|prefix|]] + pkgPath[|prefix| + 1..];
  }

  /** Conversely, any such path yields exactly that package, whatever the extra character is. */
  lemma DeterminePackageOfSplit(join: (string, string) -> string, gopath: string, c: char, pkg: string)
    requires pkg != ""
    ensures DeterminePackage(join, gopath, join(gopath, "src") + [c] + pkg) == Ok(pkg)
  {
    var prefix := join(gopath, "src");
    var pkgPath := prefix + [c] + pkg;
    assert pkgPath[..|prefix|] == prefix;
    assert pkgPath[|prefix| + 1..] == pkg;
  }

  /** The separator is never checked: "/go/src2/x" is taken to be package "/x". */
  lemma DeterminePackageSeparatorUnchecked(join: (string, string) -> string)
    requires join("/go", "src") == "/go/src"
    ensures DeterminePackage(join, "/go", "/go/src2/x") == Ok("/x")
  {
    assert "/go/src2/x" == "/go/src" + ['2'] + "/x";
    DeterminePackageOfSplit(join, "/go", '2', "/x");
  }

  /** search_test.go's second case: a path under GOPATH's src gives its package. */
  lemma DeterminePackageTestCase(join: (string, string) -> string)
    requires join("/go", "src") == "/go/src"
    ensures DeterminePackage(join, "/go", "/go/src/github.com/neilotoole/gohdoc") == Ok("github.com/neilotoole/gohdoc")
  {
    assert "/go/src/github.com/neilotoole/gohdoc" == "/go/src" + ['/'] + "github.com/neilotoole/gohdoc";
    DeterminePackageOfSplit(join, "/go", '/', "github.com/neilotoole/gohdoc");
  }

  /**
   * search_test.go's first case expects the trailing slash of the directory to
   * be dropped; determinePackage keeps it.
   */
  lemma DeterminePackageKeepsTrailingSlash(join: (string, string) -> string)
    requires join("/go", "src") == "/go/src"
    ensures DeterminePackage(join, "/go", "/go/src/github.com/neilotoole/gohdoc/") == Ok("github.com/neilotoole/gohdoc/")
    ensures DeterminePackage(join, "/go", "/go/src/github.com/neilotoole/gohdoc/") != Ok("github.com/neilotoole/gohdoc")
  {
    assert "/go/src/github.com/neilotoole/gohdoc/" == "/go/src" + ['/'] + "github.com/neilotoole/gohdoc/";
    DeterminePackageOfSplit(join, "/go", '/', "github.com/neilotoole/gohdoc/");
  }

  // ---------------------------------------------------------------------------
  // printPkgsWithLink
  // ---------------------------------------------------------------------------

  /** One line of the listing: the package padded to `width`, four spaces, its URL. */
  function LinkLine(port: int, pkg: string, width: nat): string {
    PadRight(pkg, width) + "    " + AbsPkgURL(port, pkg) + "\n"
  }

  /** The first loop of printPkgsWithLink: the largest `len` (in bytes) among `pkgs`, 0 for none. */
  method MaxPkgLen(pkgs: seq<string>) returns (width: nat)
    ensures forall k :: 0 <= k < |pkgs| ==> ByteLen(pkgs[k]) <= width
    ensures width == 0 || exists k :: 0 <= k < |pkgs| && ByteLen(pkgs[k]) == width
  {
    width := 0;
    for i := 0 to |pkgs|
      invariant forall k :: 0 <= k < i ==> ByteLen(pkgs[k]) <= width
      invariant width == 0 || exists k :: 0 <= k < i && ByteLen(pkgs[k]) == width
    {
      if ByteLen(pkgs[i]) > width {
        width := ByteLen(pkgs[i]);
      }
    }
  }

  /**
   * printPkgsWithLink: the column width is the widest package, and there is
   * one line per package, in input order, each `LinkLine` at that width.
   */
  method PrintPkgsWithLink(port: int, pkgs: seq<string>) returns (width: nat, lines: seq<string>)
    ensures forall k :: 0 <= k < |pkgs| ==> ByteLen(pkgs[k]) <= width
    ensures width == 0 || exists k :: 0 <= k < |pkgs| && ByteLen(pkgs[k]) == width
    ensures |lines| == |pkgs|
    ensures forall k :: 0 <= k < |pkgs| ==> lines[k] == LinkLine(port, pkgs[k], width)
  {
    width := MaxPkgLen(pkgs);
    lines := LinkLines(port, pkgs, width);
  }

  /** The second loop of printPkgsWithLink: one line per package, at the given width. */
  method LinkLines(port: int, pkgs: seq<string>, width: nat) returns (lines: seq<string>)
    ensures |lines| == |pkgs|
    ensures forall k :: 0 <= k < |pkgs| ==> lines[k] == LinkLine(port, pkgs[k], width)
  {
    lines := [];
    for i := 0 to |pkgs|
      invariant |lines| == i
      invariant forall k :: 0 <= k < i ==> lines[k] == LinkLine(port, pkgs[k], width)
    {
      lines := lines + [LinkLine(port, pkgs[i], width)];
    }
  }

  /**
   * The URL column lines up: every name fits in `width` code points (fmt pads
   * by code points, and a name has no more code points than bytes), so every
   * URL starts at column width + 4 behind four spaces.
   */
  lemma LinkLineColumns(port: int, pkg: string, width: nat)
    requires ByteLen(pkg) <= width
    ensures var line := LinkLine(port, pkg, width);
      |line| == width + 4 + |AbsPkgURL(port, pkg)| + 1
      && line[..|pkg|] == pkg
      && (forall k :: |pkg| <= k < width + 4 ==> line[k] == ' ')
      && line[width + 4..] == AbsPkgURL(port, pkg) + "\n"
  {
    PaddedColumns(pkg, width, AbsPkgURL(port, pkg));
  }

  /** The columns of `PadRight(pkg, width) + "    " + url + "\n"`, whatever `url` is. */
  lemma PaddedColumns(pkg: string, width: nat, url: string)
    requires |pkg| <= width
    ensures var line := PadRight(pkg, width) + "    " + url + "\n";
      |line| == width + 4 + |url| + 1
      && line[..|pkg|] == pkg
      && (forall k :: |pkg| <= k < width + 4 ==> line[k] == ' ')
      && line[width + 4..] == url + "\n"
  {
    var pad := PadRight(pkg, width);
    var gap := pad + "    ";
    var line := gap + url + "\n";
    assert |pad| == width;
    assert forall k :: |pkg| <= k < width + 4 ==> gap[k] == ' ';
    assert line == gap + (url + "\n");
    assert line[..width + 4] == gap;
    assert line[..|pkg|] == gap[..|pkg|] == pad[..|pkg|];
  }
}
