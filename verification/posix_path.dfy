/** POSIX path arithmetic as Python's `posixpath` module performs it on
    strings: `basename`, `dirname`, `join` (two arguments), `splitext` and
    `normpath`. No filesystem is consulted. */
module PosixPath {
  import opened Strings

  type Path = string

  // ----- basename / dirname -----

  /** `os.path.basename`: the text after the last '/'. */
  function Basename(p: Path): (r: Path)
    ensures '/' !in r
    ensures EndsWith(p, r)
    ensures |r| < |p| ==> p[|p| - |r| - 1] == '/'
  {
    p[RFind(p, '/') + 1..]
  }

  /** The part of `p` up to and including its last '/' (the `head` that
      `dirname` starts from). */
  function Head(p: Path): (r: Path)
    ensures r <= p
    ensures r == "" || r[|r| - 1] == '/'
    ensures p == r + Basename(p)
  {
    p[..RFind(p, '/') + 1]
  }

  predicate AllSlashes(s: string) {
    forall i :: 0 <= i < |s| ==> s[i] == '/'
  }

  /** Python's `s.rstrip('/')`. */
  function RStripSlashes(s: string): (r: string)
    ensures r <= s
    ensures r == "" || r[|r| - 1] != '/'
    ensures AllSlashes(s[|r|..])
  {
    if s != "" && s[|s| - 1] == '/' then RStripSlashes(s[..|s| - 1]) else s
  }

  /** `os.path.dirname`: the head with its trailing slashes removed, unless
      the head consists of slashes only. */
  function Dirname(p: Path): (r: Path)
    ensures r <= Head(p)
    ensures AllSlashes(Head(p)[|r|..])
    ensures r == "" || AllSlashes(r) || r[|r| - 1] != '/'
  {
    var head := Head(p);
    if head != "" && !AllSlashes(head) then RStripSlashes(head) else head
  }

  /** `os.path.join(a, b)`: an absolute `b` wins; otherwise one '/' is put
      between them unless `a` is empty or already ends in '/'. */
  function Join(a: Path, b: Path): (r: Path)
    ensures StartsWith(b, "/") ==> r == b
    ensures !StartsWith(b, "/") ==> EndsWith(r, b) && a <= r
    ensures !StartsWith(b, "/") && a != "" && a[|a| - 1] != '/' ==> r == a + "/" + b
  {
    if |b| > 0 && b[0] == '/' then b
    else if a == "" || a[|a| - 1] == '/' then a + b
    else a + "/" + b
  }

  /** Joining onto the same directory is injective in the relative name. */
  lemma JoinInjective(a: Path, x: Path, y: Path)
    requires '/' !in x && '/' !in y
    ensures Join(a, x) == Join(a, y) <==> x == y
  {
    if Join(a, x) == Join(a, y) {
      assert |x| == |y|;
      assert x == Join(a, x)[|Join(a, x)| - |x|..];
    }
  }

  /** One more trailing slash does not change `rstrip('/')`. */
  lemma RStripExtraSlash(s: string)
    ensures RStripSlashes(s + "/") == RStripSlashes(s)
  {
    assert (s + "/")[..|s|] == s;
  }

  /** `dirname` of a name placed inside `dir` is `dir` without its trailing
      slashes, provided `dir` is not made of slashes only. */
  lemma DirnameOfChildStripped(dir: Path, name: Path)
    requires !AllSlashes(dir)
    requires '/' !in name
    ensures Dirname(dir + "/" + name) == RStripSlashes(dir)
    ensures RStripSlashes(dir) != "" && RStripSlashes(dir)[|RStripSlashes(dir)| - 1] != '/'
  {
    var p := dir + "/" + name;
    assert p == (dir + "/") + name;
    RFindAppend(dir + "/", name, '/');
    assert Head(p) == dir + "/";
    assert !AllSlashes(dir + "/") by {
      var i :| 0 <= i < |dir| && dir[i] != '/';
      assert (dir + "/")[i] == dir[i];
    }
    RStripExtraSlash(dir);
  }

  /** `dirname` of a bare name is the empty string. */
  lemma DirnameOfBareName(name: Path)
    requires '/' !in name
    ensures Dirname(name) == ""
  {
  }

  /** The basename of a name placed inside any directory is that name. */
  lemma BasenameOfChild(dir: Path, name: Path)
    requires '/' !in name
    ensures Basename(dir + "/" + name) == name
  {
    RFindAppend(dir + "/", name, '/');
  }

  // ----- splitext -----

  /** Some character of `p[lo..hi]` is not a dot. */
  predicate HasNonDotIn(p: string, lo: int, hi: int)
    requires 0 <= lo <= hi <= |p|
  {
    exists i :: lo <= i < hi && p[i] != '.'
  }

  /** `os.path.splitext`: splits at the last dot of the final component,
      provided something other than dots precedes that dot within the
      component (so leading dots never start an extension). */
  function Splitext(p: Path): (r: (Path, Path))
    ensures r.0 + r.1 == p
    ensures r.1 == "" || (r.1[0] == '.' && '.' !in r.1[1..] && '/' !in r.1)
  {
    var sep := RFind(p, '/');
    var dot := RFind(p, '.');
    if dot > sep && HasNonDotIn(p, sep + 1, dot) then (p[..dot], p[dot..])
    else (p, "")
  }

  /** Removing extensions never introduces a '/'. */
  lemma SplitextPrefixHasNoSlash(name: Path)
    requires '/' !in name
    ensures '/' !in StripTwoExtensions(name)
  {
    var r1 := Splitext(name).0;
    assert r1 <= name;
    var r2 := Splitext(r1).0;
    assert r2 <= r1;
  }

  /** The base name with two extensions removed, as the tar-folder
      decompressors derive the extracted folder's name. */
  function StripTwoExtensions(name: Path): Path {
    Splitext(Splitext(name).0).0
  }

  /** A name with neither '/' nor '.', such as "tar" or "gz". */
  predicate PlainWord(w: string) {
    w != "" && '/' !in w && '.' !in w
  }

  /** Splitting off a plain extension appended to a slash-free name. */
  lemma SplitextAppended(name: Path, ext: string)
    requires '/' !in name && PlainWord(ext)
    ensures Splitext(name + "." + ext) ==
            if HasNonDotIn(name, 0, |name|) then (name, "." + ext) else (name + "." + ext, "")
  {
    var p := name + "." + ext;
    assert p == (name + ".") + ext;
    RFindAppend(name + ".", ext, '.');
    RFindAppend(name + ".", ext, '/');
    RFindAppend(name, ".", '/');
    assert RFind(p, '.') == |name|;
    assert RFind(p, '/') == -1;
    if HasNonDotIn(name, 0, |name|) {
      var i :| 0 <= i < |name| && name[i] != '.';
      assert p[i] == name[i];
      assert p[..|name|] == name;
      assert p[|name|..] == "." + ext;
    }
  }

  /** Stripping ".tar.gz" from a slash-free name by two `splitext` calls
      gives the name back exactly when it holds a character other than '.'. */
  lemma StripTwoExtensionsOfTarGz(name: Path)
    requires '/' !in name
    ensures StripTwoExtensions(name + ".tar.gz") == name <==> HasNonDotIn(name, 0, |name|)
  {
    var t := name + ".tar";
    assert name + ".tar.gz" == t + "." + "gz";
    assert '/' !in t;
    assert t[|name| + 1] == 't';
    assert HasNonDotIn(t, 0, |t|);
    SplitextAppended(t, "gz");
    assert t == name + "." + "tar";
    SplitextAppended(name, "tar");
    if !HasNonDotIn(name, 0, |name|) {
      assert |StripTwoExtensions(name + ".tar.gz")| == |name| + 4;
    }
  }

  // ----- normpath -----

  /** Python's `s.split('/')`, built from the right. */
  function SplitSlash(s: string): (r: seq<string>)
    ensures |r| >= 1
    ensures forall i :: 0 <= i < |r| ==> '/' !in r[i]
    decreases |s|
  {
    var i := RFind(s, '/');
    if i < 0 then [s] else SplitSlash(s[..i]) + [s[i + 1..]]
  }

  /** Python's `'/'.join(parts)`. */
  function JoinSlash(parts: seq<string>): string
  {
    if |parts| == 0 then ""
    else if |parts| == 1 then parts[0]
    else JoinSlash(parts[..|parts| - 1]) + "/" + parts[|parts| - 1]
  }

  /** Splitting on '/' and joining back with '/' gives the original string. */
  lemma {:induction false} SplitSlashRoundTrip(s: string)
    ensures JoinSlash(SplitSlash(s)) == s
    decreases |s|
  {
    var i := RFind(s, '/');
    if i >= 0 {
      SplitSlashRoundTrip(s[..i]);
      var front := SplitSlash(s[..i]);
      var parts := front + [s[i + 1..]];
      assert parts[..|parts| - 1] == front;
      if |front| == 1 {
        assert JoinSlash(front) == front[0];
      }
      assert s == s[..i] + "/" + s[i + 1..];
    }
  }

  /** How many leading slashes `normpath` keeps: two exactly when the path
      starts with "//" but not "///", else one for an absolute path. */
  function InitialSlashes(p: Path): nat {
    if StartsWith(p, "/") then
      (if StartsWith(p, "//") && !StartsWith(p, "///") then 2 else 1)
    else 0
  }

  /** One step of `normpath`'s component loop. */
  function NormStep(acc: seq<string>, comp: string, initial: nat): seq<string> {
    if comp == "" || comp == "." then acc
    else if comp != ".." || (initial == 0 && acc == []) || (acc != [] && acc[|acc| - 1] == "..") then
      acc + [comp]
    else if acc != [] then acc[..|acc| - 1]
    else acc
  }

  /** The components `normpath` keeps, processing `comps` left to right. */
  function NormComponents(comps: seq<string>, initial: nat): seq<string> {
    if comps == [] then []
    else NormStep(NormComponents(comps[..|comps| - 1], initial), comps[|comps| - 1], initial)
  }

  function Slashes(n: nat): string {
    seq(n, _ => '/')
  }

  /** `os.path.normpath`: collapses repeated separators and "." components,
      resolves ".." against preceding names, keeps the leading slashes. */
  function Normpath(p: Path): (r: Path)
    ensures r != ""
  {
    if p == "" then "."
    else
      var initial := InitialSlashes(p);
      var s := Slashes(initial) + JoinSlash(NormComponents(SplitSlash(p), initial));
      if s == "" then "." else s
  }

  /** A trailing slash adds one empty component, which `normpath` skips. */
  lemma NormpathTrailingSlash(p: Path)
    requires p != "" && p != "/" && p != "//"
    ensures Normpath(p + "/") == Normpath(p)
  {
    var q := p + "/";
    assert q == p + "/";
    assert RFind(q, '/') == |p|;
    assert q[..|p|] == p;
    assert q[|p| + 1..] == "";
    assert SplitSlash(q) == SplitSlash(p) + [""];
    assert StartsWith(q, "/") <==> StartsWith(p, "/");
    if |p| >= 2 {
      assert q[..2] == p[..2];
    }
    if |p| >= 3 {
      assert q[..3] == p[..3];
    }
    assert InitialSlashes(q) == InitialSlashes(p);
    var comps := SplitSlash(q);
    assert comps[..|comps| - 1] == SplitSlash(p);
  }

  lemma SplitSlashOfRoot()
    ensures SplitSlash("/") == ["", ""]
  {
    assert RFind("/", '/') == 0;
    assert "/"[..0] == "";
    assert RFind("", '/') == -1;
  }

  lemma NormpathOfRoot()
    ensures Normpath("/") == "/"
  {
    SplitSlashOfRoot();
    assert NormComponents(["", ""], 1) == [] by {
      assert ["", ""][..1] == [""];
      assert [""][..0] == [];
    }
  }

  lemma NormpathOfTwoSlashes()
    ensures Normpath("//") == "//"
  {
    assert SplitSlash("//") == ["", "", ""] by {
      assert RFind("//", '/') == 1;
      assert "//"[..1] == "/";
      assert "//"[2..] == "";
      SplitSlashOfRoot();
    }
    assert NormComponents(["", "", ""], 2) == [] by {
      assert ["", "", ""][..2] == ["", ""];
      assert ["", ""][..1] == [""];
      assert [""][..0] == [];
    }
    assert Slashes(2) == "//";
  }

  lemma NormpathOfThreeSlashes()
    ensures Normpath("///") == "/"
  {
    assert SplitSlash("///") == ["", "", "", ""] by {
      assert RFind("///", '/') == 2;
      assert "///"[..2] == "//";
      assert "///"[3..] == "";
      assert SplitSlash("//") == ["", "", ""] by {
        assert RFind("//", '/') == 1;
        assert "//"[..1] == "/";
        assert "//"[2..] == "";
        SplitSlashOfRoot();
      }
    }
    assert NormComponents(["", "", "", ""], 1) == [] by {
      assert ["", "", "", ""][..3] == ["", "", ""];
      assert ["", "", ""][..2] == ["", ""];
      assert ["", ""][..1] == [""];
      assert [""][..0] == [];
    }
    assert !StartsWith("///", "//") || StartsWith("///", "///");
  }

  /** The name `tar` gives a folder, `basename(normpath(p))`, ignores one
      trailing slash. */
  lemma BasenameNormpathTrailingSlash(p: Path)
    requires p != ""
    ensures Basename(Normpath(p + "/")) == Basename(Normpath(p))
  {
    if p == "/" {
      assert p + "/" == "//";
      NormpathOfRoot();
      NormpathOfTwoSlashes();
      assert Basename("//") == "" && Basename("/") == "";
    } else if p == "//" {
      assert p + "/" == "///";
      NormpathOfTwoSlashes();
      NormpathOfThreeSlashes();
      assert Basename("//") == "" && Basename("/") == "";
    } else {
      NormpathTrailingSlash(p);
    }
  }

  /** By contrast, the plain basename of a path with a trailing slash is
      always empty. */
  lemma BasenameTrailingSlash(p: Path)
    ensures Basename(p + "/") == ""
  {
    RFindAppend(p, "/", '/');
  }
}
