/**
 * Resolution of a GET path to a file under the static root (do_GET in
 * server.py): drop the query, percent-decode, map "/" to "/index.html",
 * join to the root, normalise, and check containment.
 */
module StaticPath {
  import opened Text

  /** An absolute path as its segments: "/" is [], "/srv/app" is ["srv", "app"]. */
  type Path = seq<string>

  /** The request target before its first "?": self.path.split("?", 1)[0]. */
  function BeforeQuery(target: string): (r: string)
    ensures '?' !in r
    ensures StartsWith(target, r)
    ensures r != target ==> target[|r|] == '?'
  {
    var p := Partition(target, '?');
    assert p.1 ==> target[..|p.0|] == p.0 && target[|p.0|] == '?';
    p.0
  }

  /** s.lstrip("/"): s without its leading slashes. */
  function LStripSlashes(s: string): (r: string)
    ensures r == [] || r[0] != '/'
    ensures |r| <= |s| && r == s[|s| - |r|..]
    ensures forall k :: 0 <= k < |s| - |r| ==> s[k] == '/'
  {
    if s != [] && s[0] == '/' then LStripSlashes(s[1..]) else s
  }

  /** A segment that names a directory entry: not empty, not "." and not "..". */
  predicate Named(seg: string) {
    seg != [] && seg != "." && seg != ".."
  }

  /** A normalised path: every segment names an entry. */
  predicate Clean(p: Path) {
    forall k :: 0 <= k < |p| ==> Named(p[k])
  }

  /**
   * Path joining and resolve() without symbolic links: empty and "."
   * segments vanish, ".." drops the last segment but never climbs above
   * "/", any other segment is appended. A normalised start stays normalised.
   */
  function Walk(acc: Path, segs: seq<string>): (r: Path)
    ensures Clean(acc) ==> Clean(r)
    decreases |segs|
  {
    if segs == [] then acc
    else
      var s := segs[0];
      var next :=
        if s == [] || s == "." then acc
        else if s == ".." then (if acc == [] then [] else acc[..|acc| - 1])
        else acc + [s];
      Walk(next, segs[1..])
  }

  /**
   * The file a decoded request path names: "/" becomes "/index.html", the
   * leading slashes go, and what is left is walked from the root.
   */
  function Resolve(root: Path, decoded: string): (p: Path)
    ensures Clean(root) ==> Clean(p)
  {
    var path := if decoded == "/" then "/index.html" else decoded;
    Walk(root, Split(LStripSlashes(path), '/'))
  }

  /** str(path) of an absolute path. */
  function Render(p: Path): string {
    "/" + Join(p, "/")
  }

  /**
   * The containment check as written (line 276): the resolved path, as a
   * string, starts with the root, as a string. It refuses nothing the
   * segment check below admits; SiblingWithRootPrefixPasses shows that it
   * admits more.
   */
  predicate WithinAsWritten(root: Path, p: Path)
    ensures Within(root, p) ==> WithinAsWritten(root, p)
  {
    RenderKeepsPrefix(root, p);
    StartsWith(Render(p), Render(root))
  }

  /** The containment the check is there for: the root's segments begin the resolved path. */
  predicate Within(root: Path, p: Path) {
    |root| <= |p| && p[..|root|] == root
  }

  /**
   * A path within the root, as resolved, lies below it: it is the root
   * followed by normalised segments only.
   */
  lemma {:induction false} WithinIsBelow(root: Path, decoded: string)
    requires Clean(root)
    requires Within(root, Resolve(root, decoded))
    ensures var p := Resolve(root, decoded);
            p == root + p[|root|..] && Clean(p[|root|..])
  {
    BelowRoot(root, Resolve(root, decoded));
  }

  lemma BelowRoot(root: Path, p: Path)
    requires Clean(p) && Within(root, p)
    ensures p == root + p[|root|..] && Clean(p[|root|..])
  {
    var rest := p[|root|..];
    forall k | 0 <= k < |rest| ensures Named(rest[k]) {
      assert rest[k] == p[|root| + k];
    }
  }

  /** A path with no ".." segment never leaves the directory it starts from. */
  lemma {:induction false} WalkWithoutParent(acc: Path, segs: seq<string>)
    requires forall k :: 0 <= k < |segs| ==> segs[k] != ".."
    ensures Within(acc, Walk(acc, segs))
    decreases |segs|
  {
    if segs != [] {
      var s := segs[0];
      var next := if s == [] || s == "." then acc else acc + [s];
      WalkWithoutParent(next, segs[1..]);
      assert Walk(acc, segs) == Walk(next, segs[1..]);
      assert next[..|acc|] == acc;
    }
  }

  /** Joining two non-empty lists of parts puts one separator between them. */
  lemma {:induction false} JoinAppend(a: seq<string>, b: seq<string>, sep: string)
    requires a != [] && b != []
    ensures Join(a + b, sep) == Join(a, sep) + sep + Join(b, sep)
  {
    var ab := a + b;
    assert |ab| > 1 && ab[0] == a[0];
    assert Join(ab, sep) == a[0] + sep + Join(ab[1..], sep);
    if |a| == 1 {
      assert ab[1..] == b;
    } else {
      assert ab[1..] == a[1..] + b;
      JoinAppend(a[1..], b, sep);
      assert Join(a, sep) == a[0] + sep + Join(a[1..], sep);
    }
  }

  /** A path within the root, rendered, begins with the rendered root. */
  lemma {:induction false} RenderKeepsPrefix(root: Path, p: Path)
    ensures Within(root, p) ==> StartsWith(Render(p), Render(root))
  {
    if Within(root, p) {
      var rest := p[|root|..];
      assert p == root + rest;
      if root != [] && rest != [] {
        JoinAppend(root, rest, "/");
        assert Render(p) == Render(root) + "/" + Join(rest, "/");
      } else if root == [] {
        assert Render(p)[..1] == "/";
      } else {
        assert p == root;
      }
    }
  }

  /** A segment without a slash splits into itself alone. */
  lemma {:induction false} SplitSegment(n: string)
    requires '/' !in n
    ensures Split(n, '/') == [n]
  {
    if n != [] {
      SplitSegment(n[1..]);
      assert [n[0]] + n[1..] == n;
    }
  }

  /** A leading segment without a slash splits off on its own. */
  lemma {:induction false} SplitAfterSegment(n: string, rest: string)
    requires '/' !in n
    ensures Split(n + "/" + rest, '/') == [n] + Split(rest, '/')
  {
    var s := n + "/" + rest;
    if n == [] {
      assert s[0] == '/' && s[1..] == rest;
    } else {
      assert s[0] == n[0] != '/';
      assert s[1..] == n[1..] + "/" + rest;
      SplitAfterSegment(n[1..], rest);
      var r := Split(s[1..], '/');
      assert r == [n[1..]] + Split(rest, '/');
      assert Split(s, '/') == [[s[0]] + r[0]] + r[1..];
      assert r[0] == n[1..] && r[1..] == Split(rest, '/');
      assert [n[0]] + n[1..] == n;
    }
  }

  /** Walking a named segment appends it. */
  lemma WalkNamed(acc: Path, n: string, rest: seq<string>)
    requires Named(n)
    ensures Walk(acc, [n] + rest) == Walk(acc + [n], rest)
  {
    assert ([n] + rest)[1..] == rest;
  }

  /** "/../" + tail is tail walked from the root's parent. */
  lemma {:induction false} ResolveFromParent(root: Path, tail: string)
    requires root != []
    requires tail == [] || tail[0] != '/'
    ensures Resolve(root, "/../" + tail) == Walk(root[..|root| - 1], Split(tail, '/'))
  {
    var path := "/../" + tail;
    assert path != "/" by { assert path[1] == '.'; }
    assert path[1..] == "../" + tail;
    assert LStripSlashes(path) == "../" + tail;
    SplitAfterSegment("..", tail);
    var segs := Split(tail, '/');
    assert ".." + "/" + tail == "../" + tail;
    assert ([".."] + segs)[1..] == segs;
    assert Walk(root, [".."] + segs) == Walk(root[..|root| - 1], segs);
  }

  /** "/" + name resolves to the entry name directly under the root, which the check admits. */
  lemma {:induction false} ResolveTopLevel(root: Path, name: string)
    requires Named(name) && '/' !in name
    ensures Resolve(root, "/" + name) == root + [name]
    ensures Within(root, Resolve(root, "/" + name))
  {
    var path := "/" + name;
    assert path != "/" by { assert |path| > 1; }
    assert path[1..] == name;
    assert name[0] != '/';
    assert LStripSlashes(path) == name;
    SplitSegment(name);
    WalkNamed(root, name, []);
    assert [name] + [] == [name];
    assert (root + [name])[..|root|] == root;
  }

  /**
   * "/../" + name, under a root that is not "/", resolves to a sibling of
   * the root; unless that sibling is the root itself, it is refused.
   */
  lemma {:induction false} ParentSegmentRefused(root: Path, name: string)
    requires Clean(root) && root != []
    requires Named(name) && '/' !in name && name != root[|root| - 1]
    ensures Resolve(root, "/../" + name) == root[..|root| - 1] + [name]
    ensures !Within(root, Resolve(root, "/../" + name))
  {
    assert name[0] != '/';
    ResolveFromParent(root, name);
    SplitSegment(name);
    var up := root[..|root| - 1];
    WalkNamed(up, name, []);
    assert [name] + [] == [name];
    var p := up + [name];
    assert |p| == |root| && p[|root| - 1] != root[|root| - 1];
  }

  /** A directory name extended by a non-empty suffix is still a plain name. */
  lemma ExtendedName(dir: string, suffix: string)
    requires Named(dir) && suffix != [] && '/' !in dir && '/' !in suffix
    ensures Named(dir + suffix) && '/' !in dir + suffix && |dir + suffix| > |dir|
  {
    var ds := dir + suffix;
    assert ds[0] == dir[0];
    forall k | 0 <= k < |ds| ensures ds[k] != '/' {
      if k < |dir| { assert ds[k] == dir[k]; } else { assert ds[k] == suffix[k - |dir|]; }
    }
  }

  /** Resolving "/../" + name + "/" + file under parent + [dir]. */
  lemma {:induction false} ResolveSibling(parent: Path, dir: string, name: string, file: string)
    requires Named(name) && Named(file) && '/' !in name && '/' !in file
    ensures Resolve(parent + [dir], "/../" + name + "/" + file) == parent + [name, file]
  {
    var root := parent + [dir];
    var tail := name + "/" + file;
    assert "/../" + name + "/" + file == "/../" + tail;
    assert tail[0] == name[0] != '/';
    assert root[..|root| - 1] == parent;
    ResolveFromParent(root, tail);
    SplitAfterSegment(name, file);
    SplitSegment(file);
    WalkNamed(parent, name, [file]);
    WalkNamed(parent + [name], file, []);
    assert [file] + [] == [file];
    assert parent + [name] + [file] == parent + [name, file];
  }

  /** The string of parent + [dir + suffix, file] extends the string of parent + [dir]. */
  lemma {:induction false} RenderSibling(parent: Path, dir: string, suffix: string, file: string)
    ensures Render(parent + [dir + suffix, file]) == Render(parent + [dir]) + suffix + "/" + file
  {
    var ds := dir + suffix;
    assert Join([ds, file], "/") == ds + "/" + file by {
      assert [ds, file][1..] == [file];
    }
    if parent != [] {
      JoinAppend(parent, [ds, file], "/");
      JoinAppend(parent, [dir], "/");
    } else {
      assert [] + [dir] == [dir];
      assert [] + [ds, file] == [ds, file];
    }
  }

  /**
   * The flaw in the check as written: a sibling of the root whose name
   * begins with the root's name (root /srv/app, request
   * "/../app-data/x", resolved /srv/app-data/x) lies outside the root, yet
   * its string starts with the root's string, so the check lets it through.
   */
  lemma {:induction false} SiblingWithRootPrefixPasses(parent: Path, dir: string, suffix: string, file: string)
    requires Named(dir) && Named(file) && suffix != []
    requires '/' !in dir && '/' !in suffix && '/' !in file
    ensures var root := parent + [dir];
            var p := Resolve(root, "/../" + dir + suffix + "/" + file);
            p == parent + [dir + suffix, file] && WithinAsWritten(root, p) && !Within(root, p)
  {
    var root := parent + [dir];
    var ds := dir + suffix;
    ExtendedName(dir, suffix);
    assert "/../" + dir + suffix + "/" + file == "/../" + ds + "/" + file;
    ResolveSibling(parent, dir, ds, file);
    var p := parent + [ds, file];
    assert p[|root| - 1] == ds != dir;
    RenderSibling(parent, dir, suffix, file);
  }
}
