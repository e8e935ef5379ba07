/**
 * The two POSIX path computations the core relies on: `path.extname` (used
 * to pick the static-data parser of a page file) and `path.join` with its
 * normalisation (used to place each rendered page under the client output
 * directory). Paths are relative to that directory; a leading `..` segment
 * means the path escapes it. Only `/` separates segments, as on POSIX hosts.
 */
module Paths {
  import opened Text

  /** `s` without its trailing run of `c`. */
  function TrimTrailing(s: string, c: char): (r: string)
    ensures |r| <= |s| && r == s[..|r|]
    ensures |r| == 0 || r[|r| - 1] != c
  {
    if |s| > 0 && s[|s| - 1] == c then TrimTrailing(s[..|s| - 1], c) else s
  }

  /** Last segment of a path, ignoring trailing separators. */
  function Basename(p: string): (r: string)
    ensures '/' !in r
  {
    var parts := Split(TrimTrailing(p, '/'), '/');
    SplitPiecesFree(TrimTrailing(p, '/'), '/');
    parts[|parts| - 1]
  }

  /**
   * `path.extname`: from the last `.` of the base name to its end, or `""`
   * when the base name has no `.`, starts with its only relevant `.`
   * (a dot-file), or is `..`.
   */
  function ExtName(p: string): (r: string)
    ensures r == "" || (r[0] == '.' && '.' !in r[1..] && '/' !in r)
    // a non-empty extension is the part of the base name from its last `.`, and never all of it
    ensures r != "" ==> |r| < |Basename(p)| && Basename(p)[|Basename(p)| - |r|..] == r
    // a base name without `.` has no extension
    ensures '.' !in Basename(p) ==> r == ""
  {
    var b := Basename(p);
    var parts := Split(b, '.');
    SplitPiecesFree(b, '.');
    SplitLast(b, '.');
    if '.' !in b then SplitNone(b, '.'); ""
    else if |parts| == 1 then ""
    else
      var e := "." + parts[|parts| - 1];
      assert e[1..] == parts[|parts| - 1];
      assert '/' !in e by {
        assert '/' !in b;
        SplitKeepsOut(b, '.', '/');
        assert '/' !in parts[|parts| - 1];
        assert e == ['.'] + parts[|parts| - 1];
      }
      if |e| == |b| || b == ".." then "" else e
  }

  /** A character absent from the text is absent from every piece of its split. */
  lemma {:induction false} SplitKeepsOut(s: string, c: char, x: char)
    requires x !in s
    ensures forall i :: 0 <= i < |Split(s, c)| ==> x !in Split(s, c)[i]
    decreases |s|
  {
    if |s| > 0 {
      var t := s[1..];
      assert x !in t by {
        forall k | 0 <= k < |t| ensures t[k] != x { assert t[k] == s[k + 1]; }
      }
      SplitKeepsOut(t, c, x);
      var rest := Split(t, c);
      var parts := Split(s, c);
      forall j | 0 <= j < |parts| ensures x !in parts[j] {
        if s[0] != c && j == 0 {
          assert parts[0] == [s[0]] + rest[0];
        } else if s[0] != c {
          assert parts[j] == rest[j];
        } else if j > 0 {
          assert parts[j] == rest[j - 1];
        }
      }
    }
  }

  /** `path.extname(filePath).slice(1)`: the extension without its dot. */
  function ExtOf(p: string): string {
    var e := ExtName(p);
    if |e| == 0 then "" else e[1..]
  }

  /** The base name of a file in a directory is the file name. */
  lemma BasenameOf(dir: string, name: string)
    requires dir == "" || dir[|dir| - 1] == '/'
    requires |name| > 0 && '/' !in name && name[|name| - 1] != '/'
    ensures Basename(dir + name) == name
  {
    var p := dir + name;
    assert p[|p| - 1] == name[|name| - 1];
    assert TrimTrailing(p, '/') == p;
    if dir == "" {
      assert p == name;
      SplitNone(name, '/');
    } else {
      var d0 := dir[..|dir| - 1];
      assert p == d0 + ['/'] + name;
      SplitConcat(d0, '/', name);
      SplitNone(name, '/');
    }
  }

  /** A file `stem.ext` in any directory has extension `ext`, whatever dots the stem holds. */
  lemma ExtOfFileName(dir: string, stem: string, ext: string)
    requires dir == "" || dir[|dir| - 1] == '/'
    requires |stem| > 0 && '/' !in stem
    requires '/' !in ext && '.' !in ext
    ensures ExtOf(dir + stem + "." + ext) == ext
  {
    var name := stem + "." + ext;
    assert name == stem + ['.'] + ext;
    assert '/' !in name;
    assert name[|name| - 1] != '/' by {
      if |ext| > 0 { assert name[|name| - 1] == ext[|ext| - 1]; } else { assert name[|name| - 1] == '.'; }
    }
    BasenameOf(dir, name);
    assert dir + stem + "." + ext == dir + name;
    SplitConcat(stem, '.', ext);
    SplitNone(ext, '.');
    var parts := Split(name, '.');
    assert parts == Split(stem, '.') + [ext];
    assert |parts| >= 2 && parts[|parts| - 1] == ext;
  }

  /** A file name without `.`, such as `README`, has no extension in any directory. */
  lemma DotlessFileHasNoExt(dir: string, name: string)
    requires dir == "" || dir[|dir| - 1] == '/'
    requires |name| > 0 && '/' !in name && '.' !in name
    ensures ExtName(dir + name) == ""
  {
    BasenameOf(dir, name);
  }

  /** A dot-file such as `.md` has no extension. */
  lemma DotFileHasNoExt(dir: string, name: string)
    requires dir == "" || dir[|dir| - 1] == '/'
    requires |name| > 0 && '/' !in name && '.' !in name
    ensures ExtOf(dir + "." + name) == ""
  {
    DotFileBase(dir, name);
    DotFileSplit(name);
    NoExtOfDotted(dir + "." + name, name);
  }

  lemma DotFileBase(dir: string, name: string)
    requires dir == "" || dir[|dir| - 1] == '/'
    requires |name| > 0 && '/' !in name
    ensures Basename(dir + "." + name) == "." + name
  {
    var base := "." + name;
    assert dir + "." + name == dir + base;
    assert base[|base| - 1] == name[|name| - 1];
    assert '/' !in base;
    BasenameOf(dir, base);
  }

  lemma DotFileSplit(name: string)
    requires '.' !in name
    ensures Split("." + name, '.') == [""] + [name]
  {
    assert "." + name == [] + ['.'] + name;
    SplitConcat([], '.', name);
    SplitNone(name, '.');
  }

  lemma NoExtOfDotted(p: string, name: string)
    requires Basename(p) == "." + name
    requires Split("." + name, '.') == [""] + [name]
    ensures ExtOf(p) == ""
  {
  }

  /** One step of `path.normalize` over the segments seen so far. */
  function NormStep(acc: seq<string>, seg: string): seq<string> {
    if seg == "" || seg == "." then acc
    else if seg == ".." then
      (if |acc| > 0 && acc[|acc| - 1] != ".." then acc[..|acc| - 1] else acc + [".."])
    else acc + [seg]
  }

  /** `path.normalize` over a list of segments. */
  function Normalize(acc: seq<string>, segs: seq<string>): seq<string>
    decreases |segs|
  {
    if |segs| == 0 then acc else Normalize(NormStep(acc, segs[0]), segs[1..])
  }

  /** `pagePath.slice(1)`. */
  function DropFirst(s: string): string {
    if |s| == 0 then "" else s[1..]
  }

  /**
   * `path.join(clientOutDir, pagePath.slice(1), 'index.html')`, relative to
   * the client output directory.
   */
  function OutputPath(pagePath: string): string {
    Join(Normalize([], Split(DropFirst(pagePath), '/') + ["index.html"]), "/")
  }

  /** A segment that normalisation keeps as it is. */
  predicate PlainSegment(seg: string) {
    seg != "" && seg != "." && seg != ".." && '/' !in seg
  }

  /** The root route, or `/` followed by plain segments separated by single slashes. */
  predicate PlainRoute(p: string) {
    p == "/" ||
    (StartsWith(p, "/") &&
     var segs := Split(p[1..], '/'); forall i :: 0 <= i < |segs| ==> PlainSegment(segs[i]))
  }

  lemma {:induction false} NormalizePlain(acc: seq<string>, segs: seq<string>)
    requires forall i :: 0 <= i < |segs| ==> PlainSegment(segs[i])
    ensures Normalize(acc, segs) == acc + segs
    decreases |segs|
  {
    if |segs| > 0 {
      NormalizePlain(acc + [segs[0]], segs[1..]);
      assert acc + [segs[0]] + segs[1..] == acc + segs;
    }
  }

  /** The root route is written to the root `index.html`. */
  lemma OutputPathRoot()
    ensures OutputPath("/") == "index.html"
  {
    assert Split("", '/') == [""];
    assert Normalize([], [""] + ["index.html"]) == ["index.html"] by {
      assert ([""] + ["index.html"])[1..] == ["index.html"];
      assert Normalize([], ["index.html"]) == ["index.html"] by {
        assert ["index.html"][1..] == [];
      }
    }
  }

  /** Any other plain route `/a/b` is written to `a/b/index.html`. */
  lemma OutputPathPlain(p: string)
    requires PlainRoute(p) && p != "/"
    ensures OutputPath(p) == p[1..] + "/index.html"
  {
    var segs := Split(p[1..], '/');
    var all := segs + ["index.html"];
    assert Split(DropFirst(p), '/') + ["index.html"] == all;
    assert Normalize([], all) == all by {
      assert PlainSegment("index.html");
      assert forall i :: 0 <= i < |all| ==> PlainSegment(all[i]) by {
        forall i | 0 <= i < |all| ensures PlainSegment(all[i]) {
          if i < |segs| { assert all[i] == segs[i]; }
        }
      }
      NormalizePlain([], all);
    }
    assert Join(all, "/") == Join(segs, "/") + "/" + "index.html" by {
      JoinSnoc(segs, "index.html", "/");
    }
    assert Join(segs, "/") == p[1..] by {
      JoinSplit(p[1..], '/');
    }
  }

  /** Among plain routes, only the root route is written to the root `index.html`. */
  lemma OutputPathIsRoot(p: string)
    requires PlainRoute(p)
    ensures OutputPath(p) == "index.html" <==> p == "/"
  {
    OutputPathRoot();
    if p != "/" {
      OutputPathPlain(p);
      assert |OutputPath(p)| > |"index.html"|;
    }
  }

  /** Distinct plain routes are written to distinct files. */
  lemma OutputPathInjective(p: string, q: string)
    requires PlainRoute(p) && PlainRoute(q)
    requires OutputPath(p) == OutputPath(q)
    ensures p == q
  {
    if p == "/" && q != "/" {
      OutputPathRoot();
      OutputPathPlain(q);
    } else if p != "/" && q == "/" {
      OutputPathRoot();
      OutputPathPlain(p);
    } else if p != "/" {
      OutputPathPlain(p);
      OutputPathPlain(q);
      var s := "/index.html";
      assert p[1..] == (p[1..] + s)[..|p| - 1];
      assert q[1..] == (q[1..] + s)[..|q| - 1];
      assert p == p[..1] + p[1..] && q == q[..1] + q[1..];
    }
  }
}
