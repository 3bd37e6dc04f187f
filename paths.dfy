/**
 * The path guard `AzureBlobService.safe_join` (Services/azureService.py): it keeps only
 * the final segment of an untrusted blob name, joins it to the download folder and
 * refuses the result when its absolute form is not inside the folder's absolute form.
 * The POSIX path functions it uses are modelled here: `basename`, `join`, `abspath`
 * (with the normalisation of `.`, `..` and repeated slashes that `normpath` performs)
 * and `commonpath`.
 */
module Paths {
  import opened Text
  import opened Wrappers

  /** The `ValueError("Invalid file path")` that `safe_join` raises. */
  datatype PathError = InvalidFilePath

  predicate IsAbs(p: string)
  {
    |p| > 0 && p[0] == '/'
  }

  /** `os.path.basename`: what follows the last `/`. */
  function Basename(p: string): (b: string)
    ensures '/' !in b
    ensures |b| <= |p| && b == p[|p| - |b|..]
    ensures |b| < |p| ==> p[|p| - |b| - 1] == '/'
  {
    p[LastIndexOf(p, '/') + 1..]
  }

  /** `os.path.join(a, b)` for two arguments. */
  function Join(a: string, b: string): string
  {
    if IsAbs(b) then b
    else if a == "" || a[|a| - 1] == '/' then a + b
    else a + "/" + b
  }

  /** Segments that `normpath` keeps in an absolute path: no empty, `.` or `..` segment, no `/`. */
  predicate Canonical(segs: seq<string>)
  {
    forall i :: 0 <= i < |segs| ==> segs[i] != "" && segs[i] != "." && segs[i] != ".." && '/' !in segs[i]
  }

  /** One step of `normpath` on an absolute path: skip `` and `.`, let `..` drop the last kept segment. */
  function Step(kept: seq<string>, comp: string): seq<string>
  {
    if comp == "" || comp == "." then kept
    else if comp == ".." then (if kept == [] then kept else kept[..|kept| - 1])
    else kept + [comp]
  }

  /** The segments `normpath` keeps of an absolute path with components `comps`, left to right. */
  function Resolve(comps: seq<string>): (segs: seq<string>)
    requires NoneContains(comps, '/')
    ensures Canonical(segs)
  {
    if comps == [] then []
    else Step(Resolve(comps[..|comps| - 1]), comps[|comps| - 1])
  }

  /** The path `abspath` normalises: `p` itself when absolute, else `p` joined to the working directory. */
  function Absolute(p: string, cwd: string): string
  {
    if IsAbs(p) then p else Join(cwd, p)
  }

  /** The segments of `os.path.abspath(p)` when the working directory is `cwd`. */
  function AbsSegments(p: string, cwd: string): (segs: seq<string>)
    ensures Canonical(segs)
  {
    Resolve(Split(Absolute(p, cwd), '/'))
  }

  /** An absolute path written out from its segments. */
  function Render(segs: seq<string>): string
  {
    "/" + JoinWith(segs, '/')
  }

  /** `os.path.abspath(p)` when the working directory is `cwd`. */
  function AbsPath(p: string, cwd: string): string
  {
    Render(AbsSegments(p, cwd))
  }

  /** The components `commonpath` compares: the non-empty ones other than `.`. */
  function Components(parts: seq<string>): seq<string>
  {
    if parts == [] then []
    else
      var last := parts[|parts| - 1];
      Components(parts[..|parts| - 1]) + (if last == "" || last == "." then [] else [last])
  }

  /** The longest common prefix of two segment lists. */
  function CommonPrefix(a: seq<string>, b: seq<string>): (c: seq<string>)
    ensures |c| <= |a| && |c| <= |b|
    ensures c == a[..|c|] && c == b[..|c|]
    ensures |c| < |a| && |c| < |b| ==> a[|c|] != b[|c|]
  {
    if a == [] || b == [] || a[0] != b[0] then []
    else [a[0]] + CommonPrefix(a[1..], b[1..])
  }

  /** `os.path.commonpath([p, q])` for two absolute paths. */
  function CommonPath(p: string, q: string): string
  {
    Render(CommonPrefix(Components(Split(p, '/')), Components(Split(q, '/'))))
  }

  /** The containment test of `safe_join`: `commonpath([abspath(p), abspath(bd)]) == abspath(bd)`. */
  predicate Within(p: string, bd: string, cwd: string)
  {
    CommonPath(AbsPath(p, cwd), AbsPath(bd, cwd)) == AbsPath(bd, cwd)
  }

  /** `safe_join(bd, filename)` run with working directory `cwd`. */
  function SafeJoin(bd: string, filename: string, cwd: string): Result<string, PathError>
    requires IsAbs(cwd)
  {
    var fullPath := Join(bd, Basename(filename));
    if !Within(fullPath, bd, cwd) then Err(InvalidFilePath) else Ok(fullPath)
  }

  predicate IsPrefix(a: seq<string>, b: seq<string>)
  {
    |a| <= |b| && b[..|a|] == a
  }

  // ---------------------------------------------------------------------------
  // Lemmas about the path functions

  lemma {:induction false} RenderIsJoin(segs: seq<string>)
    requires segs != []
    ensures Render(segs) == JoinWith([""] + segs, '/')
    decreases |segs|
  {
    var parts := [""] + segs;
    if |segs| > 1 {
      var init := segs[..|segs| - 1];
      RenderIsJoin(init);
      assert parts[..|parts| - 1] == [""] + init;
    } else {
      assert parts[..1] == [""];
    }
  }

  lemma {:induction false} ComponentsOfCanonical(segs: seq<string>)
    requires Canonical(segs)
    ensures Components([""] + segs) == segs
    decreases |segs|
  {
    var parts := [""] + segs;
    if segs == [] {
      assert parts[..0] == [];
    } else {
      var init := segs[..|segs| - 1];
      assert parts[..|parts| - 1] == [""] + init;
      ComponentsOfCanonical(init);
    }
  }

  /** `commonpath` splits a rendered absolute path back into the segments it was rendered from. */
  lemma {:induction false} ComponentsOfRender(segs: seq<string>)
    requires Canonical(segs)
    ensures Components(Split(Render(segs), '/')) == segs
  {
    if segs == [] {
      assert LastIndexOf("/", '/') == 0;
      assert "/"[..0] == "" && "/"[1..] == "";
      assert Split("/", '/') == Split("", '/') + [""];
      assert Split("/", '/') == ["", ""];
      assert Components(["", ""]) == Components([""]);
      assert Components([""]) == Components([]);
    } else {
      RenderIsJoin(segs);
      SplitJoin([""] + segs, '/');
      ComponentsOfCanonical(segs);
    }
  }

  /** Rendering is injective on canonical segment lists. */
  lemma {:induction false} RenderInjective(a: seq<string>, b: seq<string>)
    requires Canonical(a) && Canonical(b)
    requires Render(a) == Render(b)
    ensures a == b
  {
    ComponentsOfRender(a);
    ComponentsOfRender(b);
  }

  lemma {:induction false} CommonPrefixIsPrefix(a: seq<string>, b: seq<string>)
    ensures CommonPrefix(a, b) == b <==> IsPrefix(b, a)
  {
  }

  /** `commonpath(p, bd) == bd` decides exactly whether the segments of `bd` begin those of `p`. */
  lemma {:induction false} CommonPathCheck(p: seq<string>, bd: seq<string>)
    requires Canonical(p) && Canonical(bd)
    ensures CommonPath(Render(p), Render(bd)) == Render(bd) <==> IsPrefix(bd, p)
  {
    ComponentsOfRender(p);
    ComponentsOfRender(bd);
    var c := CommonPrefix(p, bd);
    assert Canonical(c) by {
      forall i | 0 <= i < |c| ensures c[i] == p[i] {}
    }
    if Render(c) == Render(bd) {
      RenderInjective(c, bd);
    }
    CommonPrefixIsPrefix(p, bd);
  }

  lemma {:induction false} SlashFreeNotAbs(n: string)
    requires '/' !in n
    ensures !IsAbs(n)
  {
    if |n| > 0 {
      assert n[0] in n;
    }
  }

  /** The separator `join` puts after `a` before a relative second argument. */
  function Sep(a: string): string
  {
    if a == "" || a[|a| - 1] == '/' then "" else "/"
  }

  lemma {:induction false} JoinRelative(a: string, b: string)
    requires !IsAbs(b)
    ensures Join(a, b) == a + Sep(a) + b
  {
  }

  lemma {:induction false} JoinAssoc(a: string, b: string, n: string)
    requires !IsAbs(b) && '/' !in n
    ensures Join(a, Join(b, n)) == Join(Join(a, b), n)
  {
    SlashFreeNotAbs(n);
    if b == "" {
      JoinEmptyAssoc(a, n);
    } else {
      JoinNonEmptyAssoc(a, b, n);
    }
  }

  lemma {:induction false} JoinEmptyAssoc(a: string, n: string)
    requires !IsAbs(n)
    ensures Join(a, Join("", n)) == Join(Join(a, ""), n)
  {
    assert Join("", n) == n;
    JoinRelative(a, "");
    assert Join(a, "") == a + Sep(a);
    if Sep(a) == "/" {
      var s := a + "/";
      assert s[|s| - 1] == '/';
    }
  }

  lemma {:induction false} JoinNonEmptyAssoc(a: string, b: string, n: string)
    requires b != "" && !IsAbs(b) && !IsAbs(n)
    ensures Join(a, Join(b, n)) == Join(Join(a, b), n)
  {
    JoinRelative(b, n);
    JoinRelative(a, b);
    var jb, ab := b + Sep(b) + n, a + Sep(a) + b;
    assert jb[0] == b[0];
    JoinRelative(a, jb);
    assert ab[|ab| - 1] == b[|b| - 1];
    assert Sep(ab) == Sep(b);
    JoinRelative(ab, n);
    assert a + Sep(a) + (b + Sep(b) + n) == (a + Sep(a) + b) + Sep(b) + n;
  }

  lemma {:induction false} AbsoluteJoin(bd: string, n: string, cwd: string)
    requires '/' !in n
    ensures Absolute(Join(bd, n), cwd) == Join(Absolute(bd, cwd), n)
  {
    SlashFreeNotAbs(n);
    if IsAbs(bd) {
      var j := Join(bd, n);
      assert j[0] == '/';
    } else {
      if bd != "" {
        var j := Join(bd, n);
        assert j[0] == bd[0];
      }
      JoinAssoc(cwd, bd, n);
    }
  }

  lemma {:induction false} ResolveSnoc(comps: seq<string>, c: string)
    requires NoneContains(comps, '/') && '/' !in c
    ensures Resolve(comps + [c]) == Step(Resolve(comps), c)
  {
    var cs := comps + [c];
    assert cs[..|cs| - 1] == comps;
  }

  lemma {:induction false} ResolveAppendName(a: string, n: string)
    requires '/' !in n
    ensures Resolve(Split(a + "/" + n, '/')) == Step(Resolve(Split(a, '/')), n)
  {
    SplitAfter(a, '/', n);
    ResolveSnoc(Split(a, '/'), n);
  }

  lemma {:induction false} ResolveName(n: string)
    requires '/' !in n
    ensures Resolve(Split(n, '/')) == Step([], n)
  {
    assert LastIndexOf(n, '/') == -1;
    assert Split(n, '/') == [] + [n];
    ResolveSnoc([], n);
  }

  /** Splitting `x` joined with a slash-free name yields the components of `x` followed by the name, up to an empty one. */
  lemma {:induction false} ResolveJoin(x: string, n: string)
    requires '/' !in n
    ensures Resolve(Split(Join(x, n), '/')) == Step(Resolve(Split(x, '/')), n)
  {
    SlashFreeNotAbs(n);
    if x == "" {
      assert Join(x, n) == n;
      ResolveName(n);
      ResolveName(x);
    } else if x[|x| - 1] == '/' {
      var init := x[..|x| - 1];
      assert x == init + "/" + "";
      assert Join(x, n) == init + "/" + n;
      ResolveAppendName(init, n);
      ResolveAppendName(init, "");
    } else {
      assert Join(x, n) == x + "/" + n;
      ResolveAppendName(x, n);
    }
  }

  /** The absolute form of the joined path is one normalisation step past the folder's. */
  lemma {:induction false} AbsSegmentsJoin(bd: string, n: string, cwd: string)
    requires '/' !in n
    ensures AbsSegments(Join(bd, n), cwd) == Step(AbsSegments(bd, cwd), n)
  {
    AbsoluteJoin(bd, n, cwd);
    ResolveJoin(Absolute(bd, cwd), n);
  }

  lemma {:induction false} BasenameOfSlashFree(n: string)
    requires '/' !in n
    ensures Basename(n) == n
  {
    assert LastIndexOf(n, '/') == -1;
  }

  /** `safe_join` returns exactly when the absolute result is inside the absolute folder. */
  lemma {:induction false} SafeJoinContained(bd: string, filename: string, cwd: string)
    requires IsAbs(cwd)
    ensures SafeJoin(bd, filename, cwd).Ok? <==>
            IsPrefix(AbsSegments(bd, cwd), AbsSegments(Join(bd, Basename(filename)), cwd))
    ensures SafeJoin(bd, filename, cwd).Ok? ==>
            IsPrefix(AbsSegments(bd, cwd), AbsSegments(SafeJoin(bd, filename, cwd).value, cwd))
  {
    CommonPathCheck(AbsSegments(Join(bd, Basename(filename)), cwd), AbsSegments(bd, cwd));
  }

  /**
   * `safe_join` raises exactly when the final segment of the name is `..` and the folder is
   * not the root; otherwise it returns the folder joined with that final segment.
   */
  lemma {:induction false} SafeJoinOutcome(bd: string, filename: string, cwd: string)
    requires IsAbs(cwd)
    ensures SafeJoin(bd, filename, cwd).Err? <==> Basename(filename) == ".." && AbsSegments(bd, cwd) != []
    ensures SafeJoin(bd, filename, cwd).Ok? ==> SafeJoin(bd, filename, cwd).value == Join(bd, Basename(filename))
  {
    var n := Basename(filename);
    SafeJoinContained(bd, filename, cwd);
    AbsSegmentsJoin(bd, n, cwd);
    StepPrefix(AbsSegments(bd, cwd), n);
  }

  /** A normalisation step leaves the kept segments a prefix of the result unless it drops one. */
  lemma {:induction false} StepPrefix(b: seq<string>, n: string)
    ensures IsPrefix(b, Step(b, n)) <==> !(n == ".." && b != [])
  {
    if n == ".." && b != [] {
      assert |Step(b, n)| < |b|;
    } else if n != "" && n != "." && n != ".." {
      assert (b + [n])[..|b|] == b;
    }
  }

  lemma {:induction false} BasenameAfterSlash(dir: string, name: string)
    requires '/' !in name
    ensures Basename(dir + "/" + name) == name
  {
    var f := dir + "/" + name;
    LastIndexOfAppend(dir + "/", name, '/');
    assert LastIndexOf(dir + "/", '/') == |dir|;
    assert f[|dir| + 1..] == name;
  }

  /** The final segment of a folder joined with a slash-free name is that name. */
  lemma {:induction false} BasenameJoin(bd: string, n: string)
    requires '/' !in n
    ensures Basename(Join(bd, n)) == n
  {
    SlashFreeNotAbs(n);
    JoinRelative(bd, n);
    if Sep(bd) == "/" {
      BasenameAfterSlash(bd, n);
    } else if bd == "" {
      assert Join(bd, n) == n;
      BasenameOfSlashFree(n);
    } else {
      var d := bd[..|bd| - 1];
      assert bd == d + "/";
      assert Join(bd, n) == d + "/" + n;
      BasenameAfterSlash(d, n);
    }
  }

  /** Every directory component of the name is dropped: only its final segment matters. */
  lemma {:induction false} SafeJoinIgnoresDirectories(bd: string, dir: string, name: string, cwd: string)
    requires IsAbs(cwd)
    requires '/' !in name
    ensures SafeJoin(bd, dir + "/" + name, cwd) == SafeJoin(bd, name, cwd)
  {
    BasenameAfterSlash(dir, name);
    BasenameOfSlashFree(name);
  }

  /** `safe_join` returns its own successful result unchanged. */
  lemma {:induction false} SafeJoinIdempotent(bd: string, filename: string, cwd: string)
    requires IsAbs(cwd)
    requires SafeJoin(bd, filename, cwd).Ok?
    ensures SafeJoin(bd, SafeJoin(bd, filename, cwd).value, cwd) == SafeJoin(bd, filename, cwd)
  {
    var n := Basename(filename);
    assert SafeJoin(bd, filename, cwd).value == Join(bd, n);
    BasenameJoin(bd, n);
  }

  /** A name that climbs out of the folder is reduced to its final segment rather than refused. */
  lemma {:induction false} TraversalIsFlattened(bd: string, dir: string, name: string, cwd: string)
    requires IsAbs(cwd)
    requires bd == "/data/stage" && dir == "../../etc" && name == "passwd"
    ensures SafeJoin(bd, dir + "/" + name, cwd) == Ok(bd + "/" + name)
  {
    SafeJoinIgnoresDirectories(bd, dir, name, cwd);
    PlainNameAccepted(bd, name, cwd);
  }

  /** A file name without slashes other than `..` is placed inside a folder written without a trailing slash. */
  lemma {:induction false} PlainNameAccepted(bd: string, name: string, cwd: string)
    requires IsAbs(cwd)
    requires bd != "" && bd[|bd| - 1] != '/'
    requires '/' !in name && name != ".."
    ensures SafeJoin(bd, name, cwd) == Ok(bd + "/" + name)
  {
    BasenameOfSlashFree(name);
    assert Basename(name) != "..";
    SafeJoinOutcome(bd, name, cwd);
    SlashFreeNotAbs(name);
    JoinRelative(bd, name);
    assert Sep(bd) == "/";
  }

  /** A name whose final segment is `..` is refused for a folder whose last segment is an ordinary name. */
  lemma {:induction false} ParentNameRefused(parent: string, child: string, filename: string, cwd: string)
    requires IsAbs(cwd)
    requires '/' !in child && child != "" && child != "." && child != ".."
    requires Basename(filename) == ".."
    ensures SafeJoin(parent + "/" + child, filename, cwd).Err?
  {
    var bd := parent + "/" + child;
    SafeJoinOutcome(bd, filename, cwd);
    SlashFreeNotAbs(child);
    JoinRelative(parent + "/", child);
    assert Sep(parent + "/") == "";
    assert Join(parent + "/", child) == bd;
    AbsSegmentsJoin(parent + "/", child, cwd);
  }
}
