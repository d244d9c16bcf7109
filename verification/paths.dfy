/**
 * The slice of Node's `path` module the re-export step relies on, over
 * '/'-separated paths: `dirname`, `basename(p, ext)` and `join(dir, name)`.
 */
module Paths {
  import opened Wrappers

  /** True when `s` holds no path separator. */
  predicate NoSlash(s: string) {
    forall k :: 0 <= k < |s| ==> s[k] != '/'
  }

  /** The position of the last '/' in `s`, if there is one. */
  function LastSlash(s: string): (r: Option<nat>)
    ensures r.None? <==> NoSlash(s)
    ensures r.Some? ==> r.value < |s| && s[r.value] == '/' && NoSlash(s[r.value + 1..])
  {
    if s == [] then None
    else if s[|s| - 1] == '/' then Some(|s| - 1)
    else
      var r := LastSlash(s[..|s| - 1]);
      assert r.Some? ==> s[r.value + 1..] == s[..|s| - 1][r.value + 1..] + [s[|s| - 1]];
      r
  }

  /** `path.dirname`: everything before the last '/', "/" when that slash
      starts the path, and "." when the path has no slash at all. */
  function Dirname(p: string): (d: string)
    ensures d != ""
    ensures NoSlash(p) ==> d == "."
  {
    match LastSlash(p)
    case None => "."
    case Some(i) => if i == 0 then "/" else p[..i]
  }

  /** The last component of `p`: everything after its last '/'. */
  function LastComponent(p: string): (b: string)
    ensures NoSlash(b)
    ensures |b| <= |p| && p[|p| - |b|..] == b
  {
    match LastSlash(p)
    case None => p
    case Some(i) => p[i + 1..]
  }

  /** `path.basename(p, ext)`: the last component with a trailing `ext`
      removed, unless `ext` is all there is of it; a whole path equal to a
      non-empty `ext` gives the empty name. */
  function Basename(p: string, ext: string): (b: string)
    ensures NoSlash(b)
    ensures ext != "" && p == ext ==> b == ""
    ensures !(ext != "" && p == ext) && ProperSuffix(LastComponent(p), ext) ==> b + ext == LastComponent(p)
    ensures !(ext != "" && p == ext) && !ProperSuffix(LastComponent(p), ext) ==> b == LastComponent(p)
  {
    var base := LastComponent(p);
    if ext != "" && p == ext then ""
    else if ProperSuffix(base, ext) then base[..|base| - |ext|]
    else base
  }

  /** `s` ends with `ext` and has something before it. */
  predicate ProperSuffix(s: string, ext: string) {
    |ext| < |s| && s[|s| - |ext|..] == ext
  }

  /** `path.join(dir, name)` for a single-component `name`: the current
      directory and the empty path add nothing, and no separator is doubled. */
  function Join(dir: string, name: string): (p: string)
    ensures |name| <= |p| && p[|p| - |name|..] == name
  {
    if dir == "" || dir == "." then name
    else if dir[|dir| - 1] == '/' then dir + name
    else dir + "/" + name
  }

  /** A path with a separator after its first character is its directory, a
      '/', and its last component: `dirname` and the last component split it. */
  lemma {:induction false} DirnameLastComponentSplit(p: string)
    requires LastSlash(p).Some? && LastSlash(p).value > 0
    ensures p == Dirname(p) + "/" + LastComponent(p)
  {
    var i := LastSlash(p).value;
    assert p == p[..i] + [p[i]] + p[i + 1..];
  }

  /** A file joined onto a directory lands in that directory, under its own
      name, whenever the directory has the shape `dirname` returns without
      a trailing separator. */
  lemma {:induction false} JoinInverse(dir: string, name: string)
    requires name != "" && NoSlash(name)
    requires dir != "" && (dir == "/" || dir[|dir| - 1] != '/')
    ensures Dirname(Join(dir, name)) == dir
    ensures LastComponent(Join(dir, name)) == name
  {
    var p := Join(dir, name);
    if dir == "." {
      assert p == name;
    } else if dir == "/" {
      assert p == "/" + name;
      assert p[1..] == name;
      NoSlashSuffix(p, 0);
    } else {
      assert p == dir + "/" + name;
      assert p[|dir|] == '/' && p[|dir| + 1..] == name && p[..|dir|] == dir;
      NoSlashSuffix(p, |dir|);
    }
  }

  /** When the only separators of `p` stop at position `i`, that is its last one. */
  lemma {:induction false} NoSlashSuffix(p: string, i: nat)
    requires i < |p| && p[i] == '/' && NoSlash(p[i + 1..])
    ensures LastSlash(p) == Some(i)
  {
  }

  /** `basename(join(dir, stem + ext), ext)` recovers the stem: a module file's
      re-export line names the module. */
  lemma {:induction false} BasenameOfJoin(dir: string, stem: string, ext: string)
    requires stem != "" && NoSlash(stem) && NoSlash(ext)
    requires dir != "" && (dir == "/" || dir[|dir| - 1] != '/')
    ensures Basename(Join(dir, stem + ext), ext) == stem
  {
    var name := stem + ext;
    assert NoSlash(name) by {
      forall k | 0 <= k < |name| ensures name[k] != '/' {
        if k < |stem| { assert name[k] == stem[k]; } else { assert name[k] == ext[k - |stem|]; }
      }
    }
    JoinInverse(dir, name);
    assert name[|name| - |ext|..] == ext;
    assert name[..|name| - |ext|] == stem;
  }
}
