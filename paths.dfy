/** Path strings as the CLI handles them: Ruby's File.basename (Unix flavour),
    the first component of a relative path (`split("/").first`), and the rule
    that turns a template file `x.erb` into its rendered target `x`. */
module Paths {
  import opened Text

  /** `s` with every trailing '/' removed. */
  function TrimTrailingSlashes(s: string): (t: string)
    ensures t <= s
    ensures t == [] || t[|t| - 1] != '/'
    ensures forall i | |t| <= i < |s| :: s[i] == '/'
  {
    if s != [] && s[|s| - 1] == '/' then TrimTrailingSlashes(s[..|s| - 1]) else s
  }

  /** The part of `s` after its last '/' (all of `s` if it has none). */
  function LastComponent(s: string): (c: string)
    ensures '/' !in c
    ensures |c| <= |s| && s[|s| - |c|..] == c
    ensures |c| == |s| || s[|s| - |c| - 1] == '/'
  {
    if s == [] || s[|s| - 1] == '/' then []
    else LastComponent(s[..|s| - 1]) + [s[|s| - 1]]
  }

  /** Ruby's `File.basename(path)` on a Unix system: trailing slashes are
      ignored, a path made only of slashes names the root "/", and otherwise
      the last '/'-separated component is returned. This is how every service
      argument is normalised (`normalise_service_name_from_dir`). */
  function Basename(path: string): (name: string)
    ensures path == [] <==> name == []
    ensures name == "/" || '/' !in name
    ensures name == "/" <==> path != [] && forall i | 0 <= i < |path| :: path[i] == '/'
  {
    var t := TrimTrailingSlashes(path);
    if t == [] then (if path == [] then [] else "/")
    else
      var c := LastComponent(t);
      assert c != [] by { assert t[|t| - 1] != '/'; }
      c
  }

  lemma {:induction false} LastComponentOfJoin(prefix: string, c: string)
    requires '/' !in c
    requires prefix == [] || prefix[|prefix| - 1] == '/'
    ensures LastComponent(prefix + c) == c
  {
    if c == [] {
      assert prefix + c == prefix;
    } else {
      var init := c[..|c| - 1];
      assert prefix + c == (prefix + init) + [c[|c| - 1]];
      assert (prefix + c)[..|prefix + c| - 1] == prefix + init;
      LastComponentOfJoin(prefix, init);
      assert init + [c[|c| - 1]] == c;
    }
  }

  /** A directory prefix is dropped: `Basename("./services/foo") == "foo"`. */
  lemma BasenameOfJoin(dir: string, name: string)
    requires name != [] && '/' !in name
    ensures Basename(dir + "/" + name) == name
  {
    var p := dir + "/" + name;
    assert p[|p| - 1] == name[|name| - 1];
    assert TrimTrailingSlashes(p) == p;
    assert p == (dir + "/") + name;
    LastComponentOfJoin(dir + "/", name);
  }

  /** A bare service name is returned unchanged. */
  lemma BasenameOfBareName(name: string)
    requires '/' !in name
    ensures Basename(name) == name
  {
    if name != [] {
      assert name[|name| - 1] != '/';
      assert TrimTrailingSlashes(name) == name;
      LastComponentOfJoin([], name);
      assert [] + name == name;
    }
  }

  /** The name is taken from the path: it holds no character other than
      '/' that the path does not. */
  lemma BasenameKeepsCharacters(path: string, ch: char)
    requires ch != '/' && ch !in path
    ensures ch !in Basename(path)
  {
    var t := TrimTrailingSlashes(path);
    if t != [] {
      var c := LastComponent(t);
      assert c == t[|t| - |c|..];
      assert forall i | 0 <= i < |c| :: c[i] == path[|t| - |c| + i];
    }
  }

  /** Normalising twice is normalising once. */
  lemma BasenameIdempotent(path: string)
    ensures Basename(Basename(path)) == Basename(path)
  {
    var n := Basename(path);
    if n == "/" {
      assert TrimTrailingSlashes(n) == [];
    } else {
      BasenameOfBareName(n);
    }
  }

  /** Ruby's `path.split("/").first` for a path that does not start with '/':
      everything before the first '/'. */
  function FirstComponent(path: string): string {
    UpTo(path, '/')
  }

  lemma FirstComponentOfJoin(dir: string, rest: string)
    requires '/' !in dir
    ensures FirstComponent(dir + "/" + rest) == dir
  {
    var p := dir + "/" + rest;
    var c := FirstComponent(p);
    assert p[|dir|] == '/';
    assert forall i | 0 <= i < |dir| :: p[i] == dir[i];
    assert c == p[..|dir|] == dir;
  }

  predicate EndsWith(s: string, suffix: string) {
    |suffix| <= |s| && s[|s| - |suffix|..] == suffix
  }

  predicate StartsWith(s: string, prefix: string) {
    prefix <= s
  }

  /** A path that a `*.erb` glob can return. */
  type ErbPath = p: string | EndsWith(p, ".erb") witness ".erb"

  /** The target of a rendered template: the capture of `/(.*)\.erb$/`, i.e.
      the path with only its final ".erb" removed. */
  function StripErb(p: ErbPath): (target: string)
    ensures target + ".erb" == p
    ensures |target| + 4 == |p|
  {
    p[..|p| - 4]
  }

  /** Appending ".erb" and stripping it again gives the target back, so only
      the final suffix goes: `StripErb("x.yml.erb.erb") == "x.yml.erb"`. */
  lemma StripErbIsInverse(target: string)
    ensures EndsWith(target + ".erb", ".erb")
    ensures StripErb(target + ".erb") == target
  {
    var p := target + ".erb";
    assert p[..|p| - 4] == target;
  }
}
