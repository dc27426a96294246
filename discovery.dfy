/** Service discovery. The working directory is a listing of the relative
    paths that exist in it (files and directories), in the order `Dir.glob`
    returns them. A service is a top-level directory holding a marker file:
    `Gemfile` for services whose gems are packaged, `bin/test` for services
    that can be tested. */
module Discovery {
  import opened Paths
  import opened Lists

  /** Relative paths of the entries of the working directory. */
  type Listing = seq<string>

  /** A name the glob `*` matches at the top level: one path component,
      not hidden. */
  predicate IsTopLevelName(d: string) {
    d != [] && '/' !in d && d[0] != '.'
  }

  // `path` is matched by the glob `*/<marker>`.
  predicate MatchesMarker(path: string, marker: string) {
    |path| > |marker| + 1 &&
    path[|path| - |marker|..] == marker &&
    path[|path| - |marker| - 1] == '/' &&
    IsTopLevelName(path[..|path| - |marker| - 1])
  }

  lemma MatchesJoin(d: string, marker: string)
    requires IsTopLevelName(d)
    ensures MatchesMarker(d + "/" + marker, marker)
  {
    var p := d + "/" + marker;
    assert p[|p| - |marker|..] == marker;
    assert p[..|p| - |marker| - 1] == d;
  }

  // `Dir.glob("*/<marker>")`.
  function Glob(fs: Listing, marker: string): seq<string> {
    Filter(fs, p => MatchesMarker(p, marker))
  }

  /** `services_with_file(marker)`: the first component of every path the
      glob matches, one entry per match and in the glob's order. Each entry
      is a top-level directory name that holds the marker. */
  function ServicesWithFile(fs: Listing, marker: string): (services: seq<string>)
    ensures |services| == |Glob(fs, marker)|
    ensures forall i | 0 <= i < |services| ::
      IsTopLevelName(services[i]) && services[i] + "/" + marker == Glob(fs, marker)[i]
  {
    var m := Glob(fs, marker);
    seq(|m|, i requires 0 <= i < |m| => assert m[i] in m; ServiceOf(m[i], marker))
  }

  /** `dir_path.split("/").first` for one path the glob matched. */
  function ServiceOf(path: string, marker: string): (d: string)
    requires MatchesMarker(path, marker)
    ensures IsTopLevelName(d) && d + "/" + marker == path
  {
    var d := path[..|path| - |marker| - 1];
    assert path == d + "/" + marker;
    FirstComponentOfJoin(d, marker);
    FirstComponent(path)
  }

  /** `gemfiled_services`. */
  function GemfiledServices(fs: Listing): seq<string> {
    ServicesWithFile(fs, "Gemfile")
  }

  /** `testable_services`. */
  function TestableServices(fs: Listing): seq<string> {
    ServicesWithFile(fs, "bin/test")
  }

  /** Discovery finds exactly the top-level directories that hold the
      marker. */
  lemma ServicesWithFileExactly(fs: Listing, marker: string, d: string)
    ensures d in ServicesWithFile(fs, marker) <==> IsTopLevelName(d) && d + "/" + marker in fs
  {
    var services, m := ServicesWithFile(fs, marker), Glob(fs, marker);
    if d in services {
      var i :| 0 <= i < |services| && services[i] == d;
      assert m[i] in m;
    }
    if IsTopLevelName(d) && d + "/" + marker in fs {
      var p := d + "/" + marker;
      MatchesJoin(d, marker);
      assert p in m;
      var i :| 0 <= i < |m| && m[i] == p;
      assert services[i] + "/" + marker == d + "/" + marker;
      assert services[i] == (services[i] + "/" + marker)[..|services[i]|];
      assert d == (d + "/" + marker)[..|d|];
    }
  }

  /** A listing names each path once, so no service is discovered twice. */
  lemma ServicesWithFileDistinct(fs: Listing, marker: string)
    requires Distinct(fs)
    ensures Distinct(ServicesWithFile(fs, marker))
  {
    var services, m := ServicesWithFile(fs, marker), Glob(fs, marker);
    forall i, j | 0 <= i < j < |services| ensures services[i] != services[j] {
      assert m[i] != m[j];
    }
  }

  /** `Pathname(p).exist?` for a normalised service name: ".", ".." and the
      root "/" always exist; any other name exists when it is listed. */
  predicate Exists(fs: Listing, p: string) {
    p == "." || p == ".." || p == "/" || p in fs
  }

  /** `get_existing_services(names)`: the names that already exist, in
      argument order. */
  function ExistingServices(fs: Listing, names: seq<string>): (existing: seq<string>)
    ensures forall n :: n in existing <==> n in names && Exists(fs, n)
    ensures existing == [] <==> forall i | 0 <= i < |names| :: !Exists(fs, names[i])
  {
    var existing := Filter(names, n => Exists(fs, n));
    assert existing != [] ==> existing[0] in existing;
    existing
  }
}
