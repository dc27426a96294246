/** The scaffold generator behind `service`: for each new service, copy the
    template directory, render every `.erb` file found in the copy into the
    same path without the suffix and delete the template file, then append
    the copy's `_docker-compose.yml` to the project's `docker-compose.yml`
    and delete it. The model states the steps the CLI requests; what `cp`,
    `rm` and `cat` then do to the disk is theirs. */
module Scaffold {
  import opened Paths
  import opened Lists
  import opened Executor

  /** A template file as `Dir.glob` lists it and `File.read` returns it,
      once the template has been copied into the service directory. */
  datatype ErbFile = ErbFile(path: ErbPath, text: string)

  /** ERB evaluation of a template text with `service_name` bound. */
  type Renderer = (string, string) -> string

  function CopyCommand(templateDir: string, name: string): string {
    "cp -aR " + templateDir + " " + name
  }

  datatype Option<T> = None | Some(value: T)

  /** What a caller hands to `copy_template_into_dir`: the bare service name
      (a String), or an options hash holding `:service_name`. */
  datatype CopyArgument = BareName(name: string) | Options(serviceName: string)

  /** `copy_template_into_dir`: the name is read with `options.fetch`, which
      only a hash answers; a String raises NoMethodError and no copy is
      issued. */
  function CopyTemplateIntoDir(templateDir: string, arg: CopyArgument): (copy: Option<Step>)
    ensures copy.Some? <==> arg.Options?
    ensures arg.Options? ==> copy == Some(Run(CopyCommand(templateDir, arg.serviceName)))
  {
    match arg
    case BareName(_) => None
    case Options(name) => Some(Run(CopyCommand(templateDir, name)))
  }

  function RemoveFileCommand(path: string): string {
    "rm " + path
  }

  function PartialPath(name: string): string {
    name + "/_docker-compose.yml"
  }

  function AppendCommand(name: string): string {
    "cat " + PartialPath(name) + " >> docker-compose.yml"
  }

  /** `render_and_remove_erb_files`: for each listed template file, in the
      glob's order, the rendered text is written to the path without its
      final ".erb", and then the template file is removed. */
  function RenderOps(name: string, files: seq<ErbFile>, render: Renderer): (ops: seq<Step>)
    ensures |ops| == 2 * |files|
    ensures forall j | 0 <= j < |files| ::
      ops[2 * j] == Write(StripErb(files[j].path), render(files[j].text, name)) &&
      ops[2 * j + 1] == Run(RemoveFileCommand(files[j].path))
  {
    if files == [] then []
    else
      var n := |files| - 1;
      var init := RenderOps(name, files[..n], render);
      var f := files[n];
      var ops := init + [Write(StripErb(f.path), render(f.text, name)), Run(RemoveFileCommand(f.path))];
      assert forall j | 0 <= j < n :: files[..n][j] == files[j] && ops[2 * j] == init[2 * j] && ops[2 * j + 1] == init[2 * j + 1];
      ops
  }

  /** `append_partial_to_docker_compose_yml`. The `cat` runs whether or not
      the template had a partial, so a missing partial fails the command. */
  function AppendOps(name: string): seq<Step> {
    [Run(AppendCommand(name)), Run(RemoveFileCommand(PartialPath(name)))]
  }

  /** The three steps for one service: copy, render, append. */
  function ScaffoldOps(templateDir: string, name: string, files: seq<ErbFile>, render: Renderer): seq<Step> {
    [Run(CopyCommand(templateDir, name))] + RenderOps(name, files, render) + AppendOps(name)
  }

  /** The loop of `service` over the new names, in argument order;
      `listing(i)` is what the `.erb` glob finds for the `i`-th name. */
  function ServiceOps(templateDir: string, names: seq<string>, listing: nat -> seq<ErbFile>,
                      render: Renderer): seq<Step>
  {
    if names == [] then []
    else
      var n := |names| - 1;
      ServiceOps(templateDir, names[..n], listing, render) + ScaffoldOps(templateDir, names[n], listing(n), render)
  }

  predicate IsCopy(step: Step) {
    step.Run? && StartsWith(step.command, "cp -aR ")
  }

  predicate IsAppend(step: Step) {
    step.Run? && StartsWith(step.command, "cat ")
  }

  lemma CopyIsCopy(templateDir: string, name: string)
    ensures IsCopy(Run(CopyCommand(templateDir, name)))
    ensures !IsAppend(Run(CopyCommand(templateDir, name)))
  {
    var c := CopyCommand(templateDir, name);
    assert c[..7] == "cp -aR ";
    assert c[0] == 'c' && c[1] == 'p';
    assert "cat "[1] == 'a';
  }

  lemma AppendIsAppend(name: string)
    ensures IsAppend(Run(AppendCommand(name)))
    ensures !IsCopy(Run(AppendCommand(name)))
  {
    var c := AppendCommand(name);
    assert c[..4] == "cat ";
    assert c[1] == 'a';
    assert "cp -aR "[1] == 'p';
  }

  lemma RemoveIsNeither(path: string)
    ensures !IsCopy(Run(RemoveFileCommand(path)))
    ensures !IsAppend(Run(RemoveFileCommand(path)))
  {
    var c := RemoveFileCommand(path);
    assert c[0] == 'r';
    assert "cp -aR "[0] == 'c' && "cat "[0] == 'c';
  }

  /** Rendering never copies a template or appends a partial. */
  lemma {:induction false} RenderOpsHaveNoCopyOrAppend(name: string, files: seq<ErbFile>, render: Renderer)
    ensures Filter(RenderOps(name, files, render), IsCopy) == []
    ensures Filter(RenderOps(name, files, render), IsAppend) == []
  {
    if files != [] {
      var n := |files| - 1;
      var f := files[n];
      var init := RenderOps(name, files[..n], render);
      var write, remove := Write(StripErb(f.path), render(f.text, name)), Run(RemoveFileCommand(f.path));
      assert RenderOps(name, files, render) == init + [write] + [remove];
      RenderOpsHaveNoCopyOrAppend(name, files[..n], render);
      RemoveIsNeither(f.path);
      FilterSnoc(init, write, IsCopy);
      FilterSnoc(init + [write], remove, IsCopy);
      FilterSnoc(init, write, IsAppend);
      FilterSnoc(init + [write], remove, IsAppend);
    }
  }

  /** One scaffold copies the template once, before anything else. */
  lemma ScaffoldCopiesOnce(templateDir: string, name: string, files: seq<ErbFile>, render: Renderer)
    ensures Filter(ScaffoldOps(templateDir, name, files, render), IsCopy) == [Run(CopyCommand(templateDir, name))]
  {
    var copy, rendered := Run(CopyCommand(templateDir, name)), RenderOps(name, files, render);
    var cat, rm := Run(AppendCommand(name)), Run(RemoveFileCommand(PartialPath(name)));
    assert ScaffoldOps(templateDir, name, files, render) == [copy] + rendered + [cat] + [rm];
    RenderOpsHaveNoCopyOrAppend(name, files, render);
    CopyIsCopy(templateDir, name);
    AppendIsAppend(name);
    RemoveIsNeither(PartialPath(name));
    FilterSnoc([], copy, IsCopy);
    assert [] + [copy] == [copy];
    FilterAppend([copy], rendered, IsCopy);
    FilterSnoc([copy] + rendered, cat, IsCopy);
    FilterSnoc([copy] + rendered + [cat], rm, IsCopy);
  }

  /** One scaffold appends the partial once, after rendering. */
  lemma ScaffoldAppendsOnce(templateDir: string, name: string, files: seq<ErbFile>, render: Renderer)
    ensures Filter(ScaffoldOps(templateDir, name, files, render), IsAppend) == [Run(AppendCommand(name))]
  {
    var copy, rendered := Run(CopyCommand(templateDir, name)), RenderOps(name, files, render);
    var cat, rm := Run(AppendCommand(name)), Run(RemoveFileCommand(PartialPath(name)));
    assert ScaffoldOps(templateDir, name, files, render) == [copy] + rendered + [cat] + [rm];
    RenderOpsHaveNoCopyOrAppend(name, files, render);
    CopyIsCopy(templateDir, name);
    AppendIsAppend(name);
    RemoveIsNeither(PartialPath(name));
    FilterSnoc([], copy, IsAppend);
    assert [] + [copy] == [copy];
    FilterAppend([copy], rendered, IsAppend);
    FilterSnoc([copy] + rendered, cat, IsAppend);
    FilterSnoc([copy] + rendered + [cat], rm, IsAppend);
  }

  /** Every new service is copied exactly once, in argument order. */
  lemma {:induction false} ServiceOpsCopyInArgumentOrder(templateDir: string, names: seq<string>,
                                                         listing: nat -> seq<ErbFile>, render: Renderer)
    ensures var copies := Filter(ServiceOps(templateDir, names, listing, render), IsCopy);
      |copies| == |names| &&
      forall i | 0 <= i < |names| :: copies[i] == Run(CopyCommand(templateDir, names[i]))
  {
    if names != [] {
      var n := |names| - 1;
      var before := ServiceOps(templateDir, names[..n], listing, render);
      var last := ScaffoldOps(templateDir, names[n], listing(n), render);
      assert ServiceOps(templateDir, names, listing, render) == before + last;
      ServiceOpsCopyInArgumentOrder(templateDir, names[..n], listing, render);
      FilterAppend(before, last, IsCopy);
      ScaffoldCopiesOnce(templateDir, names[n], listing(n), render);
      assert forall i | 0 <= i < n :: names[..n][i] == names[i];
    }
  }

  /** Every new service has its partial appended exactly once, in argument
      order. */
  lemma {:induction false} ServiceOpsAppendInArgumentOrder(templateDir: string, names: seq<string>,
                                                           listing: nat -> seq<ErbFile>, render: Renderer)
    ensures var appends := Filter(ServiceOps(templateDir, names, listing, render), IsAppend);
      |appends| == |names| &&
      forall i | 0 <= i < |names| :: appends[i] == Run(AppendCommand(names[i]))
  {
    if names != [] {
      var n := |names| - 1;
      var before := ServiceOps(templateDir, names[..n], listing, render);
      var last := ScaffoldOps(templateDir, names[n], listing(n), render);
      assert ServiceOps(templateDir, names, listing, render) == before + last;
      ServiceOpsAppendInArgumentOrder(templateDir, names[..n], listing, render);
      FilterAppend(before, last, IsAppend);
      ScaffoldAppendsOnce(templateDir, names[n], listing(n), render);
      assert forall i | 0 <= i < n :: names[..n][i] == names[i];
    }
  }

  /** The steps for the first `i` names come first. */
  lemma {:induction false} ServiceOpsPrefix(templateDir: string, names: seq<string>, i: nat,
                                            listing: nat -> seq<ErbFile>, render: Renderer)
    requires i <= |names|
    ensures ServiceOps(templateDir, names[..i], listing, render) <= ServiceOps(templateDir, names, listing, render)
  {
    if i < |names| {
      var n := |names| - 1;
      assert names[..n][..i] == names[..i];
      ServiceOpsPrefix(templateDir, names[..n], i, listing, render);
    } else {
      assert names[..i] == names;
    }
  }

  /** The steps for the first `j` files come first. */
  lemma RenderOpsPrefix(name: string, files: seq<ErbFile>, j: nat, render: Renderer)
    requires j <= |files|
    ensures RenderOps(name, files, render)[..2 * j] == RenderOps(name, files[..j], render)
  {
    var all, some := RenderOps(name, files, render), RenderOps(name, files[..j], render);
    forall k | 0 <= k < 2 * j ensures all[k] == some[k] {
      var m := k / 2;
      assert files[..j][m] == files[m];
      if k % 2 == 0 {
        assert k == 2 * m;
      } else {
        assert k == 2 * m + 1;
      }
    }
  }

  lemma ServiceOpsSnoc(templateDir: string, names: seq<string>, i: nat,
                       listing: nat -> seq<ErbFile>, render: Renderer)
    requires i < |names|
    ensures ServiceOps(templateDir, names[..i + 1], listing, render) ==
      ServiceOps(templateDir, names[..i], listing, render) + ScaffoldOps(templateDir, names[i], listing(i), render)
  {
    assert names[..i + 1][..i] == names[..i];
  }

  lemma RenderOpsSnoc(start: seq<Step>, name: string, files: seq<ErbFile>, j: nat, render: Renderer)
    requires j < |files|
    ensures start + RenderOps(name, files[..j + 1], render) ==
      start + RenderOps(name, files[..j], render) +
      [Write(StripErb(files[j].path), render(files[j].text, name))] + [Run(RemoveFileCommand(files[j].path))]
  {
    assert files[..j + 1][..j] == files[..j];
  }

  /** A run that stopped while rendering the first `j` files stops there. */
  lemma RenderStoppedWithin(start: seq<Step>, name: string, files: seq<ErbFile>, j: nat,
                            render: Renderer, ok: Outcomes)
    requires j <= |files|
    requires Perform(start + RenderOps(name, files[..j], render), 0, ok).status != Running
    ensures Perform(start + RenderOps(name, files, render), 0, ok) ==
      Perform(start + RenderOps(name, files[..j], render), 0, ok)
  {
    RenderOpsPrefix(name, files, j, render);
    PerformStoppedWithinAfter(start, RenderOps(name, files, render), 2 * j, 0, ok);
  }

  /** A run that stopped while scaffolding the first `i` names stops there. */
  lemma ServiceStoppedWithin(templateDir: string, names: seq<string>, i: nat,
                             listing: nat -> seq<ErbFile>, render: Renderer, ok: Outcomes)
    requires i <= |names|
    requires Perform(ServiceOps(templateDir, names[..i], listing, render), 0, ok).status != Running
    ensures Perform(ServiceOps(templateDir, names, listing, render), 0, ok) ==
      Perform(ServiceOps(templateDir, names[..i], listing, render), 0, ok)
  {
    ServiceOpsPrefix(templateDir, names, i, listing, render);
    var all := ServiceOps(templateDir, names, listing, render);
    var done := ServiceOps(templateDir, names[..i], listing, render);
    assert all[..|done|] == done;
    PerformStoppedWithin(all, |done|, 0, ok);
  }
}
