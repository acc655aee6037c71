/** `download-configuration` (`DownloadConfigurationCommand`): the workspace packages are
    downloaded from the application, then every package they reference is downloaded into
    the application packages folder. A package's references are read from its project
    file: the `Reference` children of every `ItemGroup` labelled "Package References",
    kept when both their `Include` attribute and their `HintPath` element are non-empty.
    Loading a project file and the two downloaders are library oracles. */
module DownloadConfiguration {
  import opened Common
  import opened Xml
  import opened Paths

  const GroupName := "ItemGroup"
  const LabelAttr := "Label"
  const PackageReferences := "Package References"
  const ReferenceName := "Reference"
  const IncludeAttr := "Include"
  const HintPathName := "HintPath"
  const DoneLine := "Done"

  /** An element `Descendants("ItemGroup")` yields that carries the label exactly. Names
      without a namespace match only elements in no namespace. */
  predicate IsPackageGroup(e: Element) {
    e.ns == "" && e.name == GroupName && LabelAttr in e.attrs && e.attrs[LabelAttr] == PackageReferences
  }

  predicate IsReference(e: Element) {
    e.ns == "" && e.name == ReferenceName
  }

  /** `Value` of an element is non-empty: some text in the element or below it. */
  predicate HasValue(e: Element)
    decreases e, 1
  {
    e.text != "" || HasValueIn(e.children)
  }

  predicate HasValueIn(cs: seq<Element>)
    decreases cs, 0
  {
    cs != [] && (HasValue(cs[0]) || HasValueIn(cs[1..]))
  }

  /** `reference.Element("HintPath")`: the first child of that name. */
  function HintPath(cs: seq<Element>): (h: Option<Element>)
    ensures h.Some? ==> h.value in cs && h.value.ns == "" && h.value.name == HintPathName
  {
    if cs == [] then None
    else if cs[0].ns == "" && cs[0].name == HintPathName then Some(cs[0])
    else HintPath(cs[1..])
  }

  /** A reference that is kept: a non-empty `Include` and a `HintPath` with a value. */
  predicate Kept(r: Element) {
    && IsReference(r) && IncludeAttr in r.attrs && r.attrs[IncludeAttr] != ""
    && var h := HintPath(r.children); h.Some? && HasValue(h.value)
  }

  /** The names a group's children contribute, in order. */
  function NamesOf(cs: seq<Element>): seq<string> {
    if cs == [] then []
    else (if Kept(cs[0]) then [cs[0].attrs[IncludeAttr]] else []) + NamesOf(cs[1..])
  }

  /** A name comes from a group's children exactly when one of them is a kept reference
      including it. */
  lemma {:induction false} NamesOfExact(cs: seq<Element>, n: string)
    ensures n in NamesOf(cs) <==> exists r :: r in cs && Kept(r) && r.attrs[IncludeAttr] == n
  {
    if cs != [] {
      var rest := cs[1..];
      NamesOfExact(rest, n);
      var head: seq<string> := if Kept(cs[0]) then [cs[0].attrs[IncludeAttr]] else [];
      assert NamesOf(cs) == head + NamesOf(rest);
      assert forall r :: r in cs <==> r == cs[0] || r in rest by {
        assert cs == [cs[0]] + rest;
      }
    }
  }

  /** The collected names of a project file, in document order: for every labelled group
      met in a pre-order walk, the names its children contribute. */
  function PackageRefs(e: Element): seq<string>
    decreases e, 1
  {
    (if IsPackageGroup(e) then NamesOf(e.children) else []) + PackageRefsIn(e.children)
  }

  function PackageRefsIn(cs: seq<Element>): seq<string>
    decreases cs, 0
  {
    if cs == [] then [] else PackageRefs(cs[0]) + PackageRefsIn(cs[1..])
  }

  /** A labelled group somewhere in the document (at the path's end) has a kept reference
      child including the name. */
  ghost predicate IncludedAt(e: Element, p: Path, n: string) {
    && ValidPath(e, p) && IsPackageGroup(At(e, p))
    && exists r :: r in At(e, p).children && Kept(r) && r.attrs[IncludeAttr] == n
  }

  /** Every collected name is the non-empty `Include` of a kept reference of a labelled
      group of the document. */
  lemma {:induction false} PackageRefsSound(e: Element, n: string)
    requires n in PackageRefs(e)
    ensures n != "" && exists p :: IncludedAt(e, p, n)
    decreases e, 1
  {
    var own: seq<string> := if IsPackageGroup(e) then NamesOf(e.children) else [];
    assert PackageRefs(e) == own + PackageRefsIn(e.children);
    if n in own {
      NamesOfExact(e.children, n);
      assert IncludedAt(e, [], n);
    } else {
      PackageRefsInSound(e.children, n);
      var j, p :| 0 <= j < |e.children| && IncludedAt(e.children[j], p, n);
      assert [j] + p != [] && ([j] + p)[0] == j && ([j] + p)[1..] == p;
      assert IncludedAt(e, [j] + p, n);
    }
  }

  lemma {:induction false} PackageRefsInSound(cs: seq<Element>, n: string)
    requires n in PackageRefsIn(cs)
    ensures n != "" && exists j, p :: 0 <= j < |cs| && IncludedAt(cs[j], p, n)
    decreases cs, 0
  {
    assert PackageRefsIn(cs) == PackageRefs(cs[0]) + PackageRefsIn(cs[1..]);
    if n in PackageRefs(cs[0]) {
      PackageRefsSound(cs[0], n);
      var p :| IncludedAt(cs[0], p, n);
      assert IncludedAt(cs[0], p, n);
    } else {
      PackageRefsInSound(cs[1..], n);
      var j, p :| 0 <= j < |cs[1..]| && IncludedAt(cs[1..][j], p, n);
      assert cs[j + 1] == cs[1..][j];
      assert IncludedAt(cs[j + 1], p, n);
    }
  }

  /** Every kept reference of every labelled group in the document is collected. */
  lemma {:induction false} PackageRefsComplete(e: Element, p: Path, n: string)
    requires IncludedAt(e, p, n)
    ensures n in PackageRefs(e)
    decreases p
  {
    var own: seq<string> := if IsPackageGroup(e) then NamesOf(e.children) else [];
    assert PackageRefs(e) == own + PackageRefsIn(e.children);
    if p == [] {
      NamesOfExact(e.children, n);
    } else {
      assert IncludedAt(e.children[p[0]], p[1..], n);
      PackageRefsComplete(e.children[p[0]], p[1..], n);
      PackageRefsInHas(e.children, p[0], n);
    }
  }

  /** The names of any one child are among those of the whole list. */
  lemma {:induction false} PackageRefsInHas(cs: seq<Element>, j: nat, n: string)
    requires j < |cs| && n in PackageRefs(cs[j])
    ensures n in PackageRefsIn(cs)
    decreases j
  {
    assert PackageRefsIn(cs) == PackageRefs(cs[0]) + PackageRefsIn(cs[1..]);
    if j > 0 {
      assert cs[1..][j - 1] == cs[j];
      PackageRefsInHas(cs[1..], j - 1, n);
    }
  }

  /** `Distinct()`: the first occurrence of every element, in order. */
  function Distinct(xs: seq<string>): (r: seq<string>)
    ensures forall i :: 0 <= i < |r| ==> r[i] in xs
  {
    if xs == [] then []
    else
      var d := Distinct(xs[..|xs| - 1]);
      if xs[|xs| - 1] in d then d else d + [xs[|xs| - 1]]
  }

  predicate NoDuplicates(xs: seq<string>) {
    forall i, j :: 0 <= i < j < |xs| ==> xs[i] != xs[j]
  }

  /** The distinct list has no duplicates and the same elements as the list. */
  lemma {:induction false} DistinctFacts(xs: seq<string>)
    ensures NoDuplicates(Distinct(xs))
    ensures forall x :: x in Distinct(xs) <==> x in xs
  {
    if xs != [] {
      var init := xs[..|xs| - 1];
      DistinctFacts(init);
      assert xs == init + [xs[|xs| - 1]];
    }
  }

  /** The index of the first occurrence of `x` in `xs`. */
  function FirstIndex(xs: seq<string>, x: string): (r: nat)
    requires x in xs
    ensures r < |xs| && xs[r] == x && forall k :: 0 <= k < r ==> xs[k] != x
  {
    var init := xs[..|xs| - 1];
    if x in init then FirstIndex(init, x) else |xs| - 1
  }

  /** The distinct list keeps the elements in the order of their first occurrences. */
  lemma {:induction false} DistinctOrder(xs: seq<string>)
    ensures forall i, j :: 0 <= i < j < |Distinct(xs)| ==> FirstIndex(xs, Distinct(xs)[i]) < FirstIndex(xs, Distinct(xs)[j])
  {
    DistinctFacts(xs);
    if xs != [] {
      var init := xs[..|xs| - 1];
      var d, di := Distinct(xs), Distinct(init);
      DistinctOrder(init);
      DistinctFacts(init);
      assert xs == init + [xs[|xs| - 1]];
      forall i, j | 0 <= i < j < |d| ensures FirstIndex(xs, d[i]) < FirstIndex(xs, d[j]) {
        assert d[i] == di[i] && di[i] in init;
        assert FirstIndex(xs, d[i]) == FirstIndex(init, di[i]);
        if j < |di| {
          assert d[j] == di[j] && di[j] in init;
          assert FirstIndex(xs, d[j]) == FirstIndex(init, di[j]);
          assert FirstIndex(init, di[i]) < FirstIndex(init, di[j]);
        } else {
          assert d[j] == xs[|xs| - 1] && d[j] !in init;
          assert FirstIndex(xs, d[j]) == |xs| - 1;
          assert FirstIndex(init, di[i]) < |init|;
        }
      }
    }
  }

  /** `Path.Combine(PackagesFolderPath, package, $"Files/{package}.csproj")`. */
  function ProjectFile(packagesFolder: string, package: string): string {
    Combine(Combine(packagesFolder, package), "Files/" + package + ".csproj")
  }

  /** The root of each package's project file as `XDocument.Load` gives it. */
  function ProjectLoader(load: string -> Attempt<Element>, packagesFolder: string): string -> Attempt<Element> {
    package => load(ProjectFile(packagesFolder, package))
  }

  /** The references read from one package's project file, none when it cannot be read. */
  function RefsOf(loadProject: string -> Attempt<Element>, package: string): seq<string> {
    match loadProject(package)
    case Threw(_) => []
    case Value(root) => PackageRefs(root)
  }

  /** The `SelectMany` over the packages: their references in order, or the exception of
      the first project file that cannot be loaded. */
  function Collect(loadProject: string -> Attempt<Element>, packages: seq<string>): Attempt<seq<string>> {
    if packages == [] then Value([])
    else match loadProject(packages[0])
      case Threw(m) => Threw(m)
      case Value(root) =>
        match Collect(loadProject, packages[1..])
        case Threw(m) => Threw(m)
        case Value(rest) => Value(PackageRefs(root) + rest)
  }

  /** The list `DownloadDependentPackages` passes on: the collected names, without
      duplicates. */
  function DependentPackages(load: string -> Attempt<Element>, packagesFolder: string, packages: seq<string>): Attempt<seq<string>> {
    match Collect(ProjectLoader(load, packagesFolder), packages)
    case Threw(m) => Threw(m)
    case Value(names) => Value(Distinct(names))
  }

  /** A collection that succeeds holds exactly the references read from the packages'
      project files. */
  lemma {:induction false} CollectHas(loadProject: string -> Attempt<Element>, packages: seq<string>, n: string)
    requires Collect(loadProject, packages).Value?
    ensures n in Collect(loadProject, packages).value <==>
      exists p :: p in packages && n in RefsOf(loadProject, p)
  {
    if packages != [] {
      var rest := packages[1..];
      CollectHas(loadProject, rest, n);
      var head := RefsOf(loadProject, packages[0]);
      var tail := Collect(loadProject, rest).value;
      assert Collect(loadProject, packages).value == head + tail;
      assert forall p :: p in packages <==> p == packages[0] || p in rest by {
        assert packages == [packages[0]] + rest;
      }
    }
  }

  /** A collection fails exactly when some package's project file cannot be loaded, and
      then with the exception of the first such file. */
  lemma {:induction false} CollectFails(loadProject: string -> Attempt<Element>, packages: seq<string>)
    ensures Collect(loadProject, packages).Threw? <==> exists p :: p in packages && loadProject(p).Threw?
    ensures Collect(loadProject, packages).Threw? ==>
      exists k :: 0 <= k < |packages| && loadProject(packages[k]) == Threw(Collect(loadProject, packages).message)
        && forall j :: 0 <= j < k ==> loadProject(packages[j]).Value?
  {
    if packages != [] {
      var rest := packages[1..];
      CollectFails(loadProject, rest);
      assert forall p :: p in packages <==> p == packages[0] || p in rest by {
        assert packages == [packages[0]] + rest;
      }
      if loadProject(packages[0]).Value? && Collect(loadProject, rest).Threw? {
        var k :| 0 <= k < |rest| && loadProject(rest[k]) == Threw(Collect(loadProject, rest).message)
          && forall j :: 0 <= j < k ==> loadProject(rest[j]).Value?;
        assert loadProject(packages[k + 1]) == Threw(Collect(loadProject, packages).message);
        assert forall j :: 0 <= j < k + 1 ==> loadProject(packages[j]).Value? by {
          forall j | 0 < j < k + 1 ensures loadProject(packages[j]).Value? {
            assert packages[j] == rest[j - 1];
          }
        }
      }
    }
  }

  /** What is passed on is a list without duplicates naming exactly the references read
      from the workspace packages' project files. */
  lemma DependentPackagesExact(load: string -> Attempt<Element>, packagesFolder: string, packages: seq<string>, n: string)
    requires DependentPackages(load, packagesFolder, packages).Value?
    ensures var d := DependentPackages(load, packagesFolder, packages).value;
      && NoDuplicates(d)
      && (n in d <==> exists p :: p in packages && n in RefsOf(ProjectLoader(load, packagesFolder), p))
  {
    DistinctFacts(Collect(ProjectLoader(load, packagesFolder), packages).value);
    CollectHas(ProjectLoader(load, packagesFolder), packages, n);
  }

  /** A request made to one of the two downloaders. */
  datatype Request = Application(packages: seq<string>) | Packages(names: seq<string>, destination: string)

  /** `IApplicationDownloader` and `IPackageDownloader`: every request is recorded, and
      `outcome` says whether it throws, with which message. */
  class Downloaders {
    var requests: seq<Request>
    const outcome: Request -> Option<string>

    constructor (outcome: Request -> Option<string>)
      ensures requests == [] && this.outcome == outcome
    {
      requests := [];
      this.outcome := outcome;
    }

    method Perform(r: Request) returns (thrown: Option<string>)
      modifies this`requests
      ensures requests == old(requests) + [r] && thrown == outcome(r)
    {
      requests := requests + [r];
      thrown := outcome(r);
    }
  }

  class DownloadConfigurationCommand {
    const workspacePackages: seq<string>
    const packagesFolder: string
    const applicationPackagesFolder: string
    const load: string -> Attempt<Element>
    const downloaders: Downloaders
    const console: Console

    constructor (workspacePackages: seq<string>, packagesFolder: string, applicationPackagesFolder: string,
                 load: string -> Attempt<Element>, downloaders: Downloaders, console: Console)
      ensures this.workspacePackages == workspacePackages && this.packagesFolder == packagesFolder
      ensures this.applicationPackagesFolder == applicationPackagesFolder && this.load == load
      ensures this.downloaders == downloaders && this.console == console
    {
      this.workspacePackages := workspacePackages;
      this.packagesFolder := packagesFolder;
      this.applicationPackagesFolder := applicationPackagesFolder;
      this.load := load;
      this.downloaders := downloaders;
      this.console := console;
    }

    /** `DownloadDependentPackages`: the project files are all read before the one package
        request is made, so a file that cannot be read means no request. */
    method DownloadDependentPackages() returns (thrown: Option<string>)
      modifies downloaders`requests
      ensures DependentPackages(load, packagesFolder, workspacePackages).Threw? ==>
        thrown == Some(DependentPackages(load, packagesFolder, workspacePackages).message)
        && downloaders.requests == old(downloaders.requests)
      ensures DependentPackages(load, packagesFolder, workspacePackages).Value? ==>
        var r := Packages(DependentPackages(load, packagesFolder, workspacePackages).value, applicationPackagesFolder);
        downloaders.requests == old(downloaders.requests) + [r] && thrown == downloaders.outcome(r)
    {
      var dependents := DependentPackages(load, packagesFolder, workspacePackages);
      if dependents.Threw? {
        return Some(dependents.message);
      }
      thrown := downloaders.Perform(Packages(dependents.value, applicationPackagesFolder));
    }

    /** `Execute`: the application download comes first and the dependent packages second;
        0 and "Done" when neither throws, otherwise 1 and the exception's message, with no
        request after the one that threw. */
    method Execute() returns (code: int)
      modifies downloaders`requests, console
      ensures var app := Application(workspacePackages);
        var deps := DependentPackages(load, packagesFolder, workspacePackages);
        && (downloaders.outcome(app).Some? ==>
              && code == 1 && downloaders.requests == old(downloaders.requests) + [app]
              && console.lines == old(console.lines) + [downloaders.outcome(app).value])
        && (downloaders.outcome(app).None? && deps.Threw? ==>
              && code == 1 && downloaders.requests == old(downloaders.requests) + [app]
              && console.lines == old(console.lines) + [deps.message])
        && (downloaders.outcome(app).None? && deps.Value? ==>
              var r := Packages(deps.value, applicationPackagesFolder);
              && downloaders.requests == old(downloaders.requests) + [app, r]
              && (downloaders.outcome(r).None? ==> code == 0 && console.lines == old(console.lines) + [DoneLine])
              && (downloaders.outcome(r).Some? ==>
                    code == 1 && console.lines == old(console.lines) + [downloaders.outcome(r).value]))
    {
      var thrown := downloaders.Perform(Application(workspacePackages));
      if thrown.None? {
        thrown := DownloadDependentPackages();
      }
      if thrown.Some? {
        console.WriteLine(thrown.value);
        return 1;
      }
      console.WriteLine(DoneLine);
      return 0;
    }
  }
}
