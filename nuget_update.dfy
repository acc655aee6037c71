/** The `check-nuget-update` command (`CheckNugetUpdateCommand`): for every application
    package with a newer version on NuGet one line names the installed version, the last
    one, and the last stable one when that differs from the last. A `PackageVersion` is
    carried as the text its `ToString()` prints. */
module NugetUpdate {
  import opened Common
  import opened Text

  const Header := "Packages for update:"
  const DoneLine := "Done"
  const Indent := "   "
  const Arrow := " --> "
  const StablePrefix := "; Stable: "

  /** `PackageForUpdate`, reduced to what the message reads: the application package's
      name and version, the last version on NuGet, the last stable one (null when there is
      none), and whether the last version is itself stable. */
  datatype PackageForUpdate = PackageForUpdate(
    name: string, applicationVersion: string, lastVersion: string,
    stableVersion: Option<string>, lastIsStable: bool)

  /** `GetNameAndVersion`. */
  function NameAndVersion(name: string, version: string): (r: string)
    ensures StartsWith(r, name + " (") && EndsWithChar(r, ')')
    ensures |r| == |name| + |version| + 3
  {
    name + " (" + version + ")"
  }

  /** With the name fixed, the printed text determines the version. */
  lemma NameAndVersionInjective(name: string, v: string, w: string)
    requires NameAndVersion(name, v) == NameAndVersion(name, w)
    ensures v == w
  {
    var k := |name| + 2;
    assert v == NameAndVersion(name, v)[k..k + |v|];
    assert w == NameAndVersion(name, w)[k..k + |w|];
  }

  /** The update line without its stable part. */
  function BaseMessage(p: PackageForUpdate): string {
    Indent + NameAndVersion(p.name, p.applicationVersion) + Arrow + NameAndVersion(p.name, p.lastVersion)
  }

  /** Whether the line names the stable version: only when there is one and the last
      version is not it. */
  predicate ShowsStable(p: PackageForUpdate) {
    !(p.lastIsStable || p.stableVersion.None?)
  }

  /** `GetPackageUpdateMessage`. */
  function UpdateMessage(p: PackageForUpdate): string {
    if ShowsStable(p) then BaseMessage(p) + StablePrefix + NameAndVersion(p.name, p.stableVersion.value)
    else BaseMessage(p)
  }

  /** Every line starts with the indented installed and last versions; it goes on exactly
      when the stable version is shown, and then with that version alone. */
  lemma UpdateMessageParts(p: PackageForUpdate)
    ensures StartsWith(UpdateMessage(p), BaseMessage(p))
    ensures StartsWith(BaseMessage(p), Indent + p.name + " (" + p.applicationVersion + ")" + Arrow)
    ensures |UpdateMessage(p)| > |BaseMessage(p)| <==> ShowsStable(p)
    ensures ShowsStable(p) ==>
      UpdateMessage(p)[|BaseMessage(p)|..] == StablePrefix + p.name + " (" + p.stableVersion.value + ")"
  {
    var b := BaseMessage(p);
    if ShowsStable(p) {
      var m := UpdateMessage(p);
      assert m == b + (StablePrefix + NameAndVersion(p.name, p.stableVersion.value));
      assert m[..|b|] == b;
    }
    var head := Indent + p.name + " (" + p.applicationVersion + ")" + Arrow;
    assert b == head + NameAndVersion(p.name, p.lastVersion);
  }

  /** The lines `PrintPackagesForUpdate` writes for the packages, in their order. */
  function Messages(packages: seq<PackageForUpdate>): (r: seq<string>)
    ensures |r| == |packages|
  {
    if packages == [] then [] else [UpdateMessage(packages[0])] + Messages(packages[1..])
  }

  /** The whole report: the header, then one line per package. */
  function Report(packages: seq<PackageForUpdate>): seq<string> {
    [Header] + Messages(packages)
  }

  /** `PrintPackagesForUpdate`: the header, then the foreach over the packages writing one
      line each. */
  method PrintPackagesForUpdate(console: Console, packages: seq<PackageForUpdate>)
    modifies console
    ensures console.lines == old(console.lines) + Report(packages)
  {
    console.WriteLine(Header);
    for i := 0 to |packages|
      invariant console.lines == old(console.lines) + [Header] + Messages(packages[..i])
    {
      assert packages[..i + 1] == packages[..i] + [packages[i]];
      MessagesAppend(packages[..i], packages[i]);
      console.WriteLine(UpdateMessage(packages[i]));
    }
    assert packages[..|packages|] == packages;
  }

  lemma {:induction false} MessagesAppend(packages: seq<PackageForUpdate>, p: PackageForUpdate)
    ensures Messages(packages + [p]) == Messages(packages) + [UpdateMessage(p)]
  {
    if packages != [] {
      MessagesAppend(packages[1..], p);
      assert (packages + [p])[1..] == packages[1..] + [p];
    }
  }

  class CheckNugetUpdateCommand {
    /** `INuGetManager.GetPackagesForUpdate`: the packages for update found at a source,
        or the exception it raises. */
    const packagesForUpdate: string -> Attempt<seq<PackageForUpdate>>
    const console: Console

    constructor (packagesForUpdate: string -> Attempt<seq<PackageForUpdate>>, console: Console)
      ensures this.packagesForUpdate == packagesForUpdate && this.console == console
    {
      this.packagesForUpdate := packagesForUpdate;
      this.console := console;
    }

    /** `Execute`: the report and "Done" with 0, or only the exception's message with 1. */
    method Execute(sourceUrl: string) returns (code: int)
      modifies console
      ensures packagesForUpdate(sourceUrl).Value? ==>
        code == 0 && console.lines == old(console.lines) + Report(packagesForUpdate(sourceUrl).value) + [DoneLine]
      ensures packagesForUpdate(sourceUrl).Threw? ==>
        code == 1 && console.lines == old(console.lines) + [packagesForUpdate(sourceUrl).message]
    {
      var found := packagesForUpdate(sourceUrl);
      if found.Threw? {
        console.WriteLine(found.message);
        return 1;
      }
      PrintPackagesForUpdate(console, found.value);
      console.WriteLine(DoneLine);
      return 0;
    }
  }

  /** A successful run writes one line more than the header and "Done" per package, and
      the line of package i is that package's update message. */
  lemma ReportLines(packages: seq<PackageForUpdate>)
    ensures |Report(packages)| == |packages| + 1
    ensures Report(packages)[0] == Header
    ensures forall i :: 0 <= i < |packages| ==> Report(packages)[i + 1] == UpdateMessage(packages[i])
  {
    forall i | 0 <= i < |packages|
      ensures Report(packages)[i + 1] == UpdateMessage(packages[i])
    {
      MessageAt(packages, i);
    }
  }

  lemma {:induction false} MessageAt(packages: seq<PackageForUpdate>, i: nat)
    requires i < |packages|
    ensures Messages(packages)[i] == UpdateMessage(packages[i])
  {
    if i > 0 {
      MessageAt(packages[1..], i - 1);
    }
  }
}
