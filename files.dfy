/** The file system the agent works on (`IFileSystem`, `File`, `ZipFile`): a map from
    file path to content and a set of directory paths. Each operation is a pure
    transition on an `FsState` value, and the class `FileSystem` performs it in place.
    An operation that the library would abort with an exception returns `Threw` and
    changes nothing. Parent directories are not tracked: a file may be created under a
    directory that was never created. */
module Files {
  import opened Common
  import opened Text
  import opened Paths

  datatype FsState = FsState(files: map<string, string>, dirs: set<string>)

  function FileNotFoundText(p: string): string {
    "Could not find file '" + p + "'."
  }

  function FileExistsText(p: string): string {
    "The file '" + p + "' already exists."
  }

  function AccessDeniedText(p: string): string {
    "Access to the path '" + p + "' is denied."
  }

  function NameTakenText(p: string): string {
    "Cannot create '" + p + "' because a file or directory with the same name already exists."
  }

  function DirectoryNotFoundText(p: string): string {
    "Could not find a part of the path '" + p + "'."
  }

  const InvalidArchiveText: string := "End of Central Directory record could not be found."

  /** The state after a transition: the new one, or the old one when it threw. */
  function After(s: FsState, a: Attempt<FsState>): FsState {
    if a.Value? then a.value else s
  }

  /** Whether a transition completed, and its exception message when it did not. */
  function Outcome(a: Attempt<FsState>): Attempt<Unit> {
    if a.Value? then Value(Unit) else Threw(a.message)
  }

  /** `Directory.CreateDirectory`: refused where a file has that name. */
  function MkDir(s: FsState, p: string): Attempt<FsState> {
    if p in s.files then Threw(NameTakenText(p)) else Value(s.(dirs := s.dirs + {p}))
  }

  /** `if (!Directory.Exists(p)) Directory.CreateDirectory(p)`. */
  function EnsureDir(s: FsState, p: string): (r: Attempt<FsState>)
    ensures r.Value? <==> p in s.dirs || p !in s.files
    ensures r.Value? ==> r.value.files == s.files && r.value.dirs == s.dirs + {p}
  {
    if p in s.dirs then Value(s) else MkDir(s, p)
  }

  /** `File.Delete` / `IFileInfo.Delete`: a missing file is not an error. */
  function Unlink(s: FsState, p: string): FsState {
    s.(files := s.files - {p})
  }

  /** `Directory.Delete(p, recursive: true)`: the directory and everything under it. */
  function RemoveTree(s: FsState, p: string): (r: FsState)
    ensures p !in r.dirs
    ensures forall f :: f in r.files ==> f in s.files && r.files[f] == s.files[f] && !IsUnder(f, p)
    ensures forall f :: f in s.files && !IsUnder(f, p) ==> f in r.files
  {
    FsState(map f | f in s.files && !IsUnder(f, p) :: s.files[f], set d | d in s.dirs && d != p && !IsUnder(d, p))
  }

  /** `File.Copy(src, dst, overwrite)`. */
  function CopyFile(s: FsState, src: string, dst: string, overwrite: bool): (r: Attempt<FsState>)
    ensures r.Value? <==> src in s.files && dst !in s.dirs && (overwrite || dst !in s.files)
    ensures r.Value? ==> r.value == s.(files := s.files[dst := s.files[src]])
  {
    if src !in s.files then Threw(FileNotFoundText(src))
    else if dst in s.dirs then Threw(AccessDeniedText(dst))
    else if dst in s.files && !overwrite then Threw(FileExistsText(dst))
    else Value(s.(files := s.files[dst := s.files[src]]))
  }

  /** `File.ReadAllText`. */
  function Read(s: FsState, p: string): Attempt<string> {
    if p in s.files then Value(s.files[p]) else Threw(FileNotFoundText(p))
  }

  /** `File.WriteAllText` (and `XmlDocument.Save` to a path): refused on a directory. */
  function Write(s: FsState, p: string, text: string): Attempt<FsState> {
    if p in s.dirs then Threw(AccessDeniedText(p)) else Value(s.(files := s.files[p := text]))
  }

  /** The files anywhere below directory `d`. */
  function FilesUnder(s: FsState, d: string): set<string> {
    set f | f in s.files && IsUnder(f, d)
  }

  /** The entry names and contents of an archive, as the zip reader sees them;
      `None` for content that is not a zip archive. */
  type Unzipper = string -> Option<map<string, string>>

  /** The paths an archive's entries are written to under `dest`. */
  function EntryPaths(entries: map<string, string>, dest: string): (r: map<string, string>)
    ensures forall k :: k in entries ==> DirPrefix(dest) + k in r && r[DirPrefix(dest) + k] == entries[k]
    ensures forall p :: p in r ==> exists k :: k in entries && p == DirPrefix(dest) + k
  {
    var pre := DirPrefix(dest);
    assert forall a, b :: pre + a == pre + b ==> a == b by {
      forall a, b | pre + a == pre + b ensures a == b {
        assert a == (pre + a)[|pre|..];
      }
    }
    map k | k in entries :: pre + k := entries[k]
  }

  /** `ZipFile.ExtractToDirectory(archive, dest)`: every entry is written below `dest`;
      an entry whose target file already exists aborts the extraction. */
  function Unpack(s: FsState, archive: string, dest: string, unzip: Unzipper): Attempt<FsState> {
    if archive !in s.files then Threw(FileNotFoundText(archive))
    else match unzip(s.files[archive])
      case None => Threw(InvalidArchiveText)
      case Some(entries) =>
        var out := EntryPaths(entries, dest);
        if exists p :: p in out && p in s.files then Threw(FileExistsText(dest))
        else Value(s.(files := s.files + out))
  }

  /** What a completed extraction leaves: every entry at its place below `dest`, every
      file of `s` outside `dest` kept, and, when `s` held nothing below `dest`, no other
      file below it. */
  ghost predicate Extracted(s: FsState, t: FsState, entries: map<string, string>, dest: string) {
    && (forall k :: k in entries ==> DirPrefix(dest) + k in t.files && t.files[DirPrefix(dest) + k] == entries[k])
    && (forall f :: f in s.files && !IsUnder(f, dest) ==> f in t.files)
    && (FilesUnder(s, dest) == {} ==> forall f :: f in t.files && IsUnder(f, dest) ==>
          exists k :: k in entries && f == DirPrefix(dest) + k)
  }

  lemma UnpackFacts(s: FsState, archive: string, dest: string, unzip: Unzipper)
    requires Unpack(s, archive, dest, unzip).Value?
    ensures archive in s.files && unzip(s.files[archive]).Some?
    ensures Extracted(s, Unpack(s, archive, dest, unzip).value, unzip(s.files[archive]).value, dest)
  {
    var entries := unzip(s.files[archive]).value;
    var out := EntryPaths(entries, dest);
    var t := Unpack(s, archive, dest, unzip).value;
    assert t.files == s.files + out;
    if FilesUnder(s, dest) == {} {
      forall f | f in t.files && IsUnder(f, dest) ensures exists k :: k in entries && f == DirPrefix(dest) + k {
        assert f in out || f in FilesUnder(s, dest);
      }
    }
  }

  /** Every element once, nothing else. */
  ghost predicate IsListing(xs: seq<string>, s: set<string>) {
    && (forall i, j :: 0 <= i < j < |xs| ==> xs[i] != xs[j])
    && (forall i :: 0 <= i < |xs| ==> xs[i] in s)
    && (forall x :: x in s ==> x in xs)
  }

  /** The order in which the file system enumerates a set of files, which the library
      leaves to the platform. */
  type Lister = set<string> -> seq<string>

  /** An enumeration order that lists every file of the set once, and nothing else. */
  ghost predicate Enumerates(order: Lister) {
    forall fs :: IsListing(order(fs), fs)
  }

  /** The files below `d`, in the order `order` enumerates them. */
  function Listing(s: FsState, order: Lister, d: string): seq<string> {
    order(FilesUnder(s, d))
  }

  /** An enumeration is a listing of the files below `d`. */
  lemma ListingFacts(s: FsState, order: Lister, d: string)
    requires Enumerates(order)
    ensures forall f :: f in Listing(s, order, d) ==> f in s.files && IsUnder(f, d)
    ensures forall f :: f in s.files && IsUnder(f, d) ==> f in Listing(s, order, d)
    ensures forall i, j :: 0 <= i < j < |Listing(s, order, d)| ==> Listing(s, order, d)[i] != Listing(s, order, d)[j]
  {
    assert IsListing(order(FilesUnder(s, d)), FilesUnder(s, d));
  }

  class FileSystem {
    var files: map<string, string>
    var dirs: set<string>
    /** How `GetFiles` orders what it returns. */
    const order: Lister

    constructor (files0: map<string, string>, dirs0: set<string>, order: Lister)
      ensures files == files0 && dirs == dirs0 && this.order == order
    {
      files := files0;
      dirs := dirs0;
      this.order := order;
    }

    function State(): FsState
      reads this
    {
      FsState(files, dirs)
    }

    /** `IFileInfo.Exists`. */
    predicate FileExists(p: string)
      reads this
    {
      p in files
    }

    /** `Directory.Exists` / `IDirectoryInfo.Exists`. */
    predicate DirectoryExists(p: string)
      reads this
    {
      p in dirs
    }

    method CreateDirectory(p: string) returns (o: Attempt<Unit>)
      modifies this
      ensures State() == After(old(State()), MkDir(old(State()), p))
      ensures o == Outcome(MkDir(old(State()), p))
    {
      if p in files {
        o := Threw(NameTakenText(p));
      } else {
        dirs := dirs + {p};
        o := Value(Unit);
      }
    }

    method DeleteFile(p: string)
      modifies this
      ensures State() == Unlink(old(State()), p)
    {
      files := files - {p};
    }

    method DeleteDirectory(p: string)
      modifies this
      ensures State() == RemoveTree(old(State()), p)
    {
      files := map f | f in files && !IsUnder(f, p) :: files[f];
      dirs := set d | d in dirs && d != p && !IsUnder(d, p);
    }

    method Copy(src: string, dst: string, overwrite: bool) returns (o: Attempt<Unit>)
      modifies this
      ensures State() == After(old(State()), CopyFile(old(State()), src, dst, overwrite))
      ensures o == Outcome(CopyFile(old(State()), src, dst, overwrite))
    {
      if src !in files {
        o := Threw(FileNotFoundText(src));
      } else if dst in dirs {
        o := Threw(AccessDeniedText(dst));
      } else if dst in files && !overwrite {
        o := Threw(FileExistsText(dst));
      } else {
        files := files[dst := files[src]];
        o := Value(Unit);
      }
    }

    method ReadAllText(p: string) returns (r: Attempt<string>)
      ensures r == Read(State(), p)
    {
      if p in files {
        r := Value(files[p]);
      } else {
        r := Threw(FileNotFoundText(p));
      }
    }

    method WriteAllText(p: string, text: string) returns (o: Attempt<Unit>)
      modifies this
      ensures State() == After(old(State()), Write(old(State()), p, text))
      ensures o == Outcome(Write(old(State()), p, text))
    {
      if p in dirs {
        o := Threw(AccessDeniedText(p));
      } else {
        files := files[p := text];
        o := Value(Unit);
      }
    }

    /** `GetFiles("*", SearchOption.AllDirectories)`: every file below `d`, in the
        file system's enumeration order. */
    method GetFiles(d: string) returns (r: Attempt<seq<string>>)
      ensures d !in dirs ==> r == Threw(DirectoryNotFoundText(d))
      ensures d in dirs ==> r == Value(Listing(State(), order, d))
    {
      if d !in dirs {
        return Threw(DirectoryNotFoundText(d));
      }
      r := Value(order(FilesUnder(State(), d)));
    }

    method ExtractToDirectory(archive: string, dest: string, unzip: Unzipper) returns (o: Attempt<Unit>)
      modifies this
      ensures State() == After(old(State()), Unpack(old(State()), archive, dest, unzip))
      ensures o == Outcome(Unpack(old(State()), archive, dest, unzip))
    {
      if archive !in files {
        return Threw(FileNotFoundText(archive));
      }
      var entries := unzip(files[archive]);
      if entries.None? {
        return Threw(InvalidArchiveText);
      }
      var out := EntryPaths(entries.value, dest);
      if exists p :: p in out && p in files {
        return Threw(FileExistsText(dest));
      }
      files := files + out;
      o := Value(Unit);
    }
  }
}
